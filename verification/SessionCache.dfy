/** The bounded idempotency cache of pkg/gateway/session_cache.go and its composite key. */
module SessionCache {
  import opened Basics

  const COLON: byte := 58
  const ZERO: byte := 48
  const DEFAULT_CAPACITY: nat := 10_000
  const TWO_TO_THE_64: nat := 0x1_0000_0000_0000_0000

  type uint64 = x: int | 0 <= x < TWO_TO_THE_64

  // ---- the key ----------------------------------------------------------------------------------

  /** The decimal digits of a number, without leading zeros. */
  function Digits(v: nat): (s: Bytes)
    ensures |s| > 0
    ensures forall i :: 0 <= i < |s| ==> ZERO <= s[i] <= ZERO + 9
  {
    if v < 10 then [ZERO + v] else Digits(v / 10) + [ZERO + v % 10]
  }

  function Value(s: Bytes): int {
    if |s| == 0 then 0 else 10 * Value(s[..|s| - 1]) + (s[|s| - 1] - ZERO)
  }

  lemma {:induction false} DigitsParseBack(v: nat)
    ensures Value(Digits(v)) == v
  {
    if v < 10 {
      assert Digits(v)[..0] == [];
    } else {
      DigitsParseBack(v / 10);
      assert Digits(v)[..|Digits(v)| - 1] == Digits(v / 10);
    }
  }

  function PowerOfTen(k: nat): nat {
    if k == 0 then 1 else 10 * PowerOfTen(k - 1)
  }

  lemma {:induction false} FewDigits(v: nat, k: nat)
    requires 1 <= k && v < PowerOfTen(k)
    ensures |Digits(v)| <= k
    decreases k
  {
    assert PowerOfTen(1) == 10 * PowerOfTen(0) == 10;
    if v >= 10 {
      FewDigits(v / 10, k - 1);
    }
  }

  lemma TwentyDigits(v: uint64)
    ensures |Digits(v)| <= 20
  {
    assert PowerOfTen(5) == 100_000;
    assert PowerOfTen(10) == 10_000_000_000;
    assert PowerOfTen(15) == 1_000_000_000_000_000;
    assert PowerOfTen(20) == 100_000_000_000_000_000_000;
    FewDigits(v, 20);
  }

  /** The buffer is filled from its end; twenty places are enough for any 64-bit number. */
  method Itoa(v: uint64) returns (s: Bytes)
    ensures s == Digits(v)
  {
    if v == 0 {
      return [ZERO];
    }
    var buf := new byte[20](_ => 0);
    var i, rest := buf.Length, v;
    TwentyDigits(v);
    while rest > 0
      invariant 0 <= rest && 0 <= i <= 20
      invariant (if rest == 0 then [] else Digits(rest)) + buf[i..] == Digits(v)
      invariant i >= (if rest == 0 then 0 else |Digits(rest)|)
      decreases rest
    {
      ghost var done := buf[i..];
      i := i - 1;
      buf[i] := ZERO + rest % 10;
      assert buf[i..] == [ZERO + rest % 10] + done;
      rest := rest / 10;
    }
    s := buf[i..];
  }

  function Key(client: Bytes, sequence: nat): Bytes {
    client + [COLON] + Digits(sequence)
  }

  method SessionCacheKey(clientId: Bytes, sequenceNumber: uint64) returns (key: Bytes)
    ensures key == Key(clientId, sequenceNumber)
  {
    var digits := Itoa(sequenceNumber);
    key := clientId + [COLON] + digits;
  }

  lemma LastColon(a: Bytes, m: nat)
    ensures Key(a, m)[|a|] == COLON
    ensures forall i :: |a| < i < |Key(a, m)| ==> Key(a, m)[i] != COLON
  {
    var k := Key(a, m);
    forall i | |a| < i < |k| ensures k[i] != COLON {
      assert k[i] == Digits(m)[i - |a| - 1];
    }
  }

  /** What follows the last colon is the number, so the pair can be read back from the key. */
  lemma KeyIsInjective(a: Bytes, m: nat, b: Bytes, n: nat)
    requires Key(a, m) == Key(b, n)
    ensures a == b && m == n
  {
    var k := Key(a, m);
    LastColon(a, m);
    LastColon(b, n);
    assert |a| == |b|;
    assert a == k[..|a|] == b;
    assert Digits(m) == k[|a| + 1..] == Digits(n);
    DigitsParseBack(m);
    DigitsParseBack(n);
  }

  // ---- the cache --------------------------------------------------------------------------------

  datatype Cache<R> = Cache(capacity: nat, order: seq<Bytes>, entries: map<Bytes, R>)

  function Empty<R>(capacity: int): Cache<R> {
    Cache(if capacity <= 0 then DEFAULT_CAPACITY else capacity, [], map[])
  }

  function Stored<R>(c: Cache<R>, key: Bytes, resp: R): Cache<R> {
    if key in c.entries then c.(entries := c.entries[key := resp])
    else
      var order := c.order + [key];
      if |order| > c.capacity
      then c.(order := order[1..], entries := (c.entries - {order[0]})[key := resp])
      else c.(order := order, entries := c.entries[key := resp])
  }

  class SessionCache<R> {
    const capacity: nat
    var order: seq<Bytes>
    var entries: map<Bytes, R>

    ghost function State(): Cache<R>
      reads this
    {
      Cache(capacity, order, entries)
    }

    constructor (capacity: int)
      ensures State() == Empty(capacity)
    {
      this.capacity := if capacity <= 0 then DEFAULT_CAPACITY else capacity;
      order, entries := [], map[];
    }

    method Put(clientId: Bytes, sequenceNumber: uint64, resp: R)
      modifies this`order, this`entries
      ensures State() == Stored(old(State()), Key(clientId, sequenceNumber), resp)
    {
      var key := SessionCacheKey(clientId, sequenceNumber);
      if key !in entries {
        order := order + [key];
        if |order| > capacity {
          var oldest := order[0];
          order := order[1..];
          entries := entries - {oldest};
        }
      }
      entries := entries[key := resp];
    }

    method Get(clientId: Bytes, sequenceNumber: uint64) returns (resp: Option<R>)
      ensures var key := Key(clientId, sequenceNumber);
        resp == if key in entries then Some(entries[key]) else None
    {
      var key := SessionCacheKey(clientId, sequenceNumber);
      if key in entries {
        resp := Some(entries[key]);
      } else {
        resp := None;
      }
    }

    method Len() returns (n: nat)
      ensures n == |entries|
    {
      n := |entries|;
    }
  }

  // ---- runs -------------------------------------------------------------------------------------

  datatype PutEvent<R> = PutEvent(client: Bytes, sequence: uint64, resp: R)

  function KeyOf<R>(p: PutEvent<R>): Bytes {
    Key(p.client, p.sequence)
  }

  function After<R>(capacity: int, ps: seq<PutEvent<R>>): Cache<R> {
    if |ps| == 0 then Empty(capacity)
    else
      var last := ps[|ps| - 1];
      Stored(After(capacity, ps[..|ps| - 1]), KeyOf(last), last.resp)
  }

  /** The response of the latest Put of a key. */
  function Latest<R>(ps: seq<PutEvent<R>>, key: Bytes): Option<R> {
    if |ps| == 0 then None
    else if KeyOf(ps[|ps| - 1]) == key then Some(ps[|ps| - 1].resp)
    else Latest(ps[..|ps| - 1], key)
  }

  function LastOf<T>(s: seq<T>, n: nat): seq<T> {
    if |s| <= n then s else s[|s| - n..]
  }

  /** The keys inserted, in order: a Put inserts its key unless it is among the latest `capacity` inserted. */
  function Inserted<R>(capacity: nat, ps: seq<PutEvent<R>>): seq<Bytes> {
    if |ps| == 0 then []
    else
      var before := Inserted(capacity, ps[..|ps| - 1]);
      var key := KeyOf(ps[|ps| - 1]);
      if key in LastOf(before, capacity) then before else before + [key]
  }

  predicate NoDuplicates(s: seq<Bytes>) {
    forall i, j :: 0 <= i < j < |s| ==> s[i] != s[j]
  }

  lemma LastOfAppended(s: seq<Bytes>, x: Bytes, n: nat)
    requires n >= 1
    ensures LastOf(s + [x], n) == (if |LastOf(s, n)| < n then LastOf(s, n) else LastOf(s, n)[1..]) + [x]
  {
  }

  /** The order names each key held once, and is within the capacity. */
  predicate Tidy<R>(c: Cache<R>) {
    && c.capacity >= 1 && |c.order| <= c.capacity && NoDuplicates(c.order)
    && (forall k :: k in c.entries ==> k in c.order)
    && (forall i :: 0 <= i < |c.order| ==> c.order[i] in c.entries)
  }

  lemma Distinct(order: seq<Bytes>)
    requires NoDuplicates(order)
    ensures forall i :: 0 < i < |order| ==> order[i] != order[0]
  {
  }

  lemma AppendedOnce(order: seq<Bytes>, drop: nat, key: Bytes)
    requires NoDuplicates(order) && key !in order && drop <= |order|
    ensures NoDuplicates(order[drop..] + [key])
  {
    var s := order[drop..] + [key];
    forall i, j | 0 <= i < j < |s| ensures s[i] != s[j] {
      assert s[i] == order[drop + i];
    }
  }

  lemma StoredIsTidy<R>(c: Cache<R>, key: Bytes, resp: R)
    requires Tidy(c)
    ensures var d := Stored(c, key, resp);
      && Tidy(d) && d.capacity == c.capacity
      && d.order == (if key in c.entries then c.order
                     else (if |c.order| < c.capacity then c.order else c.order[1..]) + [key])
      && (forall k :: k in d.entries ==> k == key || (k in c.entries && d.entries[k] == c.entries[k]))
      && key in d.entries && d.entries[key] == resp
  {
    hide NoDuplicates;
    var d := Stored(c, key, resp);
    if key !in c.entries {
      Distinct(c.order);
      var drop := if |c.order| < c.capacity then 0 else 1;
      assert d.order == c.order[drop..] + [key];
      AppendedOnce(c.order, drop, key);
      forall k | k in d.entries ensures k in d.order {
        if k != key {
          var i :| 0 <= i < |c.order| && c.order[i] == k;
          assert d.order[i - drop] == k;
        } else {
          assert d.order[|d.order| - 1] == k;
        }
      }
    }
  }

  lemma HeldIffListed<R>(c: Cache<R>, key: Bytes)
    requires Tidy(c)
    ensures key in c.entries <==> key in c.order
    ensures 1 <= c.capacity && |c.order| <= c.capacity
  {
  }

  /**
   * In every run: the order lists the latest insertions, at most `capacity` of them and none twice; it
   * names exactly the keys held; and each key holds its latest response.
   */
  lemma {:induction false} CacheHoldsLatestInsertions<R>(capacity: int, ps: seq<PutEvent<R>>)
    ensures var c := After(capacity, ps);
      && Tidy(c) && c.capacity >= 1
      && c.order == LastOf(Inserted(c.capacity, ps), c.capacity)
      && (forall k :: k in c.entries ==> Latest(ps, k) == Some(c.entries[k]))
  {
    if |ps| > 0 {
      hide Stored, KeyOf, LastOf, Tidy;
      var before, last := ps[..|ps| - 1], ps[|ps| - 1];
      CacheHoldsLatestInsertions(capacity, before);
      var c := After(capacity, before);
      HeldIffListed(c, KeyOf(last));
      StoredIsTidy(c, KeyOf(last), last.resp);
      LastOfAppended(Inserted(c.capacity, before), KeyOf(last), c.capacity);
    }
  }

  /** How often keys were inserted since a key's own latest insertion, itself included; 0 if never. */
  function Age(inserted: seq<Bytes>, key: Bytes): (n: nat)
    ensures n <= |inserted|
    ensures n > 0 ==> inserted[|inserted| - n] == key
    ensures forall i :: |inserted| - n < i < |inserted| ==> inserted[i] != key
    ensures n == 0 ==> key !in inserted
  {
    if |inserted| == 0 then 0
    else if inserted[|inserted| - 1] == key then 1
    else
      var n := Age(inserted[..|inserted| - 1], key);
      if n == 0 then 0 else n + 1
  }

  function Lookup<R>(c: Cache<R>, key: Bytes): Option<R> {
    if key in c.entries then Some(c.entries[key]) else None
  }

  /**
   * A pair is found exactly when it was inserted and fewer than `capacity` other keys have been inserted
   * since; what is found is its latest response.
   */
  lemma FoundIff<R>(capacity: int, ps: seq<PutEvent<R>>, client: Bytes, sequence: uint64)
    ensures var c := After(capacity, ps);
      var key := Key(client, sequence);
      var age := Age(Inserted(c.capacity, ps), key);
      Lookup(c, key) == if 0 < age <= c.capacity then Latest(ps, key) else None
  {
    hide Inserted, Age, LastOf, After, NoDuplicates, Latest, Key;
    CacheHoldsLatestInsertions(capacity, ps);
    var c := After(capacity, ps);
    AmongLatestIff(Inserted(c.capacity, ps), c.capacity, Key(client, sequence));
  }

  lemma AgeAtMost(inserted: seq<Bytes>, key: Bytes, p: nat)
    requires p < |inserted| && inserted[p] == key
    ensures 0 < Age(inserted, key) <= |inserted| - p
  {
    hide Age;
  }

  lemma AmongLatestIff(inserted: seq<Bytes>, n: nat, key: Bytes)
    ensures key in LastOf(inserted, n) <==> 0 < Age(inserted, key) <= n
  {
    hide Age;
    var age := Age(inserted, key);
    var skipped := if |inserted| <= n then 0 else |inserted| - n;
    var tail := inserted[skipped..];
    assert LastOf(inserted, n) == tail;
    if key in tail {
      var i :| 0 <= i < |tail| && tail[i] == key;
      AgeAtMost(inserted, key, skipped + i);
    }
    if 0 < age <= n {
      assert tail[|inserted| - age - skipped] == key;
    }
  }

  /** Putting a pair again does not keep it longer: of two, the one put last is the first to go. */
  lemma RefreshedEntryIsEvicted<R>(a: PutEvent<R>, b: PutEvent<R>, x: PutEvent<R>)
    requires KeyOf(a) != KeyOf(b) && KeyOf(a) != KeyOf(x) && KeyOf(b) != KeyOf(x)
    ensures var c := After(2, [a, b, a, x]); KeyOf(a) !in c.entries && KeyOf(b) in c.entries
  {
    hide KeyOf;
    assert [a, b, a, x][..3] == [a, b, a] && [a, b, a][..2] == [a, b] && [a, b][..1] == [a] && [a][..0] == [];
    assert After(2, [a]).order == [KeyOf(a)];
    assert After(2, [a, b]).order == [KeyOf(a), KeyOf(b)];
    assert After(2, [a, b, a]).order == [KeyOf(a), KeyOf(b)];
  }
}
