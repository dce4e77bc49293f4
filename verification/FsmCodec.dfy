/** The binary snapshot of the match map: encodeLocalFSMSnapshot and decodeLocalFSMSnapshot. */
module FsmCodec {
  import opened Basics
  import opened Wire
  import opened GameFsm

  const MAGIC: nat := 0x4746534D
  const VERSION: byte := 1

  /** int32(counter): the value the 4-byte field can hold. */
  function Int32(n: int): int {
    var u := n % U32;
    if u < 0x8000_0000 then u else u - U32
  }

  /** What survives the encoding of a match map: counters cut to 32 bits. */
  ghost function Narrow(m: Matches): (r: Matches)
    ensures r.Keys == m.Keys
    ensures forall id :: id in m ==> r[id] == MatchState(Int32(m[id].counter), m[id].status)
    decreases |m|
  {
    if m == map[] then map[]
    else
      var id :| id in m;
      Narrow(m - {id})[id := MatchState(Int32(m[id].counter), m[id].status)]
  }

  /** Ids and statuses fit their 16-bit length fields. */
  predicate Encodable(m: Matches) {
    forall id :: id in m ==> |id| < U16 && |m[id].status| < U16
  }

  // ---- the format -------------------------------------------------------------------------

  function Record(idLen: nat, id: Bytes, counter: nat, statusLen: nat, status: Bytes): Bytes {
    BigEndian(idLen, 2) + (id + (BigEndian(counter, 4) + (BigEndian(statusLen, 2) + status)))
  }

  function EncodeMatch(id: Bytes, st: MatchState): Bytes {
    Record(|id| % U16, id, st.counter % U32, |st.status| % U16, st.status)
  }

  function EncodeBody(m: Matches, order: seq<Bytes>): Bytes
    requires forall id :: id in order ==> id in m
  {
    if |order| == 0 then [] else EncodeMatch(order[0], m[order[0]]) + EncodeBody(m, order[1..])
  }

  function Header(magic: nat, count: nat): Bytes {
    BigEndian(magic, 4) + ([VERSION] + BigEndian(count, 4))
  }

  /** The keys of m, each once: one way Go may iterate over the map. */
  ghost predicate IterationOrder(m: Matches, order: seq<Bytes>) {
    && (forall id :: id in order <==> id in m)
    && (forall i, j :: 0 <= i < j < |order| ==> order[i] != order[j])
  }

  function Encode(m: Matches, order: seq<Bytes>): Bytes
    requires IterationOrder(m, order)
  {
    Header(MAGIC, |m| % U32) + EncodeBody(m, order)
  }

  // ---- the reader -------------------------------------------------------------------------

  datatype Read<+T> = Got(value: T, rest: Bytes) | Eof

  function ReadBytes(bs: Bytes, n: nat): Read<Bytes> {
    if n <= |bs| then Got(bs[..n], bs[n..]) else Eof
  }

  function ReadUint(bs: Bytes, n: nat): Read<nat> {
    match ReadBytes(bs, n)
    case Eof => Eof
    case Got(v, rest) => Got(Unsigned(v), rest)
  }

  function DecodeMatch(bs: Bytes): Read<(Bytes, MatchState)> {
    match ReadUint(bs, 2)
    case Eof => Eof
    case Got(idLen, r1) =>
      match ReadBytes(r1, idLen)
      case Eof => Eof
      case Got(id, r2) =>
        match ReadUint(r2, 4)
        case Eof => Eof
        case Got(counter, r3) =>
          match ReadUint(r3, 2)
          case Eof => Eof
          case Got(statusLen, r4) =>
            match ReadBytes(r4, statusLen)
            case Eof => Eof
            case Got(status, r5) => Got((id, MatchState(Int32(counter), status)), r5)
  }

  function DecodeBody(bs: Bytes, count: nat, acc: Matches): Read<Matches> {
    if count == 0 then Got(acc, bs)
    else
      match DecodeMatch(bs)
      case Eof => Eof
      case Got(entry, rest) => DecodeBody(rest, count - 1, acc[entry.0 := entry.1])
  }

  predicate HeaderOk(bs: Bytes) {
    |bs| >= 9 && Unsigned(bs[..4]) == MAGIC && bs[4] == VERSION
  }

  function Decode(bs: Bytes): Result<Matches> {
    if !HeaderOk(bs) then Err
    else
      match DecodeBody(bs[9..], Unsigned(bs[5..9]), map[])
      case Eof => Err
      case Got(m, _) => Ok(m)
  }

  // ---- round trip -------------------------------------------------------------------------

  lemma DecodeMatchInvertsEncode(id: Bytes, st: MatchState, tail: Bytes)
    requires |id| < U16 && |st.status| < U16
    ensures DecodeMatch(EncodeMatch(id, st) + tail) == Got((id, MatchState(Int32(st.counter), st.status)), tail)
  {
    hide DecodeMatch, Record;
    Widths();
    ModSmall(|id|, U16);
    ModSmall(|st.status|, U16);
    assert EncodeMatch(id, st) == Record(|id|, id, st.counter % U32, |st.status|, st.status);
    FieldsDecode(|id|, id, st.counter % U32, |st.status|, st.status, tail);
  }

  /** The five fields of a record, read back one after the other. */
  lemma FieldsDecode(n: nat, id: Bytes, counter: nat, k: nat, status: Bytes, tail: Bytes)
    requires n == |id| < Pow256(2) && counter < Pow256(4) && k == |status| < Pow256(2)
    ensures DecodeMatch(Record(n, id, counter, k, status) + tail)
         == Got((id, MatchState(Int32(counter), status)), tail)
  {
    var t4 := status + tail;
    var t3 := BigEndian(k, 2) + t4;
    var t2 := BigEndian(counter, 4) + t3;
    var t1 := id + t2;
    var all := BigEndian(n, 2) + t1;
    assert Record(n, id, counter, k, status) + tail == all;
    ReadUintOf(n, 2, t1);
    ReadBytesOf(id, t2);
    ReadUintOf(counter, 4, t3);
    ReadUintOf(k, 2, t4);
    ReadBytesOf(status, tail);
  }

  lemma ModSmall(a: nat, m: nat)
    requires a < m
    ensures a % m == a
  {
  }

  lemma ReadBytesOf(field: Bytes, tail: Bytes)
    ensures ReadBytes(field + tail, |field|) == Got(field, tail)
  {
    assert (field + tail)[..|field|] == field;
    assert (field + tail)[|field|..] == tail;
  }

  lemma ReadUintOf(n: nat, k: nat, tail: Bytes)
    requires n < Pow256(k)
    ensures ReadUint(BigEndian(n, k) + tail, k) == Got(n, tail)
  {
    UnsignedInvertsBigEndian(n, k);
    assert (BigEndian(n, k) + tail)[..k] == BigEndian(n, k);
    assert (BigEndian(n, k) + tail)[k..] == tail;
  }

  function InsertAll(acc: Matches, m: Matches, order: seq<Bytes>): Matches
    requires forall id :: id in order ==> id in m
    decreases |order|
  {
    if |order| == 0 then acc
    else InsertAll(acc[order[0] := MatchState(Int32(m[order[0]].counter), m[order[0]].status)], m, order[1..])
  }

  lemma {:induction false} DecodeBodyInvertsEncode(m: Matches, order: seq<Bytes>, acc: Matches, tail: Bytes)
    requires Encodable(m) && forall id :: id in order ==> id in m
    ensures DecodeBody(EncodeBody(m, order) + tail, |order|, acc) == Got(InsertAll(acc, m, order), tail)
  {
    hide DecodeMatch, EncodeMatch;
    if |order| == 0 {
      assert EncodeBody(m, order) + tail == tail;
    } else {
      var id := order[0];
      var rest := EncodeBody(m, order[1..]) + tail;
      DecodeMatchInvertsEncode(id, m[id], rest);
      assert EncodeBody(m, order) + tail == EncodeMatch(id, m[id]) + rest;
      DecodeBodyInvertsEncode(m, order[1..], acc[id := MatchState(Int32(m[id].counter), m[id].status)], tail);
    }
  }

  lemma {:induction false} InsertAllIs(acc: Matches, m: Matches, order: seq<Bytes>)
    requires forall id :: id in order ==> id in m
    decreases |order|
    ensures forall id :: id in InsertAll(acc, m, order) <==> id in order || id in acc
    ensures forall id :: id in order || id in acc ==>
      InsertAll(acc, m, order)[id] == if id in order then MatchState(Int32(m[id].counter), m[id].status) else acc[id]
  {
    if |order| > 0 {
      var id := order[0];
      InsertAllIs(acc[id := MatchState(Int32(m[id].counter), m[id].status)], m, order[1..]);
      assert forall x :: x in order <==> x == id || x in order[1..];
    }
  }

  lemma {:induction false} DistinctLength(order: seq<Bytes>)
    requires forall i, j :: 0 <= i < j < |order| ==> order[i] != order[j]
    ensures |set id | id in order| == |order|
  {
    if |order| > 0 {
      DistinctLength(order[1..]);
      assert (set id | id in order) == (set id | id in order[1..]) + {order[0]};
    }
  }

  lemma OrderLength(m: Matches, order: seq<Bytes>)
    requires IterationOrder(m, order)
    ensures |order| == |m|
  {
    DistinctLength(order);
    assert (set id | id in order) == m.Keys;
  }

  lemma HeaderReads(magic: nat, count: nat, tail: Bytes)
    requires magic < Pow256(4) && count < Pow256(4)
    ensures var bs := Header(magic, count) + tail;
            && |bs| >= 9 && Unsigned(bs[..4]) == magic && bs[4] == VERSION
            && Unsigned(bs[5..9]) == count && bs[9..] == tail
  {
    UnsignedInvertsBigEndian(magic, 4);
    UnsignedInvertsBigEndian(count, 4);
    var bs := Header(magic, count) + tail;
    assert bs[..4] == BigEndian(magic, 4);
    assert bs[5..9] == BigEndian(count, 4);
    assert bs[9..] == tail;
  }

  lemma BodyReadsBack(m: Matches, order: seq<Bytes>)
    requires Encodable(m) && IterationOrder(m, order)
    ensures DecodeBody(EncodeBody(m, order), |m|, map[]) == Got(Narrow(m), [])
  {
    hide DecodeBody, EncodeBody, DecodeMatch;
    OrderLength(m, order);
    assert EncodeBody(m, order) + [] == EncodeBody(m, order);
    DecodeBodyInvertsEncode(m, order, map[], []);
    InsertAllFresh(m, order);
  }

  lemma InsertAllFresh(m: Matches, order: seq<Bytes>)
    requires IterationOrder(m, order)
    ensures InsertAll(map[], m, order) == Narrow(m)
  {
    InsertAllIs(map[], m, order);
  }

  /** The whole encoding reads back, consuming every byte, whatever order the map was iterated in. */
  lemma EncodingReadsBack(m: Matches, order: seq<Bytes>)
    requires Encodable(m) && |m| < U32 && IterationOrder(m, order)
    ensures HeaderOk(Encode(m, order))
    ensures DecodeBody(Encode(m, order)[9..], Unsigned(Encode(m, order)[5..9]), map[]) == Got(Narrow(m), [])
  {
    hide DecodeBody, EncodeBody, DecodeMatch;
    Widths();
    ModSmall(|m|, U32);
    HeaderReads(MAGIC, |m|, EncodeBody(m, order));
    BodyReadsBack(m, order);
  }

  /** Decoding an encoding yields the match map with its counters cut to 32 bits. */
  lemma DecodeInvertsEncode(m: Matches, order: seq<Bytes>)
    requires Encodable(m) && |m| < U32 && IterationOrder(m, order)
    ensures Decode(Encode(m, order)) == Ok(Narrow(m))
  {
    hide DecodeBody, EncodeBody, HeaderOk;
    EncodingReadsBack(m, order);
  }

  /** An encoding begins with the bytes of "GFSM", the version and the number of records. */
  lemma EncodingLayout(m: Matches, order: seq<Bytes>)
    requires |m| < U32 && IterationOrder(m, order)
    ensures var bs := Encode(m, order);
      |bs| >= 9 && bs[..5] == [0x47, 0x46, 0x53, 0x4D, 1] && Unsigned(bs[5..9]) == |m|
  {
    hide EncodeBody;
    Widths();
    ModSmall(|m|, U32);
    HeaderReads(MAGIC, |m|, EncodeBody(m, order));
    assert BigEndian(MAGIC, 4) == [0x47, 0x46, 0x53, 0x4D];
    assert Encode(m, order)[..5] == BigEndian(MAGIC, 4) + [VERSION];
  }

  /** So the round trip is exact precisely for the maps whose counters are 32-bit signed. */
  lemma RoundTripExactIff(m: Matches, order: seq<Bytes>)
    requires Encodable(m) && |m| < U32 && IterationOrder(m, order)
    ensures Decode(Encode(m, order)) == Ok(m)
       <==> forall id :: id in m ==> -0x8000_0000 <= m[id].counter < 0x8000_0000
  {
    hide Decode, Encode;
    DecodeInvertsEncode(m, order);
    forall id | id in m
      ensures Narrow(m)[id] == m[id] <==> -0x8000_0000 <= m[id].counter < 0x8000_0000
    {
      Int32Fixes(m[id].counter);
    }
    if forall id :: id in m ==> -0x8000_0000 <= m[id].counter < 0x8000_0000 {
      assert Narrow(m) == m;
    }
  }

  lemma Int32Fixes(n: int)
    ensures Int32(n) == n <==> -0x8000_0000 <= n < 0x8000_0000
  {
  }

  // ---- truncated input --------------------------------------------------------------------

  lemma DecodeMatchExtends(bs: Bytes, more: Bytes)
    requires DecodeMatch(bs).Got?
    ensures DecodeMatch(bs + more) == Got(DecodeMatch(bs).value, DecodeMatch(bs).rest + more)
  {
    var idLen := ReadUint(bs, 2).value;
    ReadExtends(bs, more, 2);
    var r1 := bs[2..];
    ReadExtends(r1, more, idLen);
    var r2 := r1[idLen..];
    ReadExtends(r2, more, 4);
    var r3 := r2[4..];
    ReadExtends(r3, more, 2);
    ReadExtends(r3[2..], more, ReadUint(r3, 2).value);
  }

  lemma ReadExtends(bs: Bytes, more: Bytes, n: nat)
    requires n <= |bs|
    ensures ReadBytes(bs + more, n) == Got(bs[..n], bs[n..] + more)
  {
    assert (bs + more)[..n] == bs[..n];
    assert (bs + more)[n..] == bs[n..] + more;
  }

  lemma {:induction false} DecodeBodyExtends(bs: Bytes, more: Bytes, count: nat, acc: Matches)
    requires DecodeBody(bs, count, acc).Got?
    ensures DecodeBody(bs + more, count, acc)
         == Got(DecodeBody(bs, count, acc).value, DecodeBody(bs, count, acc).rest + more)
    decreases count
  {
    hide DecodeMatch;
    if count > 0 {
      DecodeMatchExtends(bs, more);
      var one := DecodeMatch(bs);
      DecodeBodyExtends(one.rest, more, count - 1, acc[one.value.0 := one.value.1]);
    }
  }

  /** A snapshot cut short anywhere is rejected. */
  lemma StrictPrefixRejected(m: Matches, order: seq<Bytes>, k: nat)
    requires Encodable(m) && |m| < U32 && IterationOrder(m, order)
    requires k < |Encode(m, order)|
    ensures Decode(Encode(m, order)[..k]) == Err
  {
    hide DecodeBody, DecodeMatch, Encode, EncodeBody;
    EncodingReadsBack(m, order);
    if 9 <= k {
      CutRejected(Encode(m, order), k, Narrow(m));
    }
  }

  lemma BodyCutShort(bs: Bytes, more: Bytes, count: nat, acc: Matches)
    requires |more| > 0
    requires DecodeBody(bs + more, count, acc).Got? && DecodeBody(bs + more, count, acc).rest == []
    ensures DecodeBody(bs, count, acc).Eof?
  {
    hide DecodeBody;
    if DecodeBody(bs, count, acc).Got? {
      DecodeBodyExtends(bs, more, count, acc);
    }
  }

  lemma CutRejected(whole: Bytes, k: nat, m: Matches)
    requires HeaderOk(whole) && DecodeBody(whole[9..], Unsigned(whole[5..9]), map[]) == Got(m, [])
    requires 9 <= k < |whole|
    ensures DecodeBody(whole[..k][9..], Unsigned(whole[..k][5..9]), map[]).Eof?
  {
    hide DecodeBody, Unsigned;
    var cut := whole[..k];
    assert cut[5..9] == whole[5..9];
    assert cut[9..] + whole[k..] == whole[9..];
    BodyCutShort(cut[9..], whole[k..], Unsigned(whole[5..9]), map[]);
  }

  /** What follows the last record is not looked at. */
  lemma TrailingBytesIgnored(bs: Bytes, more: Bytes)
    requires Decode(bs).Ok?
    ensures Decode(bs + more) == Decode(bs)
  {
    hide DecodeBody;
    assert (bs + more)[..4] == bs[..4] && (bs + more)[5..9] == bs[5..9];
    assert (bs + more)[9..] == bs[9..] + more;
    DecodeBodyExtends(bs[9..], more, Unsigned(bs[5..9]), map[]);
  }
}
