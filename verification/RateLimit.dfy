/**
 * The token-bucket limiter of pkg/telemetry/ratelimit.go and its janitor. Times are seconds and tokens
 * are counted in reals.
 */
module RateLimit {

  datatype Bucket = Bucket(tokens: real, lastSeen: real)

  type Clients = map<string, Bucket>

  datatype Limits = Limits(rate: real, max: real, ttl: real)

  /** What trickles in over a stretch of time. */
  function Drip(l: Limits, d: real): real {
    d * l.rate
  }

  /** What the bucket holds at a later moment. */
  function Refilled(l: Limits, b: Bucket, now: real): real {
    var tokens := b.tokens + Drip(l, now - b.lastSeen);
    if tokens > l.max then l.max else tokens
  }

  function Take(l: Limits, clients: Clients, ip: string, now: real): (Clients, bool) {
    if ip !in clients then (clients[ip := Bucket(l.max - 1.0, now)], true)
    else
      var tokens := Refilled(l, clients[ip], now);
      if tokens >= 1.0 then (clients[ip := Bucket(tokens - 1.0, now)], true)
      else (clients[ip := Bucket(tokens, now)], false)
  }

  predicate Stale(l: Limits, b: Bucket, now: real) {
    now - b.lastSeen > l.ttl
  }

  function Swept(l: Limits, clients: Clients, now: real): Clients {
    clients - set ip | ip in clients && Stale(l, clients[ip], now)
  }

  class TokenBucketLimiter {
    var clients: Clients
    const refillRate: real
    const maxTokens: real
    const ttl: real

    function Config(): Limits {
      Limits(refillRate, maxTokens, ttl)
    }

    constructor (rate: real, burst: real, ttl: real)
      ensures clients == map[] && Config() == Limits(rate, burst, ttl)
    {
      clients, refillRate, maxTokens := map[], rate, burst;
      this.ttl := ttl;
    }

    method Allow(ip: string, now: real) returns (allowed: bool)
      modifies this`clients
      ensures (clients, allowed) == Take(Config(), old(clients), ip, now)
    {
      if ip !in clients {
        clients := clients[ip := Bucket(maxTokens - 1.0, now)];
        return true;
      }
      var client := clients[ip];
      var elapsed := now - client.lastSeen;
      var tokens := client.tokens + elapsed * refillRate;
      assert tokens == client.tokens + Drip(Config(), now - client.lastSeen);
      hide Drip;
      if tokens > maxTokens {
        tokens := maxTokens;
      }
      allowed := tokens >= 1.0;
      if allowed {
        tokens := tokens - 1.0;
      }
      clients := clients[ip := Bucket(tokens, now)];
    }

    /** One round of the janitor; the map is walked in any order. */
    method Sweep(now: real)
      modifies this`clients
      ensures clients == Swept(Config(), old(clients), now)
    {
      var todo := clients.Keys;
      while todo != {}
        invariant todo <= clients.Keys <= old(clients).Keys
        invariant forall ip :: ip in clients ==> clients[ip] == old(clients)[ip]
        invariant forall ip :: ip in old(clients) && ip !in todo ==>
          (ip in clients <==> !Stale(Config(), old(clients)[ip], now))
        decreases |todo|
      {
        var ip :| ip in todo;
        todo := todo - {ip};
        if now - clients[ip].lastSeen > ttl {
          clients := clients - {ip};
        }
      }
    }
  }

  // ---- runs -------------------------------------------------------------------------------------

  datatype Event = Request(ip: string, at: real) | Janitor(at: real)

  predicate InOrder(es: seq<Event>, start: real) {
    |es| == 0 || (start <= es[0].at && InOrder(es[1..], es[0].at))
  }

  function Step(l: Limits, clients: Clients, e: Event, evicting: bool): (Clients, bool) {
    match e
    case Request(ip, at) => Take(l, clients, ip, at)
    case Janitor(at) => (if evicting then Swept(l, clients, at) else clients, false)
  }

  /** What each request is answered; the janitor's own rounds answer nothing. */
  function Answers(l: Limits, clients: Clients, es: seq<Event>, evicting: bool): (r: seq<bool>)
    ensures |r| == |es|
    decreases |es|
  {
    if |es| == 0 then []
    else
      var (after, answer) := Step(l, clients, es[0], evicting);
      [answer] + Answers(l, after, es[1..], evicting)
  }

  /** However requests and sweeps fall, nobody can tell that the janitor was there. */
  ghost predicate Transparent(l: Limits) {
    forall es, start :: InOrder(es, start) ==> Answers(l, map[], es, true) == Answers(l, map[], es, false)
  }

  // ---- when the janitor goes unnoticed ------------------------------------------------------------

  predicate Sane(l: Limits, clients: Clients, now: real) {
    forall ip :: ip in clients ==> 0.0 <= clients[ip].tokens <= l.max && clients[ip].lastSeen <= now
  }

  /** The evicting limiter forgets only buckets that are full again. */
  predicate Alike(l: Limits, mine: Clients, full: Clients, now: real) {
    && Sane(l, full, now)
    && (forall ip :: ip in mine ==> ip in full && mine[ip] == full[ip])
    && (forall ip :: ip in full && ip !in mine ==> Refilled(l, full[ip], now) == l.max)
  }

  predicate Generous(l: Limits) {
    l.max >= 1.0 && Drip(l, l.ttl) >= l.max
  }

  lemma DripAdds(l: Limits, d: real, e: real)
    requires l.rate >= 0.0 && d >= 0.0 && e >= 0.0
    ensures Drip(l, d + e) == Drip(l, d) + Drip(l, e)
    ensures Drip(l, d) >= 0.0 && Drip(l, e) >= 0.0
  {
  }

  lemma DripOver(l: Limits, over: real, d: real)
    requires l.rate >= 0.0 && over >= 0.0
    ensures Drip(l, over + d) >= Drip(l, d)
  {
    assert over * l.rate >= 0.0;
    assert (over + d) * l.rate == over * l.rate + d * l.rate;
  }

  lemma RefillGrows(l: Limits, b: Bucket, now: real, later: real)
    requires l.rate >= 0.0 && b.lastSeen <= now <= later
    ensures Refilled(l, b, now) <= Refilled(l, b, later) <= Refilled(l, b, now) + Drip(l, later - now)
    ensures 0.0 <= b.tokens && 0.0 <= l.max ==> Refilled(l, b, now) >= 0.0
  {
    hide Drip;
    DripAdds(l, now - b.lastSeen, later - now);
    assert (now - b.lastSeen) + (later - now) == later - b.lastSeen;
  }

  lemma StaleIsFull(l: Limits, b: Bucket, now: real)
    requires l.rate >= 0.0 && Drip(l, l.ttl) >= l.max && b.tokens >= 0.0 && Stale(l, b, now)
    ensures Refilled(l, b, now) == l.max
  {
    hide Drip;
    var over := now - b.lastSeen - l.ttl;
    assert now - b.lastSeen == over + l.ttl;
    DripOver(l, over, l.ttl);
  }

  lemma StepAlike(l: Limits, mine: Clients, full: Clients, e: Event, now: real)
    requires l.rate >= 0.0 && Generous(l) && Alike(l, mine, full, now) && now <= e.at
    ensures var (mine', a) := Step(l, mine, e, true); var (full', b) := Step(l, full, e, false);
      a == b && Alike(l, mine', full', e.at)
  {
    forall ip | ip in full
      ensures 0.0 <= Refilled(l, full[ip], e.at) <= l.max
      ensures ip !in mine ==> Refilled(l, full[ip], e.at) == l.max
      ensures Stale(l, full[ip], e.at) ==> Refilled(l, full[ip], e.at) == l.max
    {
      RefillGrows(l, full[ip], now, e.at);
      if Stale(l, full[ip], e.at) {
        StaleIsFull(l, full[ip], e.at);
      }
    }
    hide Refilled;
  }

  lemma {:induction false} AnswersAlike(l: Limits, mine: Clients, full: Clients, es: seq<Event>, now: real)
    requires l.rate >= 0.0 && Generous(l) && Alike(l, mine, full, now) && InOrder(es, now)
    ensures Answers(l, mine, es, true) == Answers(l, full, es, false)
    decreases |es|
  {
    if |es| > 0 {
      StepAlike(l, mine, full, es[0], now);
      AnswersAlike(l, Step(l, mine, es[0], true).0, Step(l, full, es[0], false).0, es[1..], es[0].at);
    }
  }

  // ---- when it shows ------------------------------------------------------------------------------

  const IP := "client"

  function One(tokens: real, at: real): Clients {
    map[IP := Bucket(tokens, at)]
  }

  /** An event answered differently, or followed by a run answered differently. */
  lemma Told(l: Limits, mine: Clients, full: Clients, e: Event, rest: seq<Event>, start: real) returns (es: seq<Event>)
    requires start <= e.at && InOrder(rest, e.at)
    requires var (mine', x) := Step(l, mine, e, true); var (full', y) := Step(l, full, e, false);
      x != y || Answers(l, mine', rest, true) != Answers(l, full', rest, false)
    ensures InOrder(es, start) && Answers(l, mine, es, true) != Answers(l, full, es, false)
  {
    es := [e] + rest;
    assert es[1..] == rest;
    var (mine', x) := Step(l, mine, e, true);
    var (full', y) := Step(l, full, e, false);
    var s, t := Answers(l, mine', rest, true), Answers(l, full', rest, false);
    assert ([x] + s)[0] == x && ([y] + t)[0] == y && ([x] + s)[1..] == s && ([y] + t)[1..] == t;
  }

  lemma Asked(l: Limits, a: real, at: real, later: real, evicting: bool)
    ensures var r := Refilled(l, Bucket(a, at), later);
      Step(l, One(a, at), Request(IP, later), evicting)
        == if r >= 1.0 then (One(r - 1.0, later), true) else (One(r, later), false)
  {
    assert forall b: Bucket, b': Bucket :: map[IP := b][IP := b'] == map[IP := b'];
  }

  /** The moment by which d has trickled in. */
  function Gain(l: Limits, at: real, d: real): (later: real)
    requires d == 0.0 || (l.rate > 0.0 && d > 0.0)
    ensures later >= at && Drip(l, later - at) == d
    ensures d > 0.0 ==> later > at
  {
    if d == 0.0 then
      assert at - at == 0.0;
      at
    else
      var wait := d / l.rate;
      assert wait * l.rate == d;
      assert wait > 0.0;
      assert (at + wait) - at == wait;
      at + wait
  }

  /** Two buckets that hold different amounts can be told apart by requests alone. */
  lemma {:induction false} Distinguish(l: Limits, a: real, b: real, at: real) returns (es: seq<Event>)
    requires l.rate > 0.0 && l.max >= 1.0 && 0.0 <= a < b <= l.max
    ensures InOrder(es, at) && Answers(l, One(b, at), es, true) != Answers(l, One(a, at), es, false)
    decreases b.Floor
  {
    hide Step, Answers, Gain, Drip;
    var later := Gain(l, at, if b < 1.0 then 1.0 - b else 0.0);
    Asked(l, a, at, later, false);
    Asked(l, b, at, later, true);
    var rest := [];
    if b >= 1.0 && a >= 1.0 {
      rest := Distinguish(l, a - 1.0, b - 1.0, later);
    }
    es := Told(l, One(b, at), One(a, at), Request(IP, later), rest, at);
  }

  /** Past the time to live, but before a bucket that holds a, less than one token, is full again. */
  function Overdue(l: Limits, a: real, at: real): (later: real)
    requires l.rate >= 0.0 && l.ttl >= 0.0 && l.max >= 1.0 && Drip(l, l.ttl) < l.max
    requires 0.0 <= a < 1.0 && (a == 0.0 || l.rate == 0.0)
    ensures later - at > l.ttl && 0.0 <= a + Drip(l, later - at) < l.max
  {
    if l.rate == 0.0 then at + l.ttl + 1.0
    else
      var gap := l.max - Drip(l, l.ttl);
      var later := Gain(l, at + l.ttl, gap / 2.0);
      DripAdds(l, l.ttl, later - (at + l.ttl));
      assert l.ttl + (later - (at + l.ttl)) == later - at;
      later
  }

  /** A drained bucket is forgotten before it has filled up again. */
  lemma Reveal(l: Limits, a: real, at: real) returns (es: seq<Event>)
    requires l.rate >= 0.0 && l.ttl >= 0.0 && l.max >= 1.0 && Drip(l, l.ttl) < l.max
    requires 0.0 <= a < 1.0 && (a == 0.0 || l.rate == 0.0)
    ensures InOrder(es, at) && Answers(l, One(a, at), es, true) != Answers(l, One(a, at), es, false)
  {
    hide Answers, Overdue;
    var later := Overdue(l, a, at);
    var r := a + Drip(l, later - at);
    Asked(l, a, at, later, false);
    assert Step(l, One(a, at), Janitor(later), true).0 == map[];
    assert Step(l, map[], Request(IP, later), true) == (One(l.max - 1.0, later), true);
    var rest := [];
    if r >= 1.0 {
      rest := Distinguish(l, r - 1.0, l.max - 1.0, later);
    }
    es := Told(l, map[], One(a, at), Request(IP, later), rest, later);
    es := Told(l, One(a, at), One(a, at), Janitor(later), es, at);
  }

  /** From any bucket on, requests can drain it and so expose the janitor. */
  lemma {:induction false} Exposed(l: Limits, a: real, at: real) returns (es: seq<Event>)
    requires l.rate >= 0.0 && l.ttl >= 0.0 && l.max >= 1.0 && Drip(l, l.ttl) < l.max
    requires 0.0 <= a <= l.max
    ensures InOrder(es, at) && Answers(l, One(a, at), es, true) != Answers(l, One(a, at), es, false)
    decreases a.Floor, a > 0.0
  {
    hide Step, Answers, Gain, Drip;
    if a >= 1.0 || (a > 0.0 && l.rate > 0.0) {
      var later := Gain(l, at, if a >= 1.0 then 0.0 else 1.0 - a);
      Asked(l, a, at, later, true);
      Asked(l, a, at, later, false);
      var left := if a >= 1.0 then a - 1.0 else 0.0;
      var rest := Exposed(l, left, later);
      es := Told(l, One(a, at), One(a, at), Request(IP, later), rest, at);
    } else {
      es := Reveal(l, a, at);
    }
  }

  /** With room for less than one token a client is served once, and once more whenever it is forgotten. */
  lemma TooSmall(l: Limits) returns (es: seq<Event>)
    requires l.ttl >= 0.0 && l.max < 1.0
    ensures InOrder(es, 0.0) && Answers(l, map[], es, true) != Answers(l, map[], es, false)
  {
    hide Answers;
    var later := l.ttl + 1.0;
    var held := One(l.max - 1.0, 0.0);
    Asked(l, l.max - 1.0, 0.0, later, false);
    assert Step(l, held, Janitor(later), true).0 == map[];
    es := Told(l, map[], held, Request(IP, later), [], later);
    es := Told(l, held, held, Janitor(later), es, 0.0);
    es := Told(l, map[], map[], Request(IP, 0.0), es, 0.0);
  }

  /**
   * The janitor goes unnoticed in every run exactly when a bucket holds at least one token and fills up
   * within the time to live.
   */
  lemma TransparentIff(l: Limits)
    requires l.rate >= 0.0 && l.ttl >= 0.0
    ensures Transparent(l) <==> Generous(l)
  {
    if Generous(l) {
      forall es, start | InOrder(es, start) ensures Answers(l, map[], es, true) == Answers(l, map[], es, false) {
        AnswersAlike(l, map[], map[], es, start);
      }
    } else if l.max < 1.0 {
      var es := TooSmall(l);
    } else {
      var rest := Exposed(l, l.max - 1.0, 0.0);
      var es := Told(l, map[], map[], Request(IP, 0.0), rest, 0.0);
    }
  }

  // ---- the bound ----------------------------------------------------------------------------------

  function After(l: Limits, clients: Clients, es: seq<Event>, evicting: bool): Clients
    decreases |es|
  {
    if |es| == 0 then clients else After(l, Step(l, clients, es[0], evicting).0, es[1..], evicting)
  }

  /** How many of a client's requests the run allows. */
  function Granted(l: Limits, clients: Clients, es: seq<Event>, evicting: bool, ip: string): nat
    decreases |es|
  {
    if |es| == 0 then 0
    else
      var (after, answer) := Step(l, clients, es[0], evicting);
      (if answer && es[0].Request? && es[0].ip == ip then 1 else 0) + Granted(l, after, es[1..], evicting, ip)
  }

  /** The tokens a client could draw on at a moment. */
  function Available(l: Limits, clients: Clients, ip: string, now: real): real {
    if ip in clients then Refilled(l, clients[ip], now) else l.max
  }

  predicate Until(es: seq<Event>, start: real, end: real) {
    if |es| == 0 then start <= end else start <= es[0].at && Until(es[1..], es[0].at, end)
  }

  lemma StepDraws(l: Limits, clients: Clients, e: Event, ip: string, now: real)
    requires l.rate >= 0.0 && Generous(l) && Sane(l, clients, now) && now <= e.at
    ensures var (after, answer) := Step(l, clients, e, true);
      && Sane(l, after, e.at)
      && Available(l, after, ip, e.at) + (if answer && e.Request? && e.ip == ip then 1.0 else 0.0)
           <= Available(l, clients, ip, now) + Drip(l, e.at - now)
  {
    hide Drip;
    DripAdds(l, e.at - now, 0.0);
    forall c | c in clients
      ensures 0.0 <= Refilled(l, clients[c], e.at) <= Refilled(l, clients[c], now) + Drip(l, e.at - now)
      ensures Refilled(l, clients[c], e.at) <= l.max
      ensures Stale(l, clients[c], e.at) ==> Refilled(l, clients[c], e.at) == l.max
    {
      RefillGrows(l, clients[c], now, e.at);
      if Stale(l, clients[c], e.at) {
        StaleIsFull(l, clients[c], e.at);
      }
    }
    match e {
      case Request(who, at) => JustSeen(l, Take(l, clients, who, at).0[who], at);
      case Janitor(_) =>
    }
    hide Refilled;
  }

  lemma JustSeen(l: Limits, b: Bucket, now: real)
    requires b.lastSeen == now && b.tokens <= l.max
    ensures Refilled(l, b, now) == b.tokens
  {
    assert now - b.lastSeen == 0.0;
  }

  lemma {:induction false} GrantedWithin(l: Limits, clients: Clients, es: seq<Event>, ip: string,
                                         start: real, end: real)
    requires l.rate >= 0.0 && Generous(l) && Sane(l, clients, start) && Until(es, start, end)
    ensures Granted(l, clients, es, true, ip) as real + Available(l, After(l, clients, es, true), ip, end)
      <= Available(l, clients, ip, start) + Drip(l, end - start)
    decreases |es|
  {
    hide Drip, Step;
    if |es| == 0 {
      DripAdds(l, end - start, 0.0);
      if ip in clients {
        RefillGrows(l, clients[ip], start, end);
      }
    } else {
      var t := es[0].at;
      StepDraws(l, clients, es[0], ip, start);
      UntilOrder(es[1..], t, end);
      GrantedWithin(l, Step(l, clients, es[0], true).0, es[1..], ip, t, end);
      DripAdds(l, end - t, t - start);
      assert (end - t) + (t - start) == end - start;
    }
  }

  lemma {:induction false} UntilOrder(es: seq<Event>, start: real, end: real)
    requires Until(es, start, end)
    ensures start <= end
    decreases |es|
  {
    if |es| > 0 {
      UntilOrder(es[1..], es[0].at, end);
    }
  }

  lemma {:induction false} RunStaysSane(l: Limits, clients: Clients, es: seq<Event>, start: real, end: real)
    requires l.rate >= 0.0 && Generous(l) && Sane(l, clients, start) && Until(es, start, end)
    ensures Sane(l, After(l, clients, es, true), end)
    decreases |es|
  {
    if |es| > 0 {
      StepDraws(l, clients, es[0], IP, start);
      RunStaysSane(l, Step(l, clients, es[0], true).0, es[1..], es[0].at, end);
    }
  }

  /** In any window of any run a client gets through at most a full bucket and what trickles in meanwhile. */
  lemma WindowBound(l: Limits, before: seq<Event>, window: seq<Event>, ip: string, begin: real, start: real, end: real)
    requires l.rate >= 0.0 && Generous(l) && Until(before, begin, start) && Until(window, start, end)
    ensures Granted(l, After(l, map[], before, true), window, true, ip) as real <= l.max + Drip(l, end - start)
  {
    hide Drip, Granted, After, Until, Sane, Generous;
    EmptyIsSane(l, begin);
    RunStaysSane(l, map[], before, begin, start);
    var mid := After(l, map[], before, true);
    GrantedWithin(l, mid, window, ip, start, end);
    RunStaysSane(l, mid, window, start, end);
    AvailableInRange(l, mid, ip, start);
    AvailableInRange(l, After(l, mid, window, true), ip, end);
  }

  lemma EmptyIsSane(l: Limits, now: real)
    ensures Sane(l, map[], now)
  {
  }

  lemma AvailableInRange(l: Limits, clients: Clients, ip: string, now: real)
    requires l.rate >= 0.0 && Generous(l) && Sane(l, clients, now)
    ensures 0.0 <= Available(l, clients, ip, now) <= l.max
  {
    if ip in clients {
      RefillGrows(l, clients[ip], now, now);
    }
  }

  /** Nobody ever gets through more, in whatever window of whatever run. */
  ghost predicate Bounded(l: Limits) {
    forall before, window, ip, begin, start, end | Until(before, begin, start) && Until(window, start, end) ::
      Granted(l, After(l, map[], before, true), window, true, ip) as real <= l.max + Drip(l, end - start)
  }

  // ---- when it is exceeded ------------------------------------------------------------------------

  lemma {:induction false} Joined(l: Limits, clients: Clients, es: seq<Event>, more: seq<Event>,
                                  start: real, mid: real, end: real)
    requires Until(es, start, mid) && Until(more, mid, end)
    ensures Until(es + more, start, end)
    ensures var after := After(l, clients, es, true);
      && Granted(l, clients, es + more, true, IP)
           == Granted(l, clients, es, true, IP) + Granted(l, after, more, true, IP)
      && After(l, clients, es + more, true) == After(l, after, more, true)
    decreases |es|
  {
    hide Step;
    if |es| == 0 {
      assert es + more == more;
      StartEarlier(more, start, mid, end);
    } else {
      assert (es + more)[1..] == es[1..] + more;
      Joined(l, Step(l, clients, es[0], true).0, es[1..], more, es[0].at, mid, end);
    }
  }

  lemma StartEarlier(es: seq<Event>, start: real, mid: real, end: real)
    requires start <= mid && Until(es, mid, end)
    ensures Until(es, start, end)
  {
  }

  /** One event, answered as Step says. */
  lemma Single(l: Limits, clients: Clients, e: Event)
    ensures Until([e], e.at, e.at)
    ensures After(l, clients, [e], true) == Step(l, clients, e, true).0
    ensures Granted(l, clients, [e], true, IP)
      == if Step(l, clients, e, true).1 && e.Request? && e.ip == IP then 1 else 0
  {
    hide Step;
    assert [e][1..] == [];
  }

  /** Whoever waits for whole tokens gets through with every token there is, and is left with nothing but a fraction. */
  lemma {:induction false} Drain(l: Limits, a: real, at: real) returns (es: seq<Event>, b: real, end: real)
    requires l.rate >= 0.0 && l.max >= 1.0 && 0.0 <= a <= l.max
    ensures Until(es, at, end) && After(l, One(a, at), es, true) == One(b, end)
    ensures 0.0 <= b < 1.0 && b <= a && (b == 0.0 || l.rate == 0.0)
    ensures Granted(l, One(a, at), es, true, IP) as real == a + Drip(l, end - at) - b
    decreases a.Floor, a > 0.0
  {
    hide Step, Gain, Drip, One;
    if a >= 1.0 || (a > 0.0 && l.rate > 0.0) {
      var later := Gain(l, at, if a >= 1.0 then 0.0 else 1.0 - a);
      Asked(l, a, at, later, true);
      Single(l, One(a, at), Request(IP, later));
      var left := if a >= 1.0 then a - 1.0 else 0.0;
      es, b, end := Drain(l, left, later);
      StartEarlier([Request(IP, later)], at, later, later);
      Joined(l, One(a, at), [Request(IP, later)], es, at, later, end);
      es := [Request(IP, later)] + es;
      DripSplits(l, at, later, end);
    } else {
      es, b, end := [], a, at;
      NoDrip(l, at);
    }
  }

  lemma NoDrip(l: Limits, at: real)
    ensures Drip(l, at - at) == 0.0
  {
  }

  lemma NothingDrips(l: Limits, d: real)
    requires l.rate == 0.0
    ensures Drip(l, d) == 0.0
  {
  }

  lemma DripSplits(l: Limits, start: real, mid: real, end: real)
    ensures Drip(l, end - start) == Drip(l, mid - start) + Drip(l, end - mid)
  {
    assert end - start == (mid - start) + (end - mid);
    DripDistributes(l, mid - start, end - mid);
  }

  lemma DripDistributes(l: Limits, d: real, e: real)
    ensures Drip(l, d + e) == Drip(l, d) + Drip(l, e)
  {
  }

  /** A client nobody remembers drains a full bucket. */
  lemma DrainNew(l: Limits, at: real) returns (es: seq<Event>, b: real, end: real)
    requires l.rate >= 0.0 && l.max >= 1.0
    ensures Until(es, at, end) && After(l, map[], es, true) == One(b, end)
    ensures 0.0 <= b < 1.0 && b <= l.max - 1.0 && (b == 0.0 || l.rate == 0.0)
    ensures Granted(l, map[], es, true, IP) as real == l.max + Drip(l, end - at) - b
  {
    hide Drip;
    assert Step(l, map[], Request(IP, at), true) == (One(l.max - 1.0, at), true);
    hide Step, One;
    Single(l, map[], Request(IP, at));
    es, b, end := Drain(l, l.max - 1.0, at);
    Joined(l, map[], [Request(IP, at)], es, at, at, end);
    es := [Request(IP, at)] + es;
  }

  /** Drained, forgotten before it is full again, and drained once more. */
  lemma DrainTwice(l: Limits) returns (es: seq<Event>, end: real)
    requires l.rate >= 0.0 && l.ttl >= 0.0 && l.max >= 1.0 && Drip(l, l.ttl) < l.max
    ensures Until(es, 0.0, end)
    ensures Granted(l, map[], es, true, IP) as real > l.max + Drip(l, end)
  {
    hide Drip, Overdue, Granted, After, Until;
    var first, b, t := DrainNew(l, 0.0);
    var later := Overdue(l, b, t);
    assert Step(l, One(b, t), Janitor(later), true).0 == map[];
    Single(l, One(b, t), Janitor(later));
    StartEarlier([Janitor(later)], t, later, later);
    var second, b', u := DrainNew(l, later);
    Joined(l, One(b, t), [Janitor(later)], second, t, later, u);
    Joined(l, map[], first, [Janitor(later)] + second, 0.0, t, u);
    es, end := first + ([Janitor(later)] + second), u;
    DripSplits(l, 0.0, t, u);
    DripSplits(l, t, later, u);
    assert t - 0.0 == t && u - 0.0 == u;
    if l.rate == 0.0 {
      NothingDrips(l, later - t);
    }
  }

  /**
   * The bound holds in every window of every run exactly when a bucket holds at least one token and fills
   * up within the time to live; otherwise a client forgotten too early is served a second bucket.
   */
  lemma WindowBoundIff(l: Limits)
    requires l.rate >= 0.0 && l.ttl >= 0.0
    ensures Bounded(l) <==> Generous(l)
  {
    hide Drip;
    if Generous(l) {
      forall before, window, ip, begin, start, end | Until(before, begin, start) && Until(window, start, end)
        ensures Granted(l, After(l, map[], before, true), window, true, ip) as real <= l.max + Drip(l, end - start)
      {
        WindowBound(l, before, window, ip, begin, start, end);
      }
    } else {
      var es, end := [Request(IP, 0.0)], 0.0;
      if l.max < 1.0 {
        Single(l, map[], es[0]);
        NoDrip(l, 0.0);
      } else {
        es, end := DrainTwice(l);
        assert end - 0.0 == end;
      }
      assert Until([], 0.0, 0.0) && After(l, map[], [], true) == map[];
      assert Until(es, 0.0, end) && Granted(l, map[], es, true, IP) as real > l.max + Drip(l, end - 0.0);
    }
  }

  // ---- who is refused -----------------------------------------------------------------------------

  /** From event k on, the time `from` to now holds so many granted requests that one more would exceed the bound. */
  predicate NoRoom(l: Limits, es: seq<Event>, ip: string, k: nat, begin: real, from: real, now: real) {
    && k <= |es| && Until(es[..k], begin, from) && Until(es[k..], from, now)
    && Granted(l, After(l, map[], es[..k], true), es[k..], true, ip) as real + 1.0 > l.max + Drip(l, now - from)
  }

  /** The room left in the window from event k on. */
  function Room(l: Limits, clients: Clients, es: seq<Event>, ip: string, k: nat, now: real): real
    requires k < |es|
  {
    l.max + Drip(l, now - es[k].at) - Granted(l, After(l, clients, es[..k], true), es[k..], true, ip) as real
  }

  /** One event takes exactly what it grants. */
  lemma StepTakes(l: Limits, clients: Clients, e: Event, ip: string, now: real)
    requires l.rate >= 0.0 && Generous(l) && Sane(l, clients, now) && now <= e.at
    ensures var (after, answer) := Step(l, clients, e, true);
      Available(l, after, ip, e.at)
        == Available(l, clients, ip, e.at) - if answer && e.Request? && e.ip == ip then 1.0 else 0.0
  {
    hide Drip;
    forall c | c in clients && Stale(l, clients[c], e.at) ensures Refilled(l, clients[c], e.at) == l.max {
      StaleIsFull(l, clients[c], e.at);
    }
    forall c | c in clients ensures Refilled(l, clients[c], e.at) <= l.max {
    }
    match e {
      case Request(who, at) => JustSeen(l, Take(l, clients, who, at).0[who], at);
      case Janitor(_) =>
    }
    hide Refilled;
  }

  /** What trickles in is all there is to gain, up to a full bucket. */
  lemma AvailableLater(l: Limits, clients: Clients, ip: string, now: real, later: real)
    requires l.rate >= 0.0 && Sane(l, clients, now) && now <= later
    ensures Available(l, clients, ip, later) == l.max
      || Available(l, clients, ip, later) == Available(l, clients, ip, now) + Drip(l, later - now)
  {
    hide Drip;
    DripAdds(l, later - now, 0.0);
    if ip in clients {
      RefillGrows(l, clients[ip], now, later);
      DripAdds(l, now - clients[ip].lastSeen, later - now);
      assert (now - clients[ip].lastSeen) + (later - now) == later - clients[ip].lastSeen;
    }
  }

  /** What a client can draw on is all it had and gained less what it was granted, or the room left in some window. */
  lemma {:induction false} TightestWindow(l: Limits, clients: Clients, es: seq<Event>, ip: string,
                                          start: real, now: real)
    returns (k: nat)
    requires l.rate >= 0.0 && Generous(l) && Sane(l, clients, start) && Until(es, start, now)
    ensures var a := Available(l, After(l, clients, es, true), ip, now);
      || (k < |es| && a == Room(l, clients, es, ip, k, now))
      || (k == |es| && a == l.max)
      || (k == |es| + 1 && a == Available(l, clients, ip, start) + Drip(l, now - start)
                                  - Granted(l, clients, es, true, ip) as real)
    decreases |es|
  {
    hide Drip, Step, Available;
    if |es| == 0 {
      AvailableLater(l, clients, ip, start, now);
      k := if Available(l, clients, ip, now) == l.max then 0 else 1;
    } else {
      var t, after := es[0].at, Step(l, clients, es[0], true).0;
      StepDraws(l, clients, es[0], ip, start);
      StepTakes(l, clients, es[0], ip, start);
      AvailableLater(l, clients, ip, start, t);
      UntilOrder(es[1..], t, now);
      var j := TightestWindow(l, after, es[1..], ip, t, now);
      DripSplits(l, start, t, now);
      if j < |es| - 1 {
        assert es[..j + 1][1..] == es[1..][..j] && es[j + 1..] == es[1..][j..];
        k := j + 1;
      } else if j == |es| - 1 {
        k := |es|;
      } else if Available(l, clients, ip, t) == l.max {
        assert es[..0] == [] && es[0..] == es;
        k := 0;
      } else {
        k := |es| + 1;
      }
    }
  }

  lemma {:induction false} UntilSplits(es: seq<Event>, k: nat, begin: real, now: real)
    requires k < |es| && Until(es, begin, now)
    ensures Until(es[..k], begin, es[k].at) && Until(es[k..], es[k].at, now)
    decreases k
  {
    if k == 0 {
      assert es[..0] == [] && es[0..] == es;
    } else {
      UntilSplits(es[1..], k - 1, es[0].at, now);
      assert es[..k][1..] == es[1..][..k - 1] && es[1..][k - 1..] == es[k..];
    }
  }

  /**
   * A request is refused exactly when some stretch of time up to now has no room for it. So the limiter never lets
   * more through than its bound, never refuses what the bound would allow, and a refused request costs nothing.
   */
  lemma RefusedIff(l: Limits, es: seq<Event>, ip: string, begin: real, now: real)
    requires l.rate >= 0.0 && Generous(l) && Until(es, begin, now)
    ensures !Step(l, After(l, map[], es, true), Request(ip, now), true).1
      <==> exists k, from :: NoRoom(l, es, ip, k, begin, from, now)
  {
    hide Drip, Until, Granted;
    var c := After(l, map[], es, true);
    assert !Step(l, c, Request(ip, now), true).1 <==> Available(l, c, ip, now) < 1.0;
    hide Step, Available, After;
    if Available(l, c, ip, now) < 1.0 {
      var k := TightestWindow(l, map[], es, ip, begin, now);
      if k < |es| {
        UntilSplits(es, k, begin, now);
        assert NoRoom(l, es, ip, k, begin, es[k].at, now);
      } else {
        NewClient(l, ip, begin);
        NothingYet(l, begin);
        assert es[..0] == [] && es[0..] == es;
        assert NoRoom(l, es, ip, 0, begin, begin, now);
      }
    }
    forall k, from | NoRoom(l, es, ip, k, begin, from, now) ensures Available(l, c, ip, now) < 1.0 {
      WindowLeaves(l, es, ip, k, begin, from, now);
    }
  }

  lemma NothingYet(l: Limits, now: real)
    ensures Until([], now, now) && After(l, map[], [], true) == map[]
  {
  }

  lemma NewClient(l: Limits, ip: string, now: real)
    ensures Available(l, map[], ip, now) == l.max
  {
  }

  /** What can be drawn on now fits into every window along with what it granted. */
  lemma WindowLeaves(l: Limits, es: seq<Event>, ip: string, k: nat, begin: real, from: real, now: real)
    requires l.rate >= 0.0 && Generous(l) && k <= |es| && Until(es[..k], begin, from) && Until(es[k..], from, now)
    ensures Granted(l, After(l, map[], es[..k], true), es[k..], true, ip) as real
      + Available(l, After(l, map[], es, true), ip, now) <= l.max + Drip(l, now - from)
  {
    hide Drip, Until, Granted, After, Available;
    var mid := After(l, map[], es[..k], true);
    Joined(l, map[], es[..k], es[k..], begin, from, now);
    assert es[..k] + es[k..] == es;
    RunStaysSane(l, map[], es[..k], begin, from);
    GrantedWithin(l, mid, es[k..], ip, from, now);
    AvailableInRange(l, mid, ip, from);
  }

  // ---- who is remembered --------------------------------------------------------------------------

  /** The client was heard of, allowed or refused, within the time to live. */
  predicate Recent(l: Limits, es: seq<Event>, ip: string, now: real) {
    exists k :: 0 <= k < |es| && es[k].Request? && es[k].ip == ip && now - es[k].at <= l.ttl
  }

  predicate Current(l: Limits, clients: Clients, ip: string, now: real) {
    ip in clients && now - clients[ip].lastSeen <= l.ttl
  }

  lemma {:induction false} SeenSince(l: Limits, clients: Clients, es: seq<Event>, ip: string, start: real, now: real)
    requires Until(es, start, now) && (ip in clients ==> clients[ip].lastSeen <= start)
    ensures Current(l, After(l, clients, es, true), ip, now)
      <==> Recent(l, es, ip, now) || Current(l, clients, ip, now)
    decreases |es|
  {
    hide Refilled;
    if |es| > 0 {
      var t, after, rest := es[0].at, Step(l, clients, es[0], true).0, es[1..];
      UntilOrder(rest, t, now);
      SeenSince(l, after, rest, ip, t, now);
      assert forall k :: 0 <= k < |rest| ==> rest[k] == es[k + 1];
      if Recent(l, es, ip, now) {
        var k :| 0 <= k < |es| && es[k].Request? && es[k].ip == ip && now - es[k].at <= l.ttl;
        if k > 0 {
          assert rest[k - 1] == es[k];
        }
      }
      if Recent(l, rest, ip, now) {
        var k :| 0 <= k < |rest| && rest[k].Request? && rest[k].ip == ip && now - rest[k].at <= l.ttl;
        assert es[k + 1] == rest[k];
      }
    }
  }

  /** A sweep leaves exactly the clients that asked within the time to live, whatever they were answered. */
  lemma RememberedIff(l: Limits, es: seq<Event>, ip: string, begin: real, now: real)
    requires Until(es, begin, now)
    ensures ip in Swept(l, After(l, map[], es, true), now) <==> Recent(l, es, ip, now)
  {
    hide Recent, After;
    SeenSince(l, map[], es, ip, begin, now);
  }
}
