/**
 * Multiplayer Elo ratings (pkg/rating/elo.go) over the reals. The power of ten is any function that is
 * positive and turns a change of sign into an inverse.
 */
module Elo {
  import opened Basics

  const DEFAULT_ELO := 1500.0
  const BASE_K := 32.0
  const EXPERIENCED_K := 16.0
  const EXPERIENCED_MATCHES := 30

  datatype Participant = Participant(id: string, elo: real, matches: int)

  datatype Rating = Rating(id: string, oldElo: real, newElo: real, delta: real, won: bool, matches: int)

  type Field = map<string, Participant>

  type Power = real -> real

  ghost predicate IsPower(p: Power) {
    (forall x :: p(x) > 0.0) && forall x :: p(x) * p(-x) == 1.0
  }

  // ---- sums over sets ---------------------------------------------------------------------------

  ghost function Sum(s: set<string>, f: string -> real): real
    decreases |s|
  {
    if s == {} then 0.0
    else
      var x :| x in s;
      f(x) + Sum(s - {x}, f)
  }

  /** Whichever element is taken first. */
  lemma {:induction false} SumWithout(s: set<string>, f: string -> real, x: string)
    requires x in s
    ensures Sum(s, f) == f(x) + Sum(s - {x}, f)
    decreases |s|
  {
    var y :| y in s && Sum(s, f) == f(y) + Sum(s - {y}, f);
    if x != y {
      SumWithout(s - {y}, f, x);
      SumWithout(s - {x}, f, y);
      assert s - {y} - {x} == s - {x} - {y};
    }
  }

  lemma {:induction false} SumSame(s: set<string>, f: string -> real, g: string -> real)
    requires forall x :: x in s ==> f(x) == g(x)
    ensures Sum(s, f) == Sum(s, g)
    decreases |s|
  {
    if s != {} {
      var x :| x in s;
      SumWithout(s, f, x);
      SumWithout(s, g, x);
      SumSame(s - {x}, f, g);
    }
  }

  lemma {:induction false} SumAdds(s: set<string>, f: string -> real, g: string -> real, h: string -> real)
    requires forall x :: x in s ==> h(x) == f(x) + g(x)
    ensures Sum(s, h) == Sum(s, f) + Sum(s, g)
    decreases |s|
  {
    if s != {} {
      var x :| x in s;
      SumWithout(s, f, x);
      SumWithout(s, g, x);
      SumWithout(s, h, x);
      SumAdds(s - {x}, f, g, h);
    }
  }

  lemma {:induction false} SumConstant(s: set<string>, f: string -> real, c: real)
    requires forall x :: x in s ==> f(x) == c
    ensures Sum(s, f) == |s| as real * c
    decreases |s|
  {
    if s != {} {
      var x :| x in s;
      SumWithout(s, f, x);
      SumConstant(s - {x}, f, c);
      assert |s - {x}| == |s| - 1;
    }
  }

  function Times(c: real, x: real): real {
    c * x
  }

  lemma Distribute(c: real, x: real, y: real)
    ensures Times(c, x + y) == Times(c, x) + Times(c, y)
    ensures Times(c, 0.0) == 0.0
  {
  }

  lemma {:induction false} SumScales(s: set<string>, f: string -> real, g: string -> real, c: real)
    requires forall x :: x in s ==> g(x) == Times(c, f(x))
    ensures Sum(s, g) == Times(c, Sum(s, f))
    decreases |s|
  {
    hide Times;
    if s == {} {
      Distribute(c, 0.0, 0.0);
    } else {
      var x :| x in s;
      SumWithout(s, f, x);
      SumWithout(s, g, x);
      SumScales(s - {x}, f, g, c);
      Distribute(c, f(x), Sum(s - {x}, f));
    }
  }

  /** One more element. */
  lemma SumWith(s: set<string>, f: string -> real, x: string)
    requires x !in s
    ensures Sum(s + {x}, f) == Sum(s, f) + f(x)
  {
    SumWithout(s + {x}, f, x);
    assert s + {x} - {x} == s;
  }

  lemma {:induction false} SumBetween(s: set<string>, f: string -> real)
    requires s != {} && forall x :: x in s ==> 0.0 < f(x) < 1.0
    ensures 0.0 < Sum(s, f) < |s| as real
    decreases |s|
  {
    var x :| x in s;
    SumWithout(s, f, x);
    assert |s - {x}| == |s| - 1;
    if s - {x} != {} {
      SumBetween(s - {x}, f);
    }
  }

  // ---- the formulas -----------------------------------------------------------------------------

  function KFactor(matches: int): (k: real)
    ensures k > 0.0
  {
    if matches >= EXPERIENCED_MATCHES then EXPERIENCED_K else BASE_K
  }

  function EloOf(field: Field, id: string): real {
    if id in field then field[id].elo else 0.0
  }

  /** The score expected against an opponent rated higher by the difference. */
  function Chance(p: Power, difference: real): real {
    var e := p(difference / 400.0);
    if 1.0 + e == 0.0 then 0.0 else 1.0 / (1.0 + e)
  }

  /** What one player is expected to score against another. */
  function Against(field: Field, p: Power, self: string, other: string): real {
    Chance(p, EloOf(field, other) - EloOf(field, self))
  }

  function Opposition(field: Field, p: Power, self: string): string -> real {
    other => Against(field, p, self, other)
  }

  /** The average over the opponents; one half for a player alone. */
  ghost function Expected(field: Field, p: Power, self: string): real {
    if |field| <= 1 then 0.5
    else Sum(field.Keys - {self}, Opposition(field, p, self)) / (|field| - 1) as real
  }

  ghost function Delta(field: Field, p: Power, winner: string, id: string): real
    requires id in field
  {
    Times(KFactor(field[id].matches), (if id == winner then 1.0 else 0.0) - Expected(field, p, id))
  }

  ghost function RatingOf(field: Field, p: Power, winner: string, id: string): Rating
    requires id in field
  {
    var d := Delta(field, p, winner, id);
    Rating(id, field[id].elo, field[id].elo + d, d, id == winner, field[id].matches + 1)
  }

  /** Named participants by name, the last of a name counting; a rating of zero or less starts afresh. */
  function FieldOf(participants: seq<Participant>): Field {
    if |participants| == 0 then map[]
    else
      var before := FieldOf(participants[..|participants| - 1]);
      var last := participants[|participants| - 1];
      if last.id == "" then before
      else before[last.id := if last.elo <= 0.0 then last.(elo := DEFAULT_ELO) else last]
  }

  // ---- the computation --------------------------------------------------------------------------

  method ExpectedScore(p: Power, rating: real, field: Field, self: string) returns (score: real)
    requires IsPower(p) && self in field && rating == field[self].elo
    ensures score == Expected(field, p, self)
  {
    hide IsPower, Sum, Opposition, Chance, Expected;
    if |field| <= 1 {
      ExpectedIs(field, p, self);
      return 0.5;
    }
    var total, opponents := 0.0, 0;
    var todo := field.Keys;
    ghost var met: set<string> := {};
    SumNone(Opposition(field, p, self));
    while todo != {}
      invariant forall x :: x in met <==> x in field && x !in todo && x != self
      invariant todo <= field.Keys
      invariant opponents == |met| && total == Sum(met, Opposition(field, p, self))
      decreases |todo|
    {
      var id :| id in todo;
      todo := todo - {id};
      if id == self {
        continue;
      }
      AgainstIs(field, p, self, id);
      SumWith(met, Opposition(field, p, self), id);
      total := total + Chance(p, field[id].elo - rating);
      opponents := opponents + 1;
      met := met + {id};
    }
    assert met == field.Keys - {self};
    ExpectedIs(field, p, self);
    score := total / opponents as real;
  }

  lemma ExpectedIs(field: Field, p: Power, self: string)
    requires self in field
    ensures |field.Keys - {self}| == |field| - 1
    ensures Expected(field, p, self) ==
      if |field| <= 1 then 0.5 else Sum(field.Keys - {self}, Opposition(field, p, self)) / (|field| - 1) as real
  {
  }

  lemma AgainstIs(field: Field, p: Power, self: string, other: string)
    requires IsPower(p) && self in field && other in field
    ensures Opposition(field, p, self)(other) == Chance(p, field[other].elo - field[self].elo)
  {
  }

  lemma SumNone(f: string -> real)
    ensures Sum({}, f) == 0.0
  {
  }

  method GatherField(participants: seq<Participant>) returns (byId: Field)
    ensures byId == FieldOf(participants)
  {
    byId := map[];
    for i := 0 to |participants|
      invariant byId == FieldOf(participants[..i])
    {
      assert participants[..i + 1][..i] == participants[..i];
      var player := participants[i];
      if player.id == "" {
        continue;
      }
      if player.elo <= 0.0 {
        player := player.(elo := DEFAULT_ELO);
      }
      byId := byId[player.id := player];
    }
    assert participants[..|participants|] == participants;
  }

  /** One result for each player of the field, in any order; nothing without a winner's name or a field. */
  method ComputeMatch(p: Power, participants: seq<Participant>, winner: string) returns (results: Option<seq<Rating>>)
    requires IsPower(p)
    ensures var field := FieldOf(participants);
      && (results.Some? <==> winner != "" && |field| > 0)
      && (results.Some? ==> Lists(results.value, field, field.Keys, p, winner))
  {
    hide IsPower, FieldOf, Lists, Expected;
    if |participants| == 0 || winner == "" {
      NoField(participants);
      return None;
    }
    var byId := GatherField(participants);
    if |byId| == 0 {
      return None;
    }
    var out: seq<Rating> := [];
    var todo := byId.Keys;
    ghost var done: set<string> := {};
    ListsNone(byId, p, winner);
    while todo != {}
      invariant todo <= byId.Keys && done == byId.Keys - todo
      invariant Lists(out, byId, done, p, winner)
      decreases |todo|
    {
      var id :| id in todo;
      var player := byId[id];
      var actual := if id == winner then 1.0 else 0.0;
      var expected := ExpectedScore(p, player.elo, byId, id);
      var k := KFactor(player.matches);
      var delta := k * (actual - expected);
      ListsOneMore(out, byId, done, p, winner, id);
      assert delta == Delta(byId, p, winner, id);
      out := out + [Rating(id, player.elo, player.elo + delta, delta, id == winner, player.matches + 1)];
      done := done + {id};
      todo := todo - {id};
    }
    assert done == byId.Keys;
    results := Some(out);
  }

  lemma NoField(participants: seq<Participant>)
    ensures |participants| == 0 ==> |FieldOf(participants)| == 0
  {
  }

  lemma ListsNone(field: Field, p: Power, winner: string)
    ensures Lists([], field, {}, p, winner)
  {
  }

  /** The list gives each player of the set one result, the right one. */
  ghost predicate Lists(out: seq<Rating>, field: Field, ids: set<string>, p: Power, winner: string) {
    && ids <= field.Keys && |out| == |ids|
    && (forall i :: 0 <= i < |out| ==> out[i].id in ids && out[i] == RatingOf(field, p, winner, out[i].id))
    && (forall i, j :: 0 <= i < j < |out| ==> out[i].id != out[j].id)
  }

  lemma ListsOneMore(out: seq<Rating>, field: Field, ids: set<string>, p: Power, winner: string, id: string)
    requires Lists(out, field, ids, p, winner) && id in field && id !in ids
    ensures Lists(out + [RatingOf(field, p, winner, id)], field, ids + {id}, p, winner)
  {
    hide RatingOf;
    assert RatingOf(field, p, winner, id).id == id by {
      RatingNames(field, p, winner, id);
    }
  }

  lemma RatingNames(field: Field, p: Power, winner: string, id: string)
    requires id in field
    ensures RatingOf(field, p, winner, id).id == id
    ensures RatingOf(field, p, winner, id).delta == Delta(field, p, winner, id)
  {
  }

  // ---- what the formulas promise ----------------------------------------------------------------

  /** Two players' expectations against each other are fractions that make up a whole. */
  lemma AgainstEachOther(field: Field, p: Power, a: string, b: string)
    requires IsPower(p)
    ensures 0.0 < Against(field, p, a, b) < 1.0
    ensures Against(field, p, a, b) + Against(field, p, b, a) == 1.0
  {
    var x := (EloOf(field, b) - EloOf(field, a)) / 400.0;
    var e, f := p(x), p(-x);
    assert (EloOf(field, a) - EloOf(field, b)) / 400.0 == -x;
    assert e * f == 1.0;
    InversesAdd(e, f);
  }

  lemma InversesAdd(e: real, f: real)
    requires e > 0.0 && f > 0.0 && e * f == 1.0
    ensures 0.0 < 1.0 / (1.0 + e) < 1.0
    ensures 1.0 / (1.0 + e) + 1.0 / (1.0 + f) == 1.0
  {
    var a := 1.0 / (1.0 + e);
    assert a * (1.0 + e) == 1.0;
    assert (a * e) * (1.0 + f) == a * e + a * (e * f) == 1.0;
    assert 1.0 / (1.0 + f) == a * e;
  }

  // ---- drift ------------------------------------------------------------------------------------

  /** Everyone's total expectation against a set of others. */
  ghost function Hopes(field: Field, p: Power, others: set<string>): string -> real {
    self => Sum(others - {self}, Opposition(field, p, self))
  }

  ghost function Facing(field: Field, p: Power, other: string): string -> real {
    self => Against(field, p, self, other)
  }

  /** Twice the number of pairs among m. */
  function PairsTwice(m: real): real {
    m * (m - 1.0)
  }

  lemma OneMoreInPairs(m: real)
    ensures PairsTwice(m + 1.0) == PairsTwice(m) + 2.0 * m
    ensures PairsTwice(0.0) == 0.0
  {
  }

  /** In a group all expectations add up to one for each pair. */
  lemma {:induction false} HopesAddUp(field: Field, p: Power, group: set<string>)
    requires IsPower(p)
    ensures 2.0 * Sum(group, Hopes(field, p, group)) == PairsTwice(|group| as real)
    decreases |group|
  {
    hide IsPower, Sum, PairsTwice, Hopes, Facing, Opposition;
    if group == {} {
      SumNone(Hopes(field, p, group));
      OneMoreInPairs(0.0);
    } else {
      var x :| x in group;
      var rest := group - {x};
      assert group == rest + {x} && |rest| as real + 1.0 == |group| as real;
      HopesAddUp(field, p, rest);
      SumWithout(group, Hopes(field, p, group), x);
      forall self | self in rest
        ensures Hopes(field, p, group)(self) == Hopes(field, p, rest)(self) + Facing(field, p, x)(self)
      {
        OneMoreToFace(field, p, rest, x, self);
      }
      SumAdds(rest, Hopes(field, p, rest), Facing(field, p, x), Hopes(field, p, group));
      HopesOf(field, p, rest, x);
      PairsWith(field, p, x, rest);
      OneMoreInPairs(|rest| as real);
    }
  }

  lemma HopesOf(field: Field, p: Power, rest: set<string>, x: string)
    requires x !in rest
    ensures Hopes(field, p, rest + {x})(x) == Sum(rest, Opposition(field, p, x))
  {
    assert rest + {x} - {x} == rest;
  }

  lemma OneMoreToFace(field: Field, p: Power, rest: set<string>, x: string, self: string)
    requires x !in rest && self in rest
    ensures Hopes(field, p, rest + {x})(self) == Hopes(field, p, rest)(self) + Facing(field, p, x)(self)
  {
    assert rest + {x} - {self} == rest - {self} + {x};
    SumWith(rest - {self}, Opposition(field, p, self), x);
  }

  /** What x expects of the others and they of x: one for each of them. */
  lemma PairsWith(field: Field, p: Power, x: string, rest: set<string>)
    requires IsPower(p) && x !in rest
    ensures Sum(rest, Opposition(field, p, x)) + Sum(rest, Facing(field, p, x)) == |rest| as real
  {
    hide IsPower, Against, Sum;
    var both := (other: string) => 1.0;
    forall other ensures both(other) == Opposition(field, p, x)(other) + Facing(field, p, x)(other) {
      AgainstEachOther(field, p, x, other);
    }
    hide Opposition, Facing;
    SumAdds(rest, Opposition(field, p, x), Facing(field, p, x), both);
    SumConstant(rest, both, 1.0);
  }

  ghost function Expectations(field: Field, p: Power): string -> real {
    self => Expected(field, p, self)
  }

  /** The expectations of a whole field add up to half its size. */
  lemma ExpectationsAddUp(field: Field, p: Power)
    requires IsPower(p) && |field| > 0
    ensures Sum(field.Keys, Expectations(field, p)) == |field| as real / 2.0
  {
    hide IsPower, Sum, Opposition, Times, PairsTwice;
    var n := |field| as real;
    if |field| == 1 {
      SumConstant(field.Keys, Expectations(field, p), 0.5);
    } else {
      HopesAddUp(field, p, field.Keys);
      var c := 1.0 / (n - 1.0);
      forall self | self in field.Keys
        ensures Expectations(field, p)(self) == Times(c, Hopes(field, p, field.Keys)(self))
      {
        Quotient(Hopes(field, p, field.Keys)(self), n - 1.0);
      }
      SumScales(field.Keys, Hopes(field, p, field.Keys), Expectations(field, p), c);
      HalfOf(Sum(field.Keys, Hopes(field, p, field.Keys)), n);
    }
  }

  lemma Quotient(x: real, m: real)
    requires m != 0.0
    ensures x / m == Times(1.0 / m, x)
  {
  }

  lemma HalfOf(s: real, n: real)
    requires 2.0 * s == PairsTwice(n) && n - 1.0 > 0.0
    ensures Times(1.0 / (n - 1.0), s) == n / 2.0
  {
    assert s == n / 2.0 * (n - 1.0);
    assert 1.0 / (n - 1.0) * (n - 1.0) == 1.0;
  }

  ghost function Changes(field: Field, p: Power, winner: string): string -> real {
    id => if id in field then Delta(field, p, winner, id) else 0.0
  }

  ghost function Wins(winner: string): string -> real {
    id => if id == winner then 1.0 else 0.0
  }

  lemma OneWinner(ids: set<string>, winner: string)
    ensures Sum(ids, Wins(winner)) == if winner in ids then 1.0 else 0.0
  {
    if winner in ids {
      SumWithout(ids, Wins(winner), winner);
      SumConstant(ids - {winner}, Wins(winner), 0.0);
    } else {
      SumConstant(ids, Wins(winner), 0.0);
    }
  }

  /**
   * With one factor k for all, the changes of a match with a winner in the field add up to k * (1 - n / 2):
   * nothing for two players, a loss of rating for more.
   */
  lemma DriftIsExact(field: Field, p: Power, winner: string, k: real)
    requires IsPower(p) && winner in field
    requires forall id :: id in field ==> KFactor(field[id].matches) == k
    ensures Sum(field.Keys, Changes(field, p, winner)) == k * (1.0 - |field| as real / 2.0)
  {
    hide IsPower, Sum, Expected, KFactor, Times;
    var ids := field.Keys;
    var gain := (id: string) => Wins(winner)(id) - Expected(field, p, id);
    SumAdds(ids, gain, Expectations(field, p), Wins(winner));
    SumScales(ids, gain, Changes(field, p, winner), k);
    OneWinner(ids, winner);
    ExpectationsAddUp(field, p);
    TimesIs(k, 1.0 - |field| as real / 2.0);
  }

  lemma TimesIs(c: real, x: real)
    ensures Times(c, x) == c * x
  {
  }

  /** Everyone's expectation is a proper fraction. */
  lemma ExpectedIsFraction(field: Field, p: Power, id: string)
    requires IsPower(p) && id in field
    ensures 0.0 < Expected(field, p, id) < 1.0
  {
    hide IsPower, Sum, Against;
    if |field| > 1 {
      var others := field.Keys - {id};
      assert |others| == |field| - 1;
      forall x | x in others ensures 0.0 < Opposition(field, p, id)(x) < 1.0 {
        AgainstEachOther(field, p, id, x);
      }
      SumBetween(others, Opposition(field, p, id));
      ProperFraction(Sum(others, Opposition(field, p, id)), |others| as real);
    }
  }

  lemma ProperFraction(s: real, m: real)
    requires 0.0 < s < m
    ensures 0.0 < s / m < 1.0
  {
    hide Times;
    var r := Ratio(s, m);
    Signs(r, m);
    Signs(1.0 - r, m);
    Complement(r, m);
  }

  function Ratio(s: real, m: real): (r: real)
    requires m != 0.0
    ensures r == s / m && Times(r, m) == s
  {
    s / m
  }

  lemma Complement(r: real, m: real)
    ensures Times(1.0 - r, m) == m - Times(r, m)
  {
  }

  /** A product with a positive number has the sign of the other factor. */
  lemma Signs(x: real, m: real)
    requires m > 0.0
    ensures Times(x, m) > 0.0 <==> x > 0.0
  {
    if x > 0.0 {
      Positive(x, m);
    } else if x < 0.0 {
      Positive(-x, m);
    }
  }

  /** Whatever the factors, a winner gains less than the factor and a loser loses less than it. */
  lemma ChangesAreBounded(field: Field, p: Power, winner: string, id: string)
    requires IsPower(p) && id in field
    ensures var k, d := KFactor(field[id].matches), Delta(field, p, winner, id);
      if id == winner then 0.0 < d < k else -k < d < 0.0
  {
    hide IsPower, Expected, KFactor, Times;
    ExpectedIsFraction(field, p, id);
    Scaled(KFactor(field[id].matches), Expected(field, p, id));
  }

  lemma Scaled(k: real, e: real)
    requires k > 0.0 && 0.0 < e < 1.0
    ensures 0.0 < Times(k, 1.0 - e) < k && -k < Times(k, 0.0 - e) < 0.0
  {
    Positive(k, e);
    Positive(k, 1.0 - e);
    assert Times(k, 1.0 - e) == k - k * e;
    assert Times(k, 0.0 - e) == -(k * e);
  }

  lemma Positive(x: real, y: real)
    requires x > 0.0 && y > 0.0
    ensures x * y > 0.0
  {
  }

  function TotalDelta(out: seq<Rating>): real {
    if |out| == 0 then 0.0 else TotalDelta(out[..|out| - 1]) + out[|out| - 1].delta
  }

  /** A list of results adds up to the changes of the players listed. */
  lemma {:induction false} ListedChanges(out: seq<Rating>, field: Field, ids: set<string>, p: Power, winner: string)
    requires Lists(out, field, ids, p, winner)
    ensures TotalDelta(out) == Sum(ids, Changes(field, p, winner))
    decreases |out|
  {
    hide Expected, KFactor;
    if |out| == 0 {
      assert ids == {};
    } else {
      var last := out[|out| - 1];
      var before := out[..|out| - 1];
      assert |ids - {last.id}| == |ids| - 1;
      assert forall i :: 0 <= i < |before| ==> before[i] == out[i];
      ListedChanges(before, field, ids - {last.id}, p, winner);
      SumWithout(ids, Changes(field, p, winner), last.id);
      RatingNames(field, p, winner, last.id);
    }
  }

  /** What a match with two or more results of equal factor hands out in all. */
  lemma ResultsDriftExactly(out: seq<Rating>, field: Field, p: Power, winner: string, k: real)
    requires IsPower(p) && winner in field && Lists(out, field, field.Keys, p, winner)
    requires forall id :: id in field ==> KFactor(field[id].matches) == k
    ensures TotalDelta(out) == k * (1.0 - |out| as real / 2.0)
  {
    hide IsPower, Sum, KFactor, RatingOf;
    ListedChanges(out, field, field.Keys, p, winner);
    DriftIsExact(field, p, winner, k);
  }

  // ---- who is expected to win ---------------------------------------------------------------------

  /** A power that grows with its argument, as ten's does. */
  ghost predicate Growing(p: Power) {
    forall x, y :: x <= y ==> p(x) <= p(y)
  }

  lemma PowerOfNothing(p: Power)
    requires IsPower(p)
    ensures p(0.0) == 1.0
  {
    assert p(0.0) * p(-0.0) == 1.0;
    SquareIsOne(p(0.0));
  }

  lemma SquareIsOne(x: real)
    requires x > 0.0 && x * x == 1.0
    ensures x == 1.0
  {
    if x > 1.0 {
      Positive(x - 1.0, x);
    } else if x < 1.0 {
      Positive(1.0 - x, x);
    }
  }

  /** The smaller the lead to make up, the better the chance; none to make up is one half. */
  lemma ChanceFalls(p: Power, d: real, e: real)
    requires IsPower(p) && Growing(p) && d <= e
    ensures Chance(p, d) >= Chance(p, e)
    ensures Chance(p, 0.0) == 0.5
  {
    PowerOfNothing(p);
    assert 0.0 / 400.0 == 0.0;
    Hundredths(d, e);
    Reciprocals(1.0 + p(d / 400.0), 1.0 + p(e / 400.0));
  }

  lemma Hundredths(d: real, e: real)
    requires d <= e
    ensures d / 400.0 <= e / 400.0
  {
  }

  lemma Reciprocals(x: real, y: real)
    requires 0.0 < x <= y
    ensures 1.0 / x >= 1.0 / y
  {
    var r, q := 1.0 / x, 1.0 / y;
    assert r * x == 1.0 && q * y == 1.0 && q > 0.0;
    if r < q {
      Products(r, x, q, y);
    }
  }

  lemma Products(r: real, x: real, q: real, y: real)
    requires r < q && 0.0 < x <= y && q > 0.0
    ensures r * x < q * y
  {
    Positive(q - r, x);
    assert q * x == r * x + (q - r) * x;
    if x < y {
      Positive(q, y - x);
      assert q * y == q * x + q * (y - x);
    }
  }

  lemma {:induction false} SumGrows(s: set<string>, f: string -> real, g: string -> real)
    requires forall x :: x in s ==> f(x) <= g(x)
    ensures Sum(s, f) <= Sum(s, g)
    decreases |s|
  {
    if s != {} {
      var x :| x in s;
      SumWithout(s, f, x);
      SumWithout(s, g, x);
      SumGrows(s - {x}, f, g);
    }
  }

  /** The higher rated of two players expects at least one half, the other at most. */
  lemma FavouriteExpectsHalf(field: Field, p: Power, a: string, b: string)
    requires IsPower(p) && Growing(p) && EloOf(field, a) >= EloOf(field, b)
    ensures Against(field, p, a, b) >= 0.5 >= Against(field, p, b, a)
  {
    hide IsPower, Growing, Chance;
    ChanceFalls(p, EloOf(field, b) - EloOf(field, a), 0.0);
    ChanceFalls(p, 0.0, EloOf(field, a) - EloOf(field, b));
  }

  /** In a field of any size the higher rated player expects at least as much, and so gains less by winning. */
  lemma HigherRatedExpectsMore(field: Field, p: Power, a: string, b: string)
    requires IsPower(p) && Growing(p) && a in field && b in field && field[a].elo >= field[b].elo
    ensures Expected(field, p, a) >= Expected(field, p, b)
    ensures KFactor(field[a].matches) == KFactor(field[b].matches) ==> Delta(field, p, a, a) <= Delta(field, p, b, b)
  {
    hide IsPower, Growing, Chance, Sum, KFactor, Times, Opposition, Against;
    if a != b {
      OppositionGrows(field, p, a, b);
      ExpectedIs(field, p, a);
      ExpectedIs(field, p, b);
      SameDivisor(Sum(field.Keys - {a}, Opposition(field, p, a)), Sum(field.Keys - {b}, Opposition(field, p, b)),
                  |field| - 1);
    }
    TimesGrows(KFactor(field[a].matches), 1.0 - Expected(field, p, a), 1.0 - Expected(field, p, b));
  }

  lemma OppositionGrows(field: Field, p: Power, a: string, b: string)
    requires IsPower(p) && Growing(p) && a in field && b in field && a != b && field[a].elo >= field[b].elo
    ensures Sum(field.Keys - {a}, Opposition(field, p, a)) >= Sum(field.Keys - {b}, Opposition(field, p, b))
  {
    hide IsPower, Growing, Chance, Sum;
    var rest := field.Keys - {a, b};
    assert field.Keys - {a} == rest + {b} && field.Keys - {b} == rest + {a};
    SumWith(rest, Opposition(field, p, a), b);
    SumWith(rest, Opposition(field, p, b), a);
    FavouriteExpectsHalf(field, p, a, b);
    forall c | c in rest ensures Opposition(field, p, b)(c) <= Opposition(field, p, a)(c) {
      ChanceFalls(p, EloOf(field, c) - EloOf(field, a), EloOf(field, c) - EloOf(field, b));
    }
    SumGrows(rest, Opposition(field, p, b), Opposition(field, p, a));
  }

  lemma SameDivisor(x: real, y: real, n: nat)
    requires x >= y && n > 0
    ensures x / n as real >= y / n as real
  {
    var d := n as real;
    assert x / d - y / d == (x - y) / d;
  }

  lemma TimesGrows(k: real, x: real, y: real)
    requires k > 0.0 && x <= y
    ensures Times(k, x) <= Times(k, y)
  {
    if x < y {
      Positive(k, y - x);
      assert k * y == k * x + k * (y - x);
    }
  }

  /** The factor halves once, with the thirtieth match. */
  lemma FactorHalvesOnce(matches: int)
    ensures KFactor(matches + 1) == KFactor(matches) <==> matches != 29
    ensures KFactor(30) * 2.0 == KFactor(29) == 32.0
  {
  }

  /** The chances of the two sides are as one to the power of the difference in units of 400. */
  lemma OddsArePower(p: Power, d: real)
    requires IsPower(p)
    ensures Chance(p, -d) == p(d / 400.0) * Chance(p, d)
    ensures d == 400.0 && p(1.0) == 10.0 ==> Chance(p, d) == 1.0 / 11.0 && Chance(p, -d) == 10.0 / 11.0
  {
    var e, f := p(d / 400.0), p(-d / 400.0);
    assert -d / 400.0 == -(d / 400.0);
    assert e * f == 1.0;
    InversesAdd(e, f);
    var a := 1.0 / (1.0 + e);
    assert a * (1.0 + e) == 1.0;
    assert e * a == 1.0 - a;
  }

  // ---- what becomes of a participant --------------------------------------------------------------

  /** The player is last named in the list at k. */
  predicate LastNamed(ps: seq<Participant>, k: nat) {
    k < |ps| && ps[k].id != "" && forall j :: k < j < |ps| ==> ps[j].id != ps[k].id
  }

  predicate Named(ps: seq<Participant>, id: string) {
    exists k :: 0 <= k < |ps| && ps[k].id == id
  }

  lemma NamedOneMore(ps: seq<Participant>, id: string)
    requires |ps| > 0
    ensures Named(ps, id) <==> Named(ps[..|ps| - 1], id) || ps[|ps| - 1].id == id
  {
    var n := |ps| - 1;
    if k :| 0 <= k < |ps| && ps[k].id == id {
      assert k < n ==> ps[..n][k].id == id;
    }
  }

  /** The field has exactly the players named. */
  lemma {:induction false} FieldIsNamed(ps: seq<Participant>, id: string)
    ensures id in FieldOf(ps) <==> id != "" && Named(ps, id)
  {
    if |ps| > 0 {
      hide Named;
      FieldIsNamed(ps[..|ps| - 1], id);
      NamedOneMore(ps, id);
    } else {
      assert !Named(ps, id);
    }
  }

  /** Each as last listed, with 1500 points for whoever brings none. */
  lemma {:induction false} FieldIsAsListed(ps: seq<Participant>, k: nat)
    requires LastNamed(ps, k)
    ensures ps[k].id in FieldOf(ps)
    ensures FieldOf(ps)[ps[k].id]
      == Participant(ps[k].id, if ps[k].elo > 0.0 then ps[k].elo else 1500.0, ps[k].matches)
  {
    var n := |ps| - 1;
    if k < n {
      FieldIsAsListed(ps[..n], k);
    }
  }

  /**
   * Each player's result starts from the rating listed, or from 1500, counts one match more and moves the rating up
   * for the winner and down for everyone else, by less than 32 points, or 16 from the 30th match on.
   */
  lemma ResultsFollowTheList(ps: seq<Participant>, p: Power, winner: string, k: nat)
    requires IsPower(p) && LastNamed(ps, k)
    ensures ps[k].id in FieldOf(ps)
    ensures var r := RatingOf(FieldOf(ps), p, winner, ps[k].id);
      && r.oldElo == (if ps[k].elo > 0.0 then ps[k].elo else 1500.0)
      && r.matches == ps[k].matches + 1 && r.delta == r.newElo - r.oldElo
      && (r.won <==> ps[k].id == winner)
      && (if r.won then r.oldElo < r.newElo else r.newElo < r.oldElo)
      && -(if ps[k].matches < 30 then 32.0 else 16.0) < r.delta < (if ps[k].matches < 30 then 32.0 else 16.0)
  {
    hide IsPower, Delta;
    FieldIsAsListed(ps, k);
    ChangesAreBounded(FieldOf(ps), p, winner, ps[k].id);
  }
}
