/**
 * Once the boneyard is empty a match ends: with n different players and T tiles in hand, before n * (T + 1)
 * actions have been carried out, however players play, pass and abandon, as long as someone stays. Where a
 * player is listed twice, or tiles are left to draw, passing can go on for ever.
 */
module DominoTermination {
  import opened Basics
  import opened DominoRules
  import opened DominoOutcome

  predicate Waits(h: Hand) {
    !h.abandoned && !h.passed
  }

  predicate SomeoneStays(hands: seq<Hand>) {
    exists i :: 0 <= i < |hands| && !hands[i].abandoned
  }

  /** Every player has the hand of the same position, and one of them is up. */
  predicate Aligned(s: Session) {
    && |s.hands| == |s.players|
    && (forall i :: 0 <= i < |s.hands| ==> s.hands[i].player == s.players[i])
    && IndexOf(s.players, s.turn) < |s.players|
  }

  /** ... and no player is listed twice. */
  predicate Seated(s: Session) {
    Aligned(s) && Distinct(s.hands)
  }

  /** A match under way with nothing left to draw. */
  predicate Dry(s: Session) {
    Seated(s) && s.boneyard == [] && !s.locked && s.status != Completed
  }

  // ---- the table seen from the player who is up ---------------------------------------------------

  function Turned<T>(xs: seq<T>, c: nat): seq<T>
    requires c <= |xs|
  {
    xs[c..] + xs[..c]
  }

  function Around(s: Session): (r: seq<Hand>)
    requires Seated(s)
    ensures |r| == |s.hands|
  {
    Turned(s.hands, IndexOf(s.players, s.turn))
  }

  /** The position after the last waiting hand; 0 when nobody waits. */
  function LastWaiting(r: seq<Hand>): (k: nat)
    ensures k <= |r|
    ensures k > 0 ==> Waits(r[k - 1])
    ensures forall j :: k <= j < |r| ==> !Waits(r[j])
  {
    if |r| == 0 then 0
    else if Waits(r[|r| - 1]) then |r|
    else LastWaiting(r[..|r| - 1])
  }

  lemma LastWaitingIs(r: seq<Hand>, k: nat)
    requires k <= |r| && (k > 0 ==> Waits(r[k - 1])) && forall j :: k <= j < |r| ==> !Waits(r[j])
    ensures LastWaiting(r) == k
  {
  }

  function TileCount(hands: seq<Hand>): nat {
    if |hands| == 0 then 0 else TileCount(hands[..|hands| - 1]) + |hands[|hands| - 1].tiles|
  }

  lemma {:induction false} TileCountUpdate(hands: seq<Hand>, h: nat, hand: Hand)
    requires h < |hands|
    ensures TileCount(hands[h := hand]) == TileCount(hands) - |hands[h].tiles| + |hand.tiles|
  {
    var n := |hands| - 1;
    if h == n {
      assert hands[h := hand][..n] == hands[..n];
    } else {
      assert hands[h := hand][..n] == hands[..n][h := hand];
      TileCountUpdate(hands[..n], h, hand);
    }
  }

  /** Tiles in hand first, then how far round the table the last waiting player sits. */
  function Rank(s: Session): nat
    requires Seated(s)
  {
    |s.players| * TileCount(s.hands) + Max(LastWaiting(Around(s)), 1)
  }

  // ---- one step round the table -------------------------------------------------------------------

  lemma TurnedOnce<T>(xs: seq<T>, c: nat)
    requires c < |xs|
    ensures Turned(xs, (c + 1) % |xs|) == Turned(xs, c)[1..] + [Turned(xs, c)[0]]
  {
    if c + 1 == |xs| {
      assert (c + 1) % |xs| == 0;
    } else {
      assert (c + 1) % |xs| == c + 1;
      assert xs[c..] == [xs[c]] + xs[c + 1..];
      assert xs[..c + 1] == xs[..c] + [xs[c]];
    }
  }

  lemma IndexOfDistinct(s: Session, i: nat)
    requires |s.hands| == |s.players| && Distinct(s.hands) && i < |s.players|
    requires forall i :: 0 <= i < |s.hands| ==> s.hands[i].player == s.players[i]
    ensures IndexOf(s.players, s.players[i]) == i && HandOf(s.hands, s.players[i]) == i
  {
    var k, h := IndexOf(s.players, s.players[i]), HandOf(s.hands, s.players[i]);
    assert k < |s.players| && h < |s.hands|;
    assert s.hands[k].player == s.hands[i].player && s.hands[h].player == s.hands[i].player;
  }

  /** The player who is up moves to the far end. */
  lemma RotateAround(s: Session)
    requires Seated(s)
    ensures Seated(RotateTurn(s)) && Around(RotateTurn(s)) == Around(s)[1..] + [Around(s)[0]]
  {
    hide Distinct, Turned, IndexOf;
    var c := IndexOf(s.players, s.turn);
    var d := (c + 1) % |s.players|;
    IndexOfDistinct(s, d);
    TurnedOnce(s.hands, c);
    assert RotateTurn(s) == s.(turn := s.players[d]);
  }

  lemma TurnHand(s: Session)
    requires Seated(s)
    ensures HandOf(s.hands, s.turn) == IndexOf(s.players, s.turn)
    ensures Around(s)[0] == s.hands[IndexOf(s.players, s.turn)]
  {
    IndexOfDistinct(s, IndexOf(s.players, s.turn));
  }

  /** If nobody waits round the table, nobody waits. */
  lemma NobodyWaits(s: Session)
    requires Seated(s) && LastWaiting(Around(s)) == 0
    ensures forall i :: 0 <= i < |s.hands| ==> !Waits(s.hands[i])
  {
    var c := IndexOf(s.players, s.turn);
    forall i | 0 <= i < |s.hands| ensures !Waits(s.hands[i]) {
      var j := if i >= c then i - c else |s.hands| - c + i;
      assert Around(s)[j] == s.hands[i];
    }
  }

  lemma NobodyWaitsSoAllPassed(s: Session)
    requires Seated(s) && LastWaiting(Around(s)) == 0 && SomeoneStays(s.hands)
    ensures AllPassed(s.hands)
  {
    NobodyWaits(s);
  }

  /** A match that is not over, dry and not deserted, has someone waiting. */
  lemma SomeoneWaits(s: Session)
    requires Seated(s) && s.boneyard == [] && SomeoneStays(s.hands) && Evaluation(s).None?
    ensures LastWaiting(Around(s)) >= 1
  {
    hide ScoresOf, LowestPipPlayer, ActivePlayers;
    if LastWaiting(Around(s)) == 0 {
      NobodyWaitsSoAllPassed(s);
    }
  }

  lemma ShiftWaiting(r: seq<Hand>, h: Hand)
    requires |r| > 0 && !Waits(h)
    ensures LastWaiting(r[1..] + [h]) == if LastWaiting(r) > 0 then LastWaiting(r) - 1 else 0
  {
    hide Waits, LastWaiting;
    var k := if LastWaiting(r) > 0 then LastWaiting(r) - 1 else 0;
    var q := r[1..] + [h];
    assert forall j :: 0 <= j < |r| - 1 ==> q[j] == r[j + 1];
    LastWaitingIs(q, k);
  }

  lemma TurnedHead<T>(xs: seq<T>, c: nat, x: T)
    requires c < |xs|
    ensures Turned(xs[c := x], c) == [x] + Turned(xs, c)[1..]
  {
    assert xs[c := x][c..] == [x] + xs[c + 1..];
    assert xs[c := x][..c] == xs[..c];
  }

  lemma SameNames(hands: seq<Hand>, h: nat, hand: Hand)
    requires Distinct(hands) && h < |hands| && hand.player == hands[h].player
    ensures Distinct(hands[h := hand])
  {
    var hands' := hands[h := hand];
    forall i, j | 0 <= i < j < |hands'| ensures hands'[i].player != hands'[j].player {
      assert hands[i].player != hands[j].player;
    }
  }

  /** Changing the hand of the player who is up changes the head of the table. */
  lemma AroundUpdate(s: Session, hand: Hand)
    requires Seated(s) && hand.player == s.turn
    ensures var s1 := s.(hands := s.hands[IndexOf(s.players, s.turn) := hand]);
      Seated(s1) && Around(s1) == [hand] + Around(s)[1..]
  {
    hide Distinct, Turned, IndexOf;
    var c := IndexOf(s.players, s.turn);
    SameNames(s.hands, c, hand);
    TurnedHead(s.hands, c, hand);
  }

  // ---- what a turn does to the rank ---------------------------------------------------------------

  /** The player who is up gets the hand given, and the next one is up. */
  lemma HandThenRotate(s: Session, hand: Hand)
    requires Seated(s) && hand.player == s.turn
    ensures var s2 := RotateTurn(s.(hands := s.hands[IndexOf(s.players, s.turn) := hand]));
      && Seated(s2) && Around(s2) == Around(s)[1..] + [hand]
      && TileCount(s2.hands) == TileCount(s.hands) - |Around(s)[0].tiles| + |hand.tiles|
  {
    AroundUpdate(s, hand);
    RotateAround(s.(hands := s.hands[IndexOf(s.players, s.turn) := hand]));
    TurnHand(s);
    TileCountUpdate(s.hands, IndexOf(s.players, s.turn), hand);
  }

  lemma PassLowersRank(s: Session, hand: Hand)
    requires Seated(s) && hand.player == s.turn && !Waits(hand) && |hand.tiles| == |Around(s)[0].tiles|
    ensures var s2 := RotateTurn(s.(hands := s.hands[IndexOf(s.players, s.turn) := hand]));
      && Seated(s2)
      && (LastWaiting(Around(s2)) >= 1 ==> Rank(s2) < Rank(s))
      && Rank(s2) <= Rank(s)
  {
    hide RotateTurn, Seated, Around, LastWaiting, Waits, TileCount, IndexOf;
    SeatedFacts(s);
    HandThenRotate(s, hand);
    ShiftWaiting(Around(s), hand);
  }

  lemma SeatedFacts(s: Session)
    requires Seated(s)
    ensures |s.hands| == |s.players| > 0 && IndexOf(s.players, s.turn) < |s.hands|
  {
  }

  lemma PlayLowersRank(s: Session, hand: Hand)
    requires Seated(s) && hand.player == s.turn && |hand.tiles| == |Around(s)[0].tiles| - 1
    ensures var s2 := RotateTurn(s.(hands := s.hands[IndexOf(s.players, s.turn) := hand]));
      Seated(s2) && Rank(s2) < Rank(s)
  {
    hide RotateTurn, Seated, Around, LastWaiting, Waits, TileCount, IndexOf;
    SeatedFacts(s);
    HandThenRotate(s, hand);
    OneTileLess(|s.players|, TileCount(s.hands));
  }

  lemma OneTileLess(n: nat, t: nat)
    requires t > 0
    ensures n * (t - 1) + n == n * t
  {
  }

  /** Only players, hands and turn matter to the rank. */
  lemma RankOnly(s: Session, s': Session)
    requires Seated(s) && s'.players == s.players && s'.hands == s.hands && s'.turn == s.turn
    ensures Seated(s') && Around(s') == Around(s) && Rank(s') == Rank(s)
  {
  }

  lemma RotatesAlike(s: Session, s': Session)
    requires s'.players == s.players && s'.turn == s.turn
    ensures RotateTurn(s').turn == RotateTurn(s).turn
  {
  }

  /** The hand left after playing a tile. */
  lemma PlayedHand(s: Session, a: Action)
    requires Seated(s) && a.Play? && PlayTile(s, a.player, a.tile, a.atLeft).Some?
    ensures a.player == s.turn
    ensures var s1 := PlayTile(s, a.player, a.tile, a.atLeft).value;
      && s1.players == s.players && s1.turn == s.turn && s1.boneyard == s.boneyard
      && s1.locked == s.locked && s1.status == s.status
      && exists hand: Hand :: hand.player == s.turn && |hand.tiles| == |Around(s)[0].tiles| - 1
           && (hand.abandoned <==> Around(s)[0].abandoned)
           && s1.hands == s.hands[IndexOf(s.players, s.turn) := hand]
  {
    hide CanPlay, IndexOf;
    TurnHand(s);
    var s1 := PlayTile(s, a.player, a.tile, a.atLeft).value;
    var hand := s1.hands[IndexOf(s.players, s.turn)];
    assert hand.player == s.turn;
  }

  lemma PlayTurn(s: Session, a: Action)
    requires Dry(s) && a.Play?
    requires var r := ProcessGameTurn(s, a); r.Applied? && r.outcome.None?
    ensures var s' := ProcessGameTurn(s, a).after; Dry(s') && s'.players == s.players && Rank(s') < Rank(s)
  {
    hide Rank, Seated, PlayTile, Around, IndexOf;
    PlayedHand(s, a);
    var s1 := PlayTile(s, a.player, a.tile, a.atLeft).value;
    SeatedFacts(s);
    var hand: Hand :| hand.player == s.turn && |hand.tiles| == |Around(s)[0].tiles| - 1
      && s1.hands == s.hands[IndexOf(s.players, s.turn) := hand];
    PlayLowersRank(s, hand);
    var s' := ProcessGameTurn(s, a).after;
    var s2 := RotateTurn(s.(hands := s1.hands));
    RotatesAlike(s.(hands := s1.hands), s1.(status := s'.status));
    RankOnly(s2, s');
  }

  lemma PassedHand(s: Session, player: string)
    requires Seated(s) && PassTurn(s, player).Some?
    ensures player == s.turn
    ensures PassTurn(s, player).value ==
      RotateTurn(s.(hands := s.hands[IndexOf(s.players, s.turn) := Around(s)[0].(passed := true)]))
    ensures Around(s)[0].player == s.turn
  {
    TurnHand(s);
  }

  lemma PassTurnLowers(s: Session, a: Action)
    requires Dry(s) && a.Pass?
    requires var r := ProcessGameTurn(s, a); r.Applied? && r.outcome.None? && SomeoneStays(r.after.hands)
    ensures var s' := ProcessGameTurn(s, a).after; Dry(s') && s'.players == s.players && Rank(s') < Rank(s)
  {
    hide Rank, Seated, Around, IndexOf, LastWaiting, DominoRules.PassTurn, Evaluation, RotateTurn;
    SeatedFacts(s);
    PassedHand(s, a.player);
    PassLowersRank(s, Around(s)[0].(passed := true));
    var s1 := PassTurn(s, a.player).value;
    var s' := ProcessGameTurn(s, a).after;
    RankOnly(s1, s');
    SomeoneWaits(s');
  }

  /** Whatever the action, carrying it out without ending the match lowers the rank. */
  lemma TurnLowersRank(s: Session, a: Action)
    requires Dry(s)
    requires var r := ProcessGameTurn(s, a); r.Applied? && r.outcome.None? && SomeoneStays(r.after.hands)
    ensures var s' := ProcessGameTurn(s, a).after; Dry(s') && s'.players == s.players && Rank(s') < Rank(s)
  {
    match a {
      case Play(_, _, _) => PlayTurn(s, a);
      case Pass(_) => PassTurnLowers(s, a);
      case DrawOne(_) =>
      case Unsupported =>
    }
  }

  // ---- abandonment --------------------------------------------------------------------------------

  lemma FewerWait(r: seq<Hand>, r': seq<Hand>)
    requires |r| == |r'| && forall j :: 0 <= j < |r| && Waits(r'[j]) ==> Waits(r[j])
    ensures LastWaiting(r') <= LastWaiting(r)
  {
  }

  lemma LeaveOutOfTurn(s: Session, h: nat)
    requires Seated(s) && h < |s.hands|
    ensures var s1 := s.(hands := s.hands[h := s.hands[h].(abandoned := true)]);
      Seated(s1) && Rank(s1) <= Rank(s)
  {
    hide TileCount, IndexOf;
    var hand := s.hands[h].(abandoned := true);
    var s1 := s.(hands := s.hands[h := hand]);
    SameNames(s.hands, h, hand);
    TileCountUpdate(s.hands, h, hand);
    FewerWait(Around(s), Around(s1));
  }

  lemma LeaveInTurn(s: Session)
    requires Seated(s)
    ensures var c := IndexOf(s.players, s.turn);
      var s1 := s.(hands := s.hands[c := s.hands[c].(abandoned := true)]);
      && PassTurn(s1, s.turn).Some?
      && Seated(PassTurn(s1, s.turn).value) && Rank(PassTurn(s1, s.turn).value) <= Rank(s)
  {
    hide TileCount, IndexOf, Rank, LastWaiting, Waits, RotateTurn;
    var c := IndexOf(s.players, s.turn);
    var hand := s.hands[c].(abandoned := true, passed := true);
    var s1 := s.(hands := s.hands[c := s.hands[c].(abandoned := true)]);
    TurnHand(s);
    AroundUpdate(s, s.hands[c].(abandoned := true));
    TurnHand(s1);
    assert s1.hands[c := hand] == s.hands[c := hand];
    LeaverDoesNotWait(hand);
    PassLowersRank(s, hand);
  }

  lemma LeaverDoesNotWait(hand: Hand)
    requires hand.abandoned
    ensures !Waits(hand)
  {
  }

  lemma LeavingKeepsRank(s: Session, player: string)
    requires Dry(s) && HandlePlayerAbandoned(s, player).1.None?
    ensures var s' := HandlePlayerAbandoned(s, player).0; Dry(s') && s'.players == s.players && Rank(s') <= Rank(s)
  {
    hide Rank, Seated, HandOf, IndexOf, DominoRules.PassTurn, Evaluation;
    var h := HandOf(s.hands, player);
    if h < |s.hands| {
      SeatedFacts(s);
      if s.turn == player {
        TurnHand(s);
        LeaveInTurn(s);
      } else {
        LeaveOutOfTurn(s, h);
      }
    }
  }

  // ---- runs ---------------------------------------------------------------------------------------

  datatype Event = Turn(action: Action) | Leave(player: string)

  function Step(s: Session, e: Event): Session {
    match e
    case Turn(a) => ProcessGameTurn(s, a).after
    case Leave(player) => HandlePlayerAbandoned(s, player).0
  }

  /** Every turn is carried out, nothing ends the match, and someone always stays. */
  predicate GoesOn(s: Session, es: seq<Event>)
    decreases |es|
  {
    && SomeoneStays(s.hands)
    && (|es| == 0
        || (&& (match es[0]
                case Turn(a) => ProcessGameTurn(s, a).Applied? && ProcessGameTurn(s, a).outcome.None?
                case Leave(player) => HandlePlayerAbandoned(s, player).1.None?)
            && GoesOn(Step(s, es[0]), es[1..])))
  }

  function Turns(es: seq<Event>): nat {
    if |es| == 0 then 0 else (if es[0].Turn? then 1 else 0) + Turns(es[1..])
  }

  lemma {:induction false} TurnsWithinRank(s: Session, es: seq<Event>)
    requires Dry(s) && GoesOn(s, es)
    ensures Turns(es) < Rank(s)
    decreases |es|
  {
    hide Dry, Rank, ProcessGameTurn, HandlePlayerAbandoned, SomeoneStays;
    if |es| > 0 {
      match es[0] {
        case Turn(a) => TurnLowersRank(s, a);
        case Leave(player) => LeavingKeepsRank(s, player);
      }
      TurnsWithinRank(Step(s, es[0]), es[1..]);
    } else {
      RankIsPositive(s);
    }
  }

  lemma RankIsPositive(s: Session)
    requires Dry(s)
    ensures 0 < Rank(s) <= |s.players| * (TileCount(s.hands) + 1)
  {
    hide TileCount, Around, LastWaiting, IndexOf, Seated;
    SeatedFacts(s);
    OneTileLess(|s.players|, TileCount(s.hands) + 1);
  }

  /** A match that goes on has seen fewer than n * (T + 1) turns. */
  lemma MatchEndsInTime(s: Session, es: seq<Event>)
    requires Dry(s) && GoesOn(s, es)
    ensures Turns(es) < |s.players| * (TileCount(s.hands) + 1)
  {
    hide Dry, Rank, GoesOn;
    TurnsWithinRank(s, es);
    RankIsPositive(s);
  }

  /** And it is never stuck: the player who is up can pass. */
  lemma PassIsCarriedOut(s: Session)
    requires Dry(s)
    ensures ProcessGameTurn(s, Pass(s.turn)).Applied?
  {
    TurnHand(s);
  }

  // ---- matches that can go on for ever ------------------------------------------------------------

  /** Nobody has gone out and at least two are in play. */
  ghost predicate Undecided(hands: seq<Hand>) {
    && SomeoneStays(hands)
    && (forall i :: 0 <= i < |hands| ==> hands[i].abandoned || hands[i].tiles != [])
    && (forall i: nat :: !OnlyActive(hands, i))
  }

  /** Hand j belongs to a player with an earlier hand i, and waits: it is never the one that is up. */
  predicate Eclipsed(hands: seq<Hand>, i: nat, j: nat) {
    i < j < |hands| && hands[i].player == hands[j].player && Waits(hands[j])
  }

  ghost predicate UnderWay(s: Session) {
    Aligned(s) && Undecided(s.hands) && !s.locked && s.status != Completed
  }

  lemma PassedHandsAlike(hands: seq<Hand>, h: nat)
    requires h < |hands| && Undecided(hands)
    ensures Undecided(hands[h := hands[h].(passed := true)])
  {
    var hands' := hands[h := hands[h].(passed := true)];
    assert forall k :: 0 <= k < |hands| ==> hands'[k].abandoned == hands[k].abandoned;
    forall i: nat ensures !OnlyActive(hands', i) {
      assert !OnlyActive(hands, i);
    }
  }

  /** Whoever was up, the next to be up is one of the players. */
  lemma NextIsListed(s: Session)
    requires |s.players| > 0
    ensures IndexOf(s.players, RotateTurn(s).turn) < |s.players|
  {
    var i := IndexOf(s.players, s.turn);
    var d := if i == |s.players| then 0 else (i + 1) % |s.players|;
    assert s.players[d] == RotateTurn(s).turn;
  }

  /** Passing changes one pass flag and the turn. */
  lemma PassingHand(s: Session)
    requires UnderWay(s)
    ensures var h := HandOf(s.hands, s.turn);
      && h < |s.hands| && PassTurn(s, s.turn).Some?
      && PassTurn(s, s.turn).value.hands == s.hands[h := s.hands[h].(passed := true)]
      && UnderWay(PassTurn(s, s.turn).value) && PassTurn(s, s.turn).value.boneyard == s.boneyard
  {
    hide Undecided;
    var h := HandOf(s.hands, s.turn);
    assert s.hands[IndexOf(s.players, s.turn)].player == s.turn;
    PassedHandsAlike(s.hands, h);
    NextIsListed(s.(hands := s.hands[h := s.hands[h].(passed := true)]));
  }

  lemma EclipsedStays(hands: seq<Hand>, i: nat, j: nat, name: string)
    requires Eclipsed(hands, i, j) && HandOf(hands, name) < |hands|
    ensures var h := HandOf(hands, name); Eclipsed(hands[h := hands[h].(passed := true)], i, j)
  {
    assert HandOf(hands, name) != j;
  }

  /** With a tile left to draw, or a hand that never gets its turn, nothing is decided. */
  lemma StaysOpen(s: Session, i: nat, j: nat)
    requires Undecided(s.hands) && (s.boneyard != [] || Eclipsed(s.hands, i, j))
    ensures Evaluation(s).None?
  {
    hide ScoresOf;
    ActiveAlone(s.hands);
    assert Eclipsed(s.hands, i, j) ==> !AllPassed(s.hands);
  }

  lemma PassStaysOpen(s: Session, i: nat, j: nat)
    requires UnderWay(s) && (s.boneyard != [] || Eclipsed(s.hands, i, j))
    ensures var r := ProcessGameTurn(s, Pass(s.turn));
      && r.Applied? && r.outcome.None? && UnderWay(r.after) && r.after.boneyard == s.boneyard
      && (s.boneyard != [] || Eclipsed(r.after.hands, i, j))
  {
    hide Evaluation, DominoRules.PassTurn, HandOf, Undecided, Eclipsed, IndexOf;
    PassingHand(s);
    if s.boneyard == [] {
      EclipsedStays(s.hands, i, j, s.turn);
    }
    var s1 := PassTurn(s, s.turn).value;
    StaysOpen(if s1.status == Waiting then s1.(status := Active) else s1, i, j);
  }

  /** So there are runs of any number of turns. */
  lemma {:induction false} PassingGoesOn(s: Session, i: nat, j: nat, n: nat) returns (es: seq<Event>)
    requires UnderWay(s) && (s.boneyard != [] || Eclipsed(s.hands, i, j))
    ensures GoesOn(s, es) && Turns(es) == n
    decreases n
  {
    hide ProcessGameTurn, Eclipsed, Aligned;
    es := [];
    if n > 0 {
      PassStaysOpen(s, i, j);
      var rest := PassingGoesOn(ProcessGameTurn(s, Pass(s.turn)).after, i, j, n - 1);
      es := [Turn(Pass(s.turn))] + rest;
      assert es[1..] == rest;
    }
  }

  /** However it is played, the match is over before that many turns, unless everybody leaves. */
  ghost predicate EndsWithin(s: Session, bound: nat) {
    forall es | GoesOn(s, es) :: Turns(es) < bound
  }

  /** Every later hand of a player listed before has yet to pass, as after a deal. */
  predicate RepeatsWait(hands: seq<Hand>) {
    forall i, j :: 0 <= i < j < |hands| && hands[i].player == hands[j].player ==> Waits(hands[j])
  }

  /**
   * A match under way ends within n * (T + 1) turns, or within any larger number, exactly when the boneyard
   * is empty and no player is listed twice.
   */
  lemma EndsInTimeIff(s: Session, bound: nat)
    requires UnderWay(s) && RepeatsWait(s.hands)
    requires bound >= |s.players| * (TileCount(s.hands) + 1)
    ensures EndsWithin(s, bound) <==> s.boneyard == [] && Distinct(s.hands)
  {
    hide GoesOn, Aligned, Undecided, TileCount;
    if s.boneyard == [] && Distinct(s.hands) {
      forall es | GoesOn(s, es) ensures Turns(es) < bound {
        MatchEndsInTime(s, es);
      }
    } else {
      var i, j := 0, 0;
      if s.boneyard == [] {
        i, j :| 0 <= i < j < |s.hands| && s.hands[i].player == s.hands[j].player;
      }
      var es := PassingGoesOn(s, i, j, bound);
    }
  }
}
