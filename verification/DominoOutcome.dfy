/** When a match is over and who has won it. */
module DominoOutcome {
  import opened Basics
  import opened DominoRules

  predicate Distinct(hands: seq<Hand>) {
    forall i, j :: 0 <= i < j < |hands| ==> hands[i].player != hands[j].player
  }

  /** No tile in a hand shows negative pips. */
  predicate Fair(hands: seq<Hand>) {
    forall i, k :: 0 <= i < |hands| && 0 <= k < |hands[i].tiles| ==>
      hands[i].tiles[k].left >= 0 && hands[i].tiles[k].right >= 0
  }

  /** Hand i is still in play, and no hand in play holds fewer pips. */
  predicate Lightest(hands: seq<Hand>, i: nat) {
    && i < |hands| && !hands[i].abandoned
    && forall j :: 0 <= j < |hands| && !hands[j].abandoned ==> Pips(hands[i].tiles) <= Pips(hands[j].tiles)
  }

  predicate OnlyActive(hands: seq<Hand>, i: nat) {
    i < |hands| && forall j :: 0 <= j < |hands| ==> (hands[j].abandoned <==> j != i)
  }

  // ---- scores -----------------------------------------------------------------------------------

  lemma {:induction false} PipsNonNegative(tiles: seq<Tile>)
    requires forall k :: 0 <= k < |tiles| ==> tiles[k].left >= 0 && tiles[k].right >= 0
    ensures Pips(tiles) >= 0
  {
    if |tiles| > 0 {
      PipsNonNegative(tiles[..|tiles| - 1]);
    }
  }

  /** The scores are the pip sums of the hands, one for each player. */
  lemma {:induction false} ScoresAreExact(hands: seq<Hand>)
    requires Distinct(hands)
    ensures forall p :: p in ScoresOf(hands) <==> exists i :: 0 <= i < |hands| && hands[i].player == p
    ensures forall i :: 0 <= i < |hands| ==>
      hands[i].player in ScoresOf(hands) && ScoresOf(hands)[hands[i].player] == Pips(hands[i].tiles)
  {
    if |hands| > 0 {
      var before := hands[..|hands| - 1];
      ScoresAreExact(before);
      forall p ensures p in ScoresOf(hands) <==> exists i :: 0 <= i < |hands| && hands[i].player == p {
        if i :| 0 <= i < |hands| && hands[i].player == p {
          assert i < |before| ==> before[i].player == p;
        }
      }
      forall i | 0 <= i < |before|
        ensures hands[i].player in ScoresOf(hands) && ScoresOf(hands)[hands[i].player] == Pips(hands[i].tiles)
      {
        assert before[i] == hands[i];
      }
    }
  }

  // ---- the lowest hand --------------------------------------------------------------------------

  /** The first of the lightest hands still in play. */
  function FirstLightest(hands: seq<Hand>): (r: Option<nat>)
    ensures r.None? <==> forall i :: 0 <= i < |hands| ==> hands[i].abandoned
    ensures r.Some? ==> r.value < |hands| && Lightest(hands, r.value)
    ensures r.Some? ==>
      forall j :: 0 <= j < r.value && !hands[j].abandoned ==> Pips(hands[j].tiles) > Pips(hands[r.value].tiles)
  {
    if |hands| == 0 then None
    else
      var before := hands[..|hands| - 1];
      var best := FirstLightest(before);
      var last := hands[|hands| - 1];
      assert forall j :: 0 <= j < |before| ==> before[j] == hands[j];
      if !last.abandoned && (best.None? || Pips(last.tiles) < Pips(hands[best.value].tiles)) then Some(|hands| - 1)
      else best
  }

  /** A player with the empty name, lightest so far, is taken for no winner at all by the next hand in play. */
  predicate Overlooked(hands: seq<Hand>, i: nat)
    requires i < |hands|
  {
    hands[i].player == "" && exists j :: i < j < |hands| && !hands[j].abandoned
  }

  lemma {:induction false} LowestFollowsLightest(hands: seq<Hand>, scores: map<string, int>)
    requires Distinct(hands)
    requires forall i :: 0 <= i < |hands| ==>
      hands[i].player in scores && scores[hands[i].player] == Pips(hands[i].tiles)
    ensures var (winner, lowest) := Lowest(hands, scores);
      match FirstLightest(hands)
      case None => winner == ""
      case Some(i) =>
        if Overlooked(hands, i) then winner != "" && lowest >= Pips(hands[i].tiles)
        else winner == hands[i].player && lowest == Pips(hands[i].tiles)
  {
    hide Pips, Lightest, Overlooked;
    if |hands| > 0 {
      var before := hands[..|hands| - 1];
      assert forall j :: 0 <= j < |before| ==> before[j] == hands[j];
      LowestFollowsLightest(before, scores);
      LastIsNotOverlooked(hands);
      if FirstLightest(before).Some? {
        OneMoreHand(hands, FirstLightest(before).value);
      }
    }
  }

  lemma LastIsNotOverlooked(hands: seq<Hand>)
    requires |hands| > 0
    ensures !Overlooked(hands, |hands| - 1)
  {
  }

  lemma OneMoreHand(hands: seq<Hand>, i: nat)
    requires i < |hands| - 1
    ensures var last := hands[|hands| - 1];
      Overlooked(hands, i) <==> Overlooked(hands[..|hands| - 1], i) || (hands[i].player == "" && !last.abandoned)
    ensures Distinct(hands) && Overlooked(hands, i) ==> hands[|hands| - 1].player != ""
  {
    var before := hands[..|hands| - 1];
    assert forall j :: 0 <= j < |before| ==> before[j] == hands[j];
  }

  /**
   * The player lowestPipPlayer names is the first lightest one exactly when that one is not nameless with
   * a hand in play after it.
   */
  lemma LowestPipPlayerIff(hands: seq<Hand>)
    requires Distinct(hands) && exists i :: 0 <= i < |hands| && !hands[i].abandoned
    ensures FirstLightest(hands).Some?
    ensures LowestPipPlayer(hands) == hands[FirstLightest(hands).value].player
            <==> !Overlooked(hands, FirstLightest(hands).value)
  {
    ScoresAreExact(hands);
    LowestFollowsLightest(hands, ScoresOf(hands));
  }

  // ---- the end of the match ---------------------------------------------------------------------

  lemma {:induction false} ActiveAlone(hands: seq<Hand>)
    ensures |ActivePlayers(hands)| == 0 <==> forall i :: 0 <= i < |hands| ==> hands[i].abandoned
    ensures |ActivePlayers(hands)| == 1 <==> exists i: nat :: OnlyActive(hands, i)
    ensures forall i: nat :: OnlyActive(hands, i) ==> ActivePlayers(hands) == [hands[i].player]
  {
    if |hands| > 0 {
      var before := hands[..|hands| - 1];
      var last := |hands| - 1;
      ActiveAlone(before);
      assert forall j :: 0 <= j < |before| ==> before[j] == hands[j];
      if hands[last].abandoned {
        forall i: nat ensures OnlyActive(hands, i) == OnlyActive(before, i) {
        }
      } else {
        assert OnlyActive(hands, last) <==> forall i :: 0 <= i < |before| ==> before[i].abandoned;
        forall i: nat | OnlyActive(hands, i) ensures i == last {
        }
      }
    }
  }

  ghost predicate Over(s: Session) {
    || (exists i :: 0 <= i < |s.hands| && !s.hands[i].abandoned && s.hands[i].tiles == [])
    || (exists i: nat :: OnlyActive(s.hands, i))
    || (|s.boneyard| == 0 && AllPassed(s.hands))
  }

  lemma EndsIff(s: Session)
    ensures Evaluation(s).Some? <==> Over(s)
  {
    ActiveAlone(s.hands);
  }

  /** Why it ends: an empty hand comes before a forfeit, and a forfeit before a block. */
  lemma ReasonIff(s: Session)
    requires Over(s)
    ensures Evaluation(s).Some?
    ensures var reason := Evaluation(s).value.reason;
      && (reason.EmptyHand? <==> exists i :: 0 <= i < |s.hands| && !s.hands[i].abandoned && s.hands[i].tiles == [])
      && (reason.Forfeit? <==> exists i: nat :: OnlyActive(s.hands, i) && s.hands[i].tiles != [])
  {
    ActiveAlone(s.hands);
  }

  /** Whoever wins by emptying a hand or by being the last one left is in play and holds the fewest pips. */
  lemma WinnerIsLightest(s: Session) returns (i: nat)
    requires Distinct(s.hands) && Fair(s.hands) && Evaluation(s).Some? && !Evaluation(s).value.reason.Blocked?
    ensures Lightest(s.hands, i) && Evaluation(s).value.winner == s.hands[i].player
    ensures if Evaluation(s).value.reason.EmptyHand? then s.hands[i].tiles == [] else OnlyActive(s.hands, i)
  {
    ActiveAlone(s.hands);
    i := FirstEmpty(s.hands);
    if i < |s.hands| {
      forall j | 0 <= j < |s.hands| ensures Pips(s.hands[i].tiles) <= Pips(s.hands[j].tiles) {
        PipsNonNegative(s.hands[j].tiles);
      }
    } else {
      i :| OnlyActive(s.hands, i);
    }
  }

  /** In a blocked match everyone in play has passed, and the first lightest hand wins unless it is overlooked. */
  lemma BlockedWinnerIff(s: Session)
    requires Distinct(s.hands) && Evaluation(s).Some? && Evaluation(s).value.reason.Blocked?
    ensures |s.boneyard| == 0 && AllPassed(s.hands) && FirstLightest(s.hands).Some?
    ensures Evaluation(s).value.winner == s.hands[FirstLightest(s.hands).value].player
            <==> !Overlooked(s.hands, FirstLightest(s.hands).value)
  {
    LowestPipPlayerIff(s.hands);
  }

  /** For distinct players with names, every finished match names a lightest hand in play and the exact pip sums. */
  lemma OutcomeIsRight(s: Session) returns (i: nat)
    requires Distinct(s.hands) && Fair(s.hands) && Evaluation(s).Some?
    requires forall k :: 0 <= k < |s.hands| ==> s.hands[k].player != ""
    ensures Lightest(s.hands, i) && Evaluation(s).value.winner == s.hands[i].player
    ensures Evaluation(s).value.matchId == s.id
    ensures forall k :: 0 <= k < |s.hands| ==>
      && s.hands[k].player in Evaluation(s).value.scores
      && Evaluation(s).value.scores[s.hands[k].player] == Pips(s.hands[k].tiles)
    ensures Evaluation(s).value.reason.Blocked? ==> Some(i) == FirstLightest(s.hands)
  {
    ScoresAreExact(s.hands);
    if Evaluation(s).value.reason.Blocked? {
      BlockedWinnerIff(s);
      i := FirstLightest(s.hands).value;
    } else {
      i := WinnerIsLightest(s);
    }
  }

  /** Two hands, the lighter that of a nameless player: it is not declared the winner. */
  lemma NamelessWinnerOverlooked(s: Session)
    requires |s.hands| == 2 && s.hands[0].player == "" && s.hands[1].player != "" && s.boneyard == []
    requires forall i :: 0 <= i < 2 ==> !s.hands[i].abandoned && s.hands[i].passed && s.hands[i].tiles != []
    requires Pips(s.hands[0].tiles) < Pips(s.hands[1].tiles)
    ensures Evaluation(s).Some? && Evaluation(s).value.winner != s.hands[0].player && Lightest(s.hands, 0)
  {
    hide Pips, ScoresOf, LowestPipPlayer, FirstLightest, FirstEmpty, ActivePlayers;
    ActiveAlone(s.hands);
    forall i: nat ensures !OnlyActive(s.hands, i) {
      assert s.hands[0].abandoned == s.hands[1].abandoned;
    }
    assert !s.hands[0].abandoned && FirstLightest(s.hands) == Some(0);
    LowestPipPlayerIff(s.hands);
  }
}
