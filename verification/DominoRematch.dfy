/** A session set up again: of the match played so far only who has left and who is up remains. */
module DominoRematch {
  import opened Basics
  import opened DominoRules
  import opened DominoBoard
  import opened DominoTiles
  import opened DominoTermination
  import opened DominoRuns

  /** The same session with the same players in the same places, whatever has been played. */
  predicate SameSeats(s: Session, t: Session) {
    && s.id == t.id && s.players == t.players && |s.hands| == |t.hands|
    && forall i :: 0 <= i < |s.hands| ==> s.hands[i].player == t.hands[i].player
  }

  /** The same hands, but for who has left. */
  predicate SameButLeft(hands: seq<Hand>, others: seq<Hand>, left: seq<Hand>) {
    |hands| == |others| == |left|
    && forall i :: 0 <= i < |hands| ==> hands[i] == others[i].(abandoned := left[i].abandoned)
  }

  /** The session after a setup, apart from who has left and who is up, depends only on its name and its seats. */
  lemma SetupForgets(s: Session, t: Session, choices: seq<nat>, n: nat)
    requires SameSeats(s, t) && |s.hands| <= |s.players| && InRange(choices, |DoubleSix()|)
    ensures var r, q := SetupGame(s, choices, n), SetupGame(t, choices, n);
      && (r.Applied? <==> q.Applied?) && (r.Applied? <==> |s.players| * n <= 28)
      && SameButLeft(r.after.hands, q.after.hands, s.hands)
      && r.after == q.after.(hands := r.after.hands, turn := r.after.turn, status := r.after.status)
      && (r.Refused? ==> r.after.status == s.status && r.after.turn == s.turn)
      && (r.Applied? ==> r.after.status == Active
                         && r.after.turn == if s.turn != "" || |s.players| == 0 then s.turn else s.players[0])
  {
    hide DoubleSix, Shuffle;
    DeckSize();
    ShuffleIsPermutation(DoubleSix(), choices);
    var s1 := ResetForSetup(s).(boneyard := Shuffle(DoubleSix(), choices));
    var t1 := ResetForSetup(t).(boneyard := Shuffle(DoubleSix(), choices));
    DealSucceedsIff(s1, n);
    DealSucceedsIff(t1, n);
    assert SameButLeft(s1.hands, t1.hands, s.hands);
    if |s.players| * n <= 28 {
      DealtAlike(s1.hands, t1.hands, s.hands, s1.boneyard, n);
    }
  }

  lemma DealtAlike(hands: seq<Hand>, others: seq<Hand>, left: seq<Hand>, pool: seq<Tile>, n: nat)
    requires SameButLeft(hands, others, left) && |hands| * n <= |pool|
    ensures SameButLeft(DealtHands(hands, pool, n), DealtHands(others, pool, n), left)
  {
    var dealt, dealtOthers := DealtHands(hands, pool, n), DealtHands(others, pool, n);
    forall i | 0 <= i < |hands| ensures dealt[i] == dealtOthers[i].(abandoned := left[i].abandoned) {
      BlockFits(i, |hands|, n);
    }
  }

  /** A session that has its players keeps them, and one that has none gets those named. */
  lemma SeatFillsIn(s: Session, names: seq<string>)
    ensures s.players != [] && s.hands != [] ==> Seat(s, names) == s
    ensures Seat(NewSession(s.id, []), names) == NewSession(s.id, names)
    ensures Seat(s, names).(players := s.players, hands := s.hands) == s
  {
    assert NewSession(s.id, []).hands == [];
  }

  /** A new session waits for its first turn, with an empty table in order and a hand for each player. */
  lemma NewSessionInOrder(id: string, names: seq<string>)
    ensures var s := NewSession(id, names);
      && s.status.Waiting? && !s.locked && BoardOk(s) && s.board == [] && s.players == names && |s.hands| == |names|
      && (forall i :: 0 <= i < |names| ==> s.hands[i].player == names[i] && s.hands[i].tiles == [] && Waits(s.hands[i]))
      && forall t, atLeft :: CanPlay(s.left, s.right, t, atLeft)
  {
  }

  lemma {:induction false} PlayedKeepsId(s: Session, es: seq<Event>)
    ensures Played(s, es).id == s.id
    decreases |es|
  {
    if |es| > 0 {
      var before, last := es[..|es| - 1], es[|es| - 1];
      PlayedKeepsId(s, before);
      StepKeepsId(Played(s, before), last);
    }
  }

  lemma StepKeepsId(s: Session, e: Event)
    ensures Step(s, e).id == s.id
  {
    hide Evaluation, RotateTurn, CanPlay, TileAt, HandOf;
  }

  lemma StartKeepsId(id: string, names: seq<string>, choices: seq<nat>, n: nat)
    requires |names| > 0 && InRange(choices, |DoubleSix()|)
    ensures Start(id, names, choices, n).after.id == id
  {
    hide DoubleSix, Shuffle, DealtHands;
  }

  /**
   * However a match went and whoever is named for the next, setting its session up again deals what a new session
   * of the same players would be dealt; whoever left stays away, and whoever was up begins.
   */
  lemma Rematch(id: string, names: seq<string>, choices: seq<nat>, n: nat, es: seq<Event>,
                others: seq<string>, again: seq<nat>, m: nat)
    requires |names| > 0 && InRange(choices, |DoubleSix()|) && InRange(again, |DoubleSix()|)
    requires |names| * n <= 28 && |names| * m <= 28
    ensures var s := Played(Start(id, names, choices, n).after, es); var anew := Start(id, names, again, m).after;
      && |Seat(s, others).hands| <= |Seat(s, others).players|
      && var r := SetupGame(Seat(s, others), again, m);
         && r.Applied? && !r.after.locked && r.after.status == Active
         && SameButLeft(r.after.hands, anew.hands, s.hands)
         && r.after == anew.(hands := r.after.hands, turn := if s.turn != "" then s.turn else names[0])
  {
    hide DoubleSix, Played, Up, SetupGame, FromDeck, HandsFromDeck;
    var s := Played(Start(id, names, choices, n).after, es);
    StartIsRegular(id, names, choices, n);
    RunKeepsRegular(Start(id, names, choices, n).after, names, es);
    StartKeepsId(id, names, choices, n);
    PlayedKeepsId(Start(id, names, choices, n).after, es);
    SeatFillsIn(s, others);
    SetupForgets(s, NewSession(id, names), again, m);
    StartIsDealt(id, names, again, m);
  }
}
