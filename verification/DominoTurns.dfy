/** Whose turn it is, what a draw yields, what the pass flags say, and when a match is closed. */
module DominoTurns {
  import opened Basics
  import opened DominoRules
  import opened DominoBoard
  import opened DominoTiles
  import opened DominoOutcome
  import opened DominoTermination
  import opened DominoRuns

  // ---- who is up ----------------------------------------------------------------------------------

  /** The players are all different, and the i-th is up. */
  predicate UpIs(s: Session, i: nat) {
    && i < |s.players| && s.turn == s.players[i]
    && forall j, k :: 0 <= j < k < |s.players| ==> s.players[j] != s.players[k]
  }

  lemma RotatesOn(s: Session, i: nat)
    requires UpIs(s, i)
    ensures RotateTurn(s).turn == s.players[(i + 1) % |s.players|]
  {
    assert IndexOf(s.players, s.turn) == i;
  }

  /** After a draw the same player is up; after a play or a pass it is the one listed next. */
  lemma WhoIsUpNext(s: Session, a: Action, i: nat)
    requires UpIs(s, i)
    requires ProcessGameTurn(s, a).Applied? && ProcessGameTurn(s, a).outcome.None?
    ensures ProcessGameTurn(s, a).after.turn == s.players[if a.DrawOne? then i else (i + 1) % |s.players|]
  {
    hide Evaluation, RotateTurn, HandOf, CanPlay, TileAt, IndexOf;
    match a {
      case Play(player, tile, atLeft) =>
        var s1 := PlayTile(s, player, tile, atLeft).value;
        RotatesOn(if s1.status == Waiting then s1.(status := Active) else s1, i);
      case Pass(player) =>
        var h := HandOf(s.hands, player);
        RotatesOn(s.(hands := s.hands[h := s.hands[h].(passed := true)]), i);
      case DrawOne(_) =>
      case Unsupported =>
    }
  }

  /** The first action carried out makes a waiting match active; no other that does not end it changes the status. */
  lemma FirstActionActivates(s: Session, a: Action)
    requires ProcessGameTurn(s, a).Applied? && ProcessGameTurn(s, a).outcome.None?
    ensures ProcessGameTurn(s, a).after.status == if s.status == Waiting then Active else s.status
    ensures !ProcessGameTurn(s, a).after.locked
  {
    hide Evaluation, RotateTurn, HandOf, CanPlay, TileAt, IndexOf;
  }

  /** Whoever leaves during its own turn hands it on; nobody else's leaving moves it. */
  lemma WhoIsUpAfterLeaving(s: Session, player: string, i: nat)
    requires UpIs(s, i) && HasHand(s.hands, player)
    ensures HandlePlayerAbandoned(s, player).0.turn
      == s.players[if player == s.turn then (i + 1) % |s.players| else i]
  {
    hide Evaluation, RotateTurn, IndexOf;
    var h := HandOf(s.hands, player);
    var s1 := s.(hands := s.hands[h := s.hands[h].(abandoned := true)]);
    RotatesOn(s1.(hands := s1.hands[h := s1.hands[h].(passed := true)]), i);
    HandStays(s.hands, player);
  }

  lemma HandStays(hands: seq<Hand>, player: string)
    requires HasHand(hands, player)
    ensures var h := HandOf(hands, player);
      h < |hands| && HandOf(hands[h := hands[h].(abandoned := true)], player) == h
  {
    var h := HandOf(hands, player);
    var hands' := hands[h := hands[h].(abandoned := true)];
    var k := HandOf(hands', player);
    assert hands'[h].player == player && hands[k].player == hands'[k].player;
  }

  // ---- drawing ------------------------------------------------------------------------------------

  /** Whoever draws may then pass, or play the tile drawn wherever it extends the chain. */
  lemma DrawerPlaysOn(s: Session, player: string, atLeft: bool)
    requires BoardOk(s)
    requires ProcessGameTurn(s, DrawOne(player)).Applied? && ProcessGameTurn(s, DrawOne(player)).outcome.None?
    ensures var r := ProcessGameTurn(s, DrawOne(player));
      && r.drawn.Some? && s.boneyard == [r.drawn.value] + r.after.boneyard
      && ProcessGameTurn(r.after, Pass(player)).Applied?
      && (ProcessGameTurn(r.after, Play(player, r.drawn.value, atLeft)).Applied? <==>
            exists o :: Lies(o, r.drawn.value) && Chain(Extended(s.board, o, atLeft)))
  {
    hide BoardOk, Chain, Evaluation, CanPlay;
    var r := ProcessGameTurn(s, DrawOne(player));
    DrawGoesToHand(s, player);
    SameBoardOk(s, r.after);
    CarriedOutIff(r.after, Pass(player));
    CarriedOutIff(r.after, Play(player, r.drawn.value, atLeft));
  }

  lemma SameBoardOk(s: Session, s': Session)
    requires BoardOk(s) && s'.board == s.board && s'.left == s.left && s'.right == s.right
    ensures BoardOk(s')
  {
  }

  lemma DrawGoesToHand(s: Session, player: string)
    requires ProcessGameTurn(s, DrawOne(player)).Applied? && ProcessGameTurn(s, DrawOne(player)).outcome.None?
    ensures var r := ProcessGameTurn(s, DrawOne(player));
      && r.drawn.Some? && s.boneyard == [r.drawn.value] + r.after.boneyard
      && r.after.turn == player && !r.after.locked && r.after.status != Completed
      && r.after.board == s.board && r.after.left == s.left && r.after.right == s.right
      && HasHand(r.after.hands, player) && HoldsTile(r.after.hands, player, r.drawn.value.id)
  {
    hide Evaluation;
    var r := ProcessGameTurn(s, DrawOne(player));
    var h := HandOf(s.hands, player);
    assert r.after.hands == s.hands[h := r.after.hands[h]];
    assert IsFirstHand(r.after.hands, player, h);
    assert r.after.hands[h].tiles[|s.hands[h].tiles|] == s.boneyard[0];
  }

  /** The tiles the run's draws yield, in order. */
  function DrawnIn(s: Session, es: seq<Event>): seq<Tile>
    decreases |es|
  {
    if |es| == 0 then []
    else
      var before, last := es[..|es| - 1], es[|es| - 1];
      DrawnIn(s, before) + DrawnBy(Played(s, before), last)
  }

  function DrawnBy(s: Session, e: Event): seq<Tile> {
    match e
    case Leave(_) => []
    case Turn(a) =>
      var r := ProcessGameTurn(s, a);
      if r.Applied? && r.drawn.Some? then [r.drawn.value] else []
  }

  lemma StepTakesFromTop(s: Session, names: seq<string>, e: Event)
    requires Regular(s, names) && (Up(s, names) || e != Turn(DrawOne("")))
    ensures s.boneyard == DrawnBy(s, e) + Step(s, e).boneyard
  {
    hide ProcessGameTurn, HandlePlayerAbandoned, DrawnBy, HandOf, FromDeck, HandsFromDeck;
    match e {
      case Turn(a) =>
        match a {
          case DrawOne(player) =>
            if player == s.turn {
              ListedHasHand(s, names);
            }
            DrawTakesTop(s, player);
          case _ => OthersTakeNothing(s, a);
        }
      case Leave(player) => LeavingTakesNothing(s, player);
    }
  }

  lemma DrawTakesTop(s: Session, player: string)
    requires player == s.turn ==> HandOf(s.hands, player) < |s.hands|
    ensures s.boneyard == DrawnBy(s, Turn(DrawOne(player))) + ProcessGameTurn(s, DrawOne(player)).after.boneyard
  {
    hide Evaluation, RotateTurn, HandOf;
  }

  lemma OthersTakeNothing(s: Session, a: Action)
    requires !a.DrawOne?
    ensures DrawnBy(s, Turn(a)) == [] && ProcessGameTurn(s, a).after.boneyard == s.boneyard
  {
    hide Evaluation, RotateTurn, HandOf, CanPlay, TileAt;
  }

  lemma LeavingTakesNothing(s: Session, player: string)
    ensures DrawnBy(s, Leave(player)) == [] && HandlePlayerAbandoned(s, player).0.boneyard == s.boneyard
  {
    hide Evaluation, RotateTurn, HandOf;
  }

  lemma ListedHasHand(s: Session, names: seq<string>)
    requires Regular(s, names) && (Up(s, names) || s.turn != "")
    ensures HandOf(s.hands, s.turn) < |s.hands|
  {
    TurnHasHand(s, names);
  }

  lemma {:induction false} RunTakesFromTop(s: Session, names: seq<string>, es: seq<Event>)
    requires Regular(s, names) && (Up(s, names) || NamedDraws(es))
    ensures s.boneyard == DrawnIn(s, es) + Played(s, es).boneyard
    decreases |es|
  {
    if |es| > 0 {
      hide Regular, Up, Step, DrawnBy, NamedDraws;
      var before, last := es[..|es| - 1], es[|es| - 1];
      if NamedDraws(es) {
        FewerDraws(es);
      }
      RunTakesFromTop(s, names, before);
      RunKeepsRegular(s, names, before);
      StepTakesFromTop(Played(s, before), names, last);
      Joins(DrawnIn(s, before), DrawnBy(Played(s, before), last), Played(s, es).boneyard);
    }
  }

  lemma FewerDraws(es: seq<Event>)
    requires |es| > 0 && NamedDraws(es)
    ensures NamedDraws(es[..|es| - 1]) && es[|es| - 1] != Turn(DrawOne(""))
  {
  }

  lemma Joins<T>(a: seq<T>, b: seq<T>, c: seq<T>)
    ensures a + (b + c) == a + b + c
  {
  }

  /** From any setup on, the boneyard is drawn from the top, in the order of the shuffle. */
  lemma DrawnInShuffledOrder(id: string, names: seq<string>, choices: seq<nat>, n: nat, es: seq<Event>)
    requires |names| > 0 && InRange(choices, |DoubleSix()|)
    requires |names| * n <= 28 || NamedDraws(es)
    ensures |Shuffle(DoubleSix(), choices)| == 28
    ensures var s := Start(id, names, choices, n).after;
      Shuffle(DoubleSix(), choices)[if |names| * n <= 28 then |names| * n else 0..]
        == DrawnIn(s, es) + Played(s, es).boneyard
  {
    hide DoubleSix, Shuffle, DrawnIn, Played, Regular, Up, NamedDraws, DealtHands;
    DeckSize();
    ShuffleIsPermutation(DoubleSix(), choices);
    StartIsRegular(id, names, choices, n);
    RunTakesFromTop(Start(id, names, choices, n).after, names, es);
  }

  // ---- pass flags ---------------------------------------------------------------------------------

  /** Whether the player's last turn that was carried out was a pass, leaving during one's turn included. */
  predicate LastPassed(s: Session, es: seq<Event>, player: string)
    decreases |es|
  {
    |es| > 0
    && var before, last := es[..|es| - 1], es[|es| - 1];
       match last
       case Turn(a) =>
         if ProcessGameTurn(Played(s, before), a).Applied? && Played(s, before).turn == player then a.Pass?
         else LastPassed(s, before, player)
       case Leave(who) => (who == player == Played(s, before).turn) || LastPassed(s, before, player)
  }

  lemma TurnFlags(s: Session, a: Action, i: nat)
    requires i < |s.hands| && HandOf(s.hands, s.hands[i].player) == i && HandOf(s.hands, s.turn) < |s.hands|
    ensures var r := ProcessGameTurn(s, a);
      && |r.after.hands| == |s.hands|
      && r.after.hands[i].passed
           == if r.Applied? && s.turn == s.hands[i].player then a.Pass? else s.hands[i].passed
  {
    hide Evaluation, RotateTurn, CanPlay, TileAt, HandOf;
    match a {
      case Play(_, _, _) =>
      case DrawOne(_) =>
      case Pass(_) =>
      case Unsupported =>
    }
  }

  lemma LeaveFlags(s: Session, who: string, i: nat)
    requires i < |s.hands| && HandOf(s.hands, s.hands[i].player) == i
    ensures var s' := HandlePlayerAbandoned(s, who).0;
      && |s'.hands| == |s.hands|
      && s'.hands[i].passed == ((who == s.hands[i].player == s.turn) || s.hands[i].passed)
  {
    hide Evaluation, RotateTurn, HandOf;
    if HandOf(s.hands, who) < |s.hands| {
      FirstHand(s.hands, who);
      HandStays(s.hands, who);
    }
  }

  /** One more event, and one player's flag. */
  lemma StepFlags(s: Session, e: Event, i: nat)
    requires i < |s.hands| && HandOf(s.hands, s.hands[i].player) == i && HandOf(s.hands, s.turn) < |s.hands|
    ensures var s' := Step(s, e); var mine := s.turn == s.hands[i].player;
      && |s'.hands| == |s.hands|
      && s'.hands[i].passed == match e
         case Turn(a) => if ProcessGameTurn(s, a).Applied? && mine then a.Pass? else s.hands[i].passed
         case Leave(who) => (who == s.hands[i].player && mine) || s.hands[i].passed
  {
    hide ProcessGameTurn, HandlePlayerAbandoned, HandOf;
    match e {
      case Turn(a) => TurnFlags(s, a, i);
      case Leave(who) => LeaveFlags(s, who, i);
    }
  }

  lemma FirstHand(hands: seq<Hand>, player: string)
    requires HandOf(hands, player) < |hands|
    ensures HasHand(hands, player)
  {
  }

  lemma {:induction false} FlagsTell(s: Session, names: seq<string>, es: seq<Event>, i: nat)
    requires Regular(s, names) && Up(s, names) && i < |names| && Unlike(names)
    requires forall k :: 0 <= k < |s.hands| ==> !s.hands[k].passed
    ensures var s' := Played(s, es);
      i < |s'.hands| && (s'.hands[i].passed <==> LastPassed(s, es, names[i]))
    decreases |es|
  {
    hide Up, Step, FromDeck, HandsFromDeck, ProcessGameTurn, HandOf;
    if |es| > 0 {
      var before, last := es[..|es| - 1], es[|es| - 1];
      FlagsTell(s, names, before, i);
      RunKeepsRegular(s, names, before);
      TurnHasHand(Played(s, before), names);
      OnlyHand(Played(s, before).hands, names, i);
      StepFlags(Played(s, before), last, i);
    }
  }

  predicate Unlike(names: seq<string>) {
    forall j, k :: 0 <= j < k < |names| ==> names[j] != names[k]
  }

  lemma OnlyHand(hands: seq<Hand>, names: seq<string>, i: nat)
    requires HandsOf(hands, names) && Unlike(names) && i < |names|
    ensures hands[i].player == names[i] && HandOf(hands, names[i]) == i
  {
    var h := HandOf(hands, names[i]);
    assert hands[h].player == names[h];
  }

  /** From a successful deal to different players on, a flag is up exactly if the player's last turn was a pass. */
  lemma PassFlagsTellLastTurn(id: string, names: seq<string>, choices: seq<nat>, n: nat, es: seq<Event>, i: nat)
    requires |names| > 0 && InRange(choices, |DoubleSix()|) && |names| * n <= 28 && Unlike(names) && i < |names|
    ensures var s := Start(id, names, choices, n).after;
      i < |Played(s, es).hands| && (Played(s, es).hands[i].passed <==> LastPassed(s, es, names[i]))
  {
    hide DoubleSix, Shuffle, Played, LastPassed, Regular, Up, SetupGame, Unlike;
    StartIsRegular(id, names, choices, n);
    StartIsDealt(id, names, choices, n);
    FlagsTell(Start(id, names, choices, n).after, names, es, i);
  }

  // ---- closing ------------------------------------------------------------------------------------

  /** The event decides the match. */
  predicate Decides(s: Session, e: Event) {
    match e
    case Turn(a) => var r := ProcessGameTurn(s, a); r.Applied? && r.outcome.Some?
    case Leave(player) => HandlePlayerAbandoned(s, player).1.Some?
  }

  /** Locked and completed together, or neither. */
  predicate Closed(s: Session) {
    s.locked && s.status == Completed
  }

  predicate Open(s: Session) {
    !s.locked && s.status != Completed
  }

  lemma StepCloses(s: Session, e: Event)
    requires Open(s) || Closed(s)
    ensures Closed(Step(s, e)) <==> Closed(s) || Decides(s, e)
    ensures Open(Step(s, e)) || Closed(Step(s, e))
    ensures Closed(s) ==> !Decides(s, e)
  {
    hide Evaluation, RotateTurn, CanPlay, TileAt, HandOf;
  }

  lemma OverDependsOn(s: Session, s': Session)
    requires s'.hands == s.hands && s'.boneyard == s.boneyard
    ensures Over(s') <==> Over(s)
  {
  }

  lemma RefusedChangesNothing(s: Session, a: Action)
    requires ProcessGameTurn(s, a).Refused? && HandOf(s.hands, s.turn) < |s.hands|
    ensures ProcessGameTurn(s, a).after == s
  {
    hide Evaluation, RotateTurn, CanPlay, TileAt, HandOf;
  }

  /** What is handed on is what was evaluated. */
  lemma ConcludesByEvaluation(s: Session, drawn: Option<Tile>, rotate: bool)
    ensures var r := Conclude(s, drawn, rotate);
      r.outcome.Some? <==> Over(r.after)
  {
    hide Evaluation, RotateTurn, Over;
    var s1 := if s.status == Waiting then s.(status := Active) else s;
    EndsIff(s1);
    OverDependsOn(s1, Conclude(s, drawn, rotate).after);
  }

  lemma TurnDecidesIff(s: Session, a: Action)
    requires ProcessGameTurn(s, a).Applied?
    ensures ProcessGameTurn(s, a).outcome.Some? <==> Over(ProcessGameTurn(s, a).after)
  {
    hide Conclude, Over, CanPlay, TileAt, HandOf, RotateTurn;
    match a {
      case Play(player, tile, atLeft) => ConcludesByEvaluation(PlayTile(s, player, tile, atLeft).value, None, true);
      case DrawOne(player) =>
        var (s1, drawn) := DrawFromBoneyard(s, player);
        ConcludesByEvaluation(s1, drawn, false);
      case Pass(player) => ConcludesByEvaluation(PassTurn(s, player).value, None, false);
      case Unsupported =>
    }
  }

  lemma LeavingDecidesIff(s: Session, player: string)
    requires !s.locked && HasHand(s.hands, player)
    ensures HandlePlayerAbandoned(s, player).1.Some? <==> Over(HandlePlayerAbandoned(s, player).0)
  {
    hide Evaluation, RotateTurn, Over, HandOf;
    var s1 := MarkAbandoned(s, player).value;
    EndsIff(s1);
    OverDependsOn(s1, FinalizeIfOver(s1).0);
  }

  lemma StrangerChangesNothing(s: Session, player: string)
    requires !HasHand(s.hands, player)
    ensures HandlePlayerAbandoned(s, player) == (s, None)
  {
    if HandOf(s.hands, player) < |s.hands| {
      FirstHand(s.hands, player);
      assert false;
    }
  }

  /** An open match that is not over is closed by the very event, turn or departure, that makes it over. */
  lemma ClosedByWhatEndsIt(s: Session, names: seq<string>, e: Event)
    requires Regular(s, names) && Up(s, names) && Open(s) && !Over(s)
    ensures Closed(Step(s, e)) <==> Over(Step(s, e))
    ensures Open(Step(s, e)) <==> !Over(Step(s, e))
  {
    hide Over, Regular, Up, HasHand;
    StepCloses(s, e);
    match e {
      case Turn(a) =>
        hide ProcessGameTurn;
        if ProcessGameTurn(s, a).Applied? {
          TurnDecidesIff(s, a);
        } else {
          TurnHasHand(s, names);
          RefusedChangesNothing(s, a);
        }
      case Leave(player) =>
        hide HandlePlayerAbandoned;
        if HasHand(s.hands, player) {
          LeavingDecidesIff(s, player);
        } else {
          StrangerChangesNothing(s, player);
        }
    }
  }

  lemma NotOverYet(s: Session, n: nat)
    requires |s.hands| >= 2 && n >= 1
    requires forall i :: 0 <= i < |s.hands| ==> |s.hands[i].tiles| == n && Waits(s.hands[i])
    ensures !Over(s)
  {
    assert Waits(s.hands[0]) && Waits(s.hands[1]);
    forall i: nat ensures !OnlyActive(s.hands, i) {
      assert i < |s.hands| ==> (s.hands[if i == 0 then 1 else 0].abandoned <==> true) || !OnlyActive(s.hands, i);
    }
  }

  lemma {:induction false} OpenIsNotOver(s: Session, names: seq<string>, es: seq<Event>)
    requires Regular(s, names) && Up(s, names) && Open(s) && !Over(s)
    ensures var s' := Played(s, es); (Open(s') || Closed(s')) && (Open(s') ==> !Over(s'))
    decreases |es|
  {
    hide Over, Regular, Up, Step;
    if |es| > 0 {
      var before, last := es[..|es| - 1], es[|es| - 1];
      OpenIsNotOver(s, names, before);
      RunKeepsRegular(s, names, before);
      StepCloses(Played(s, before), last);
      if Open(Played(s, before)) {
        ClosedByWhatEndsIt(Played(s, before), names, last);
      }
    }
  }

  /**
   * From a successful deal to two or more players on, no match that is over ever stays open, and the event that
   * closes one leaves somebody with an empty hand, or alone, or everyone blocked.
   */
  lemma ClosedExactlyWhenOver(id: string, names: seq<string>, choices: seq<nat>, n: nat, es: seq<Event>, e: Event)
    requires |names| >= 2 && InRange(choices, |DoubleSix()|) && n >= 1 && |names| * n <= 28
    requires Open(Played(Start(id, names, choices, n).after, es))
    ensures var s := Played(Start(id, names, choices, n).after, es);
      !Over(s) && (Closed(Step(s, e)) <==> Over(Step(s, e))) && (Open(Step(s, e)) <==> !Over(Step(s, e)))
  {
    hide DoubleSix, Played, Regular, Up, SetupGame, Over, Step;
    var s := Start(id, names, choices, n).after;
    StartIsRegular(id, names, choices, n);
    StartIsDealt(id, names, choices, n);
    NotOverYet(s, n);
    OpenIsNotOver(s, names, es);
    RunKeepsRegular(s, names, es);
    ClosedByWhatEndsIt(Played(s, es), names, e);
  }

  /** How many events of the run decided the match. */
  function Decisions(s: Session, es: seq<Event>): nat
    decreases |es|
  {
    if |es| == 0 then 0
    else
      var before, last := es[..|es| - 1], es[|es| - 1];
      Decisions(s, before) + if Decides(Played(s, before), last) then 1 else 0
  }

  /** A match is decided at most once, and closed exactly when it has been. */
  lemma {:induction false} ClosedOnceDecided(s: Session, es: seq<Event>)
    requires Open(s)
    ensures Decisions(s, es) <= 1
    ensures Closed(Played(s, es)) <==> Decisions(s, es) == 1
    ensures Open(Played(s, es)) <==> Decisions(s, es) == 0
    decreases |es|
  {
    if |es| > 0 {
      hide Step, Decides;
      var before, last := es[..|es| - 1], es[|es| - 1];
      ClosedOnceDecided(s, before);
      StepCloses(Played(s, before), last);
    }
  }
}
