/** Whole matches: everything that can happen to a session from the moment it is set up. */
module DominoRuns {
  import opened Basics
  import opened DominoRules
  import opened DominoBoard
  import opened DominoTiles
  import opened DominoOutcome
  import opened DominoTermination

  /** A session found new, after START_MATCH with setup. */
  function Start(id: string, names: seq<string>, choices: seq<nat>, n: nat): TurnResult
    requires |names| > 0 && InRange(choices, |DoubleSix()|)
  {
    SetupGame(NewSession(id, names), choices, n)
  }

  /** Turns, carried out or refused, and abandonments, in any order. */
  function Played(s: Session, es: seq<Event>): Session
    decreases |es|
  {
    if |es| == 0 then s else Step(Played(s, es[..|es| - 1]), es[|es| - 1])
  }

  // ---- what always holds --------------------------------------------------------------------------

  predicate FromDeck(tiles: seq<Tile>) {
    forall k :: 0 <= k < |tiles| ==> tiles[k] in DoubleSix()
  }

  predicate HandsFromDeck(hands: seq<Hand>) {
    forall i :: 0 <= i < |hands| ==> FromDeck(hands[i].tiles)
  }

  predicate HandsOf(hands: seq<Hand>, names: seq<string>) {
    |hands| == |names| && forall i :: 0 <= i < |names| ==> hands[i].player == names[i]
  }

  /** One of the players is up. */
  predicate Up(s: Session, names: seq<string>) {
    IndexOf(names, s.turn) < |names|
  }

  /** Each player listed has a hand, one of them or nobody is up, and what is not yet played are tiles of the deck. */
  predicate Regular(s: Session, names: seq<string>) {
    && |names| > 0 && s.players == names && HandsOf(s.hands, names)
    && (s.turn == "" || Up(s, names))
    && HandsFromDeck(s.hands) && FromDeck(s.boneyard)
  }

  lemma TurnHasHand(s: Session, names: seq<string>)
    requires Regular(s, names) && Up(s, names)
    ensures HandOf(s.hands, s.turn) < |s.hands|
  {
    assert s.hands[IndexOf(names, s.turn)].player == s.turn;
  }

  lemma HandChanges(hands: seq<Hand>, names: seq<string>, h: nat, hand: Hand)
    requires HandsOf(hands, names) && HandsFromDeck(hands) && h < |hands|
    requires hand.player == hands[h].player && FromDeck(hand.tiles)
    ensures HandsOf(hands[h := hand], names) && HandsFromDeck(hands[h := hand])
  {
    hide FromDeck;
  }

  lemma PlayKeepsRegular(s: Session, names: seq<string>, a: Action)
    requires Regular(s, names) && a.Play? && PlayTile(s, a.player, a.tile, a.atLeft).Some?
    ensures var s' := PlayTile(s, a.player, a.tile, a.atLeft).value;
      Regular(s', names) && (Up(s, names) ==> Up(s', names))
  {
    hide DoubleSix, HandOf, TileAt, IndexOf, HandsOf, HandsFromDeck;
    var h := HandOf(s.hands, a.player);
    var i := TileAt(s.hands[h].tiles, a.tile.id);
    var hand := s.hands[h].(tiles := Without(s.hands[h].tiles, i), passed := false);
    HeldFromDeck(s.hands, h);
    HandChanges(s.hands, names, h, hand);
  }

  lemma HeldFromDeck(hands: seq<Hand>, h: nat)
    requires HandsFromDeck(hands) && h < |hands|
    ensures FromDeck(hands[h].tiles)
  {
  }

  lemma DrawKeepsRegular(s: Session, names: seq<string>, player: string)
    requires Regular(s, names)
    ensures Regular(DrawFromBoneyard(s, player).0, names) && (Up(s, names) ==> Up(DrawFromBoneyard(s, player).0, names))
  {
    hide DoubleSix, HandOf, IndexOf, HandsOf, HandsFromDeck;
    var h := HandOf(s.hands, player);
    if s.turn == player && |s.boneyard| > 0 && h < |s.hands| {
      HeldFromDeck(s.hands, h);
      HandChanges(s.hands, names, h, s.hands[h].(tiles := s.hands[h].tiles + [s.boneyard[0]], passed := false));
    }
  }

  lemma PassKeepsRegular(s: Session, names: seq<string>, player: string)
    requires Regular(s, names) && PassTurn(s, player).Some?
    ensures Regular(PassTurn(s, player).value, names) && (Up(s, names) ==> Up(PassTurn(s, player).value, names))
  {
    hide FromDeck, HandOf, IndexOf, HandsOf, HandsFromDeck, RotateTurn;
    var h := HandOf(s.hands, player);
    var hand := s.hands[h].(passed := true);
    HeldFromDeck(s.hands, h);
    HandChanges(s.hands, names, h, hand);
    NextIsListed(s.(hands := s.hands[h := hand]));
  }

  lemma ConcludeKeepsRegular(s: Session, names: seq<string>, drawn: Option<Tile>, rotate: bool)
    requires Regular(s, names)
    ensures var s' := Conclude(s, drawn, rotate).after; Regular(s', names) && (Up(s, names) ==> Up(s', names))
  {
    hide FromDeck, IndexOf, HandsOf, HandsFromDeck, RotateTurn, Evaluation;
    NextIsListed(s);
    NextIsListed(s.(status := Active));
  }

  lemma LeaveKeepsRegular(s: Session, names: seq<string>, player: string)
    requires Regular(s, names)
    ensures var s' := HandlePlayerAbandoned(s, player).0; Regular(s', names) && (Up(s, names) ==> Up(s', names))
  {
    hide FromDeck, HandOf, IndexOf, HandsOf, HandsFromDeck, RotateTurn, Evaluation, DominoRules.PassTurn;
    var h := HandOf(s.hands, player);
    if h < |s.hands| {
      var hand := s.hands[h].(abandoned := true);
      HeldFromDeck(s.hands, h);
      HandChanges(s.hands, names, h, hand);
      var s1 := s.(hands := s.hands[h := hand]);
      NextIsListed(s1);
      if PassTurn(s1, player).Some? {
        PassKeepsRegular(s1, names, player);
      }
    }
  }

  lemma StepKeepsRegular(s: Session, names: seq<string>, e: Event)
    requires Regular(s, names)
    ensures Regular(Step(s, e), names) && (Up(s, names) ==> Up(Step(s, e), names))
  {
    hide Regular, Up, PlayTile, DrawFromBoneyard, DominoRules.PassTurn, Conclude, HandlePlayerAbandoned;
    match e {
      case Turn(a) =>
        match a {
          case Play(player, tile, atLeft) =>
            var played := PlayTile(s, player, tile, atLeft);
            if played.Some? {
              PlayKeepsRegular(s, names, a);
              ConcludeKeepsRegular(played.value, names, None, true);
            }
          case DrawOne(player) =>
            var (s1, drawn) := DrawFromBoneyard(s, player);
            DrawKeepsRegular(s, names, player);
            ConcludeKeepsRegular(s1, names, drawn, false);
          case Pass(player) =>
            var passed := PassTurn(s, player);
            if passed.Some? {
              PassKeepsRegular(s, names, player);
              ConcludeKeepsRegular(passed.value, names, None, false);
            }
          case Unsupported =>
        }
      case Leave(player) => LeaveKeepsRegular(s, names, player);
    }
  }

  lemma {:induction false} RunKeepsRegular(s: Session, names: seq<string>, es: seq<Event>)
    requires Regular(s, names)
    ensures Regular(Played(s, es), names) && (Up(s, names) ==> Up(Played(s, es), names))
    decreases |es|
  {
    hide Regular, Up, Step;
    if |es| > 0 {
      RunKeepsRegular(s, names, es[..|es| - 1]);
      StepKeepsRegular(Played(s, es[..|es| - 1]), names, es[|es| - 1]);
    }
  }

  // ---- setting up ---------------------------------------------------------------------------------

  lemma ShuffleStaysInDeck(choices: seq<nat>)
    requires InRange(choices, |DoubleSix()|)
    ensures FromDeck(Shuffle(DoubleSix(), choices))
  {
    hide DoubleSix, Shuffle;
    var s := Shuffle(DoubleSix(), choices);
    ShuffleIsPermutation(DoubleSix(), choices);
    forall k | 0 <= k < |s| ensures s[k] in DoubleSix() {
      assert s[k] in multiset(s);
    }
  }

  lemma DealtFromDeck(hands: seq<Hand>, pool: seq<Tile>, n: nat)
    requires |hands| * n <= |pool| && FromDeck(pool)
    ensures HandsFromDeck(DealtHands(hands, pool, n)) && FromDeck(pool[|hands| * n..])
    ensures forall names :: HandsOf(hands, names) ==> HandsOf(DealtHands(hands, pool, n), names)
  {
    hide DoubleSix;
    forall i | 0 <= i < |hands| ensures FromDeck(DealtHands(hands, pool, n)[i].tiles) {
      BlockFits(i, |hands|, n);
    }
  }

  /** A deal for up to 28 tiles succeeds, and somebody is up; the match is regular either way. */
  lemma StartIsRegular(id: string, names: seq<string>, choices: seq<nat>, n: nat)
    requires |names| > 0 && InRange(choices, |DoubleSix()|)
    ensures Start(id, names, choices, n).Applied? <==> |names| * n <= 28
    ensures Regular(Start(id, names, choices, n).after, names)
    ensures Start(id, names, choices, n).Applied? ==> Up(Start(id, names, choices, n).after, names)
    ensures Start(id, names, choices, n).Refused? ==> Start(id, names, choices, n).after.turn == ""
  {
    hide DoubleSix, Shuffle, FromDeck, HandsFromDeck, DealtHands;
    DeckSize();
    ShuffleIsPermutation(DoubleSix(), choices);
    ShuffleStaysInDeck(choices);
    var s1 := ResetForSetup(NewSession(id, names)).(boneyard := Shuffle(DoubleSix(), choices));
    NoTilesFromDeck(s1.hands);
    if |names| * n <= 28 {
      DealtFromDeck(s1.hands, s1.boneyard, n);
      assert IndexOf(names, names[0]) == 0;
    }
  }

  lemma NoTilesFromDeck(hands: seq<Hand>)
    requires forall i :: 0 <= i < |hands| ==> hands[i].tiles == []
    ensures HandsFromDeck(hands)
  {
    hide DoubleSix;
  }

  // ---- who may act --------------------------------------------------------------------------------

  predicate IsFirstHand(hands: seq<Hand>, player: string, i: nat) {
    i < |hands| && hands[i].player == player && forall j :: 0 <= j < i ==> hands[j].player != player
  }

  predicate HoldsTile(hands: seq<Hand>, player: string, id: string) {
    exists i: nat | i < |hands| ::
      IsFirstHand(hands, player, i) && exists k :: 0 <= k < |hands[i].tiles| && hands[i].tiles[k].id == id
  }

  predicate HasHand(hands: seq<Hand>, player: string) {
    exists i :: 0 <= i < |hands| && hands[i].player == player
  }

  /** What a player must be and have for an action, told from the board itself and not from its cache. */
  ghost predicate Entitled(s: Session, a: Action) {
    match a
    case Play(player, tile, atLeft) =>
      && s.turn == player && HoldsTile(s.hands, player, tile.id)
      && exists o :: Lies(o, tile) && Chain(Extended(s.board, o, atLeft))
    case DrawOne(player) => s.turn == player && |s.boneyard| > 0 && HasHand(s.hands, player)
    case Pass(player) => s.turn == player && HasHand(s.hands, player)
    case Unsupported => false
  }

  /** A turn is carried out exactly when the match is open and the player entitled to the action. */
  lemma CarriedOutIff(s: Session, a: Action)
    requires BoardOk(s)
    ensures ProcessGameTurn(s, a).Applied? <==> !s.locked && s.status != Completed && Entitled(s, a)
  {
    hide BoardOk, Chain, PutDown, Conclude, RotateTurn;
    match a {
      case Play(player, tile, atLeft) =>
        CanPlayIff(s, tile, atLeft);
        HoldsIff(s.hands, player, tile.id);
      case DrawOne(player) => HasHandIff(s.hands, player);
      case Pass(player) => HasHandIff(s.hands, player);
      case Unsupported =>
    }
  }

  lemma HasHandIff(hands: seq<Hand>, player: string)
    ensures HasHand(hands, player) <==> HandOf(hands, player) < |hands|
  {
  }

  lemma HoldsIff(hands: seq<Hand>, player: string, id: string)
    ensures HoldsTile(hands, player, id) <==>
      var h := HandOf(hands, player); h < |hands| && TileAt(hands[h].tiles, id) < |hands[h].tiles|
  {
    hide HandOf, TileAt;
    var h := HandOf(hands, player);
    if HoldsTile(hands, player, id) {
      var i: nat :| i < |hands| && IsFirstHand(hands, player, i)
                    && exists k :: 0 <= k < |hands[i].tiles| && hands[i].tiles[k].id == id;
      assert i == h;
    }
    if h < |hands| && TileAt(hands[h].tiles, id) < |hands[h].tiles| {
      assert IsFirstHand(hands, player, h);
      assert hands[h].tiles[TileAt(hands[h].tiles, id)].id == id;
    }
  }

  /** Same tiles in the same hands, in the boneyard and on the board. */
  predicate SameTable(s: Session, s': Session) {
    && s'.board == s.board && s'.boneyard == s.boneyard && |s'.hands| == |s.hands|
    && forall i :: 0 <= i < |s.hands| ==> s'.hands[i].tiles == s.hands[i].tiles
  }

  lemma LockedStep(s: Session, e: Event)
    requires s.locked
    ensures Step(s, e).locked && SameTable(s, Step(s, e))
  {
    hide HandOf, RotateTurn, Evaluation;
  }

  /** Once a match is over no tile moves any more, whatever is attempted. */
  lemma {:induction false} OverIsOver(s: Session, es: seq<Event>)
    requires s.locked
    ensures Played(s, es).locked && SameTable(s, Played(s, es))
    decreases |es|
  {
    hide Step;
    if |es| > 0 {
      OverIsOver(s, es[..|es| - 1]);
      LockedStep(Played(s, es[..|es| - 1]), es[|es| - 1]);
    }
  }

  // ---- the theorems -------------------------------------------------------------------------------

  /** Every tile put down shows the pips of the tile it was played for. */
  predicate HonestRun(s: Session, es: seq<Event>)
    decreases |es|
  {
    |es| == 0
    || (HonestRun(s, es[..|es| - 1])
        && (es[|es| - 1].Turn? ==> Honest(Played(s, es[..|es| - 1]), es[|es| - 1].action)))
  }

  /** No draw in nobody's name; no entry point of the server lets one through. */
  predicate NamedDraws(es: seq<Event>) {
    forall i :: 0 <= i < |es| ==> es[i] != Turn(DrawOne(""))
  }

  lemma StepConserves(s: Session, names: seq<string>, e: Event, k: Key, faces: bool)
    requires Regular(s, names) && (Up(s, names) || e != Turn(DrawOne("")))
    requires faces && e.Turn? ==> Honest(s, e.action)
    ensures Total(Step(s, e), k, faces) == Total(s, k, faces)
  {
    hide Total, ProcessGameTurn, HandlePlayerAbandoned, Honest, IndexOf, HandOf, FromDeck;
    match e {
      case Turn(a) =>
        if Up(s, names) {
          TurnHasHand(s, names);
        }
        TurnConservesIff(s, a, faces);
      case Leave(player) =>
        AbandonmentConserves(s, player, faces);
    }
  }

  lemma {:induction false} RunConserves(s: Session, names: seq<string>, es: seq<Event>, k: Key, faces: bool)
    requires Regular(s, names) && (Up(s, names) || NamedDraws(es)) && (faces ==> HonestRun(s, es))
    ensures Total(Played(s, es), k, faces) == Total(s, k, faces)
    decreases |es|
  {
    hide Regular, Up, Total, Step, Honest;
    if |es| > 0 {
      var before := es[..|es| - 1];
      RunConserves(s, names, before, k, faces);
      RunKeepsRegular(s, names, before);
      StepConserves(Played(s, before), names, es[|es| - 1], k, faces);
    }
  }

  /**
   * From a setup on, after any turns and abandonments, hands, boneyard and board together hold exactly the
   * double-six set: by identifier always, by pips too if all plays are honest. Only after a deal that failed
   * must draws be made in somebody's name.
   */
  lemma TilesAreConserved(id: string, names: seq<string>, choices: seq<nat>, n: nat, es: seq<Event>,
                          k: Key, faces: bool)
    requires |names| > 0 && InRange(choices, |DoubleSix()|)
    requires |names| * n <= 28 || NamedDraws(es)
    requires faces ==> HonestRun(Start(id, names, choices, n).after, es)
    ensures Total(Played(Start(id, names, choices, n).after, es), k, faces) == Count(DoubleSix(), k, faces)
  {
    hide DoubleSix, Total, Count, Played, Regular, Up, SetupGame, HonestRun, NamedDraws;
    StartIsRegular(id, names, choices, n);
    SetupDealsTheDeck(NewSession(id, names), choices, n, k, faces);
    RunConserves(Start(id, names, choices, n).after, names, es, k, faces);
  }

  /** After a deal that failed nobody is up, and a draw in nobody's name takes a tile away for good. */
  lemma FailedSetupCanLoseATile(id: string, names: seq<string>, choices: seq<nat>, n: nat)
    requires |names| > 0 && InRange(choices, |DoubleSix()|) && |names| * n > 28 && "" !in names
    ensures LosesTile(Start(id, names, choices, n).after, DrawOne(""))
  {
    hide DoubleSix, Shuffle, HandOf;
    DeckSize();
    ShuffleIsPermutation(DoubleSix(), choices);
  }

  /** Whatever is attempted after this setup, no tile appears or disappears. */
  ghost predicate NeverLosesATile(id: string, names: seq<string>, choices: seq<nat>, n: nat)
    requires |names| > 0 && InRange(choices, |DoubleSix()|)
  {
    forall es, k :: Total(Played(Start(id, names, choices, n).after, es), k, false) == Count(DoubleSix(), k, false)
  }

  /**
   * If draws in nobody's name are let through as well, tiles are conserved exactly when the deal succeeds or
   * nobody is a player. The entry points refuse an empty player id, so only direct calls make the difference.
   */
  lemma NeverLosesATileIff(id: string, names: seq<string>, choices: seq<nat>, n: nat)
    requires |names| > 0 && InRange(choices, |DoubleSix()|)
    ensures NeverLosesATile(id, names, choices, n) <==> |names| * n <= 28 || "" in names
  {
    hide DoubleSix, Total, Count, Played, Regular, SetupGame, HonestRun, NamedDraws, LosesTile, Step;
    var s := Start(id, names, choices, n).after;
    StartIsRegular(id, names, choices, n);
    forall k ensures Total(s, k, false) == Count(DoubleSix(), k, false) {
      SetupDealsTheDeck(NewSession(id, names), choices, n, k, false);
    }
    if |names| * n <= 28 || "" in names {
      NobodyIsListed(s, names);
      forall es, k ensures Total(Played(s, es), k, false) == Count(DoubleSix(), k, false) {
        RunConserves(s, names, es, k, false);
      }
    } else {
      FailedSetupCanLoseATile(id, names, choices, n);
      DrawLoses(s);
    }
  }

  lemma NobodyIsListed(s: Session, names: seq<string>)
    requires Regular(s, names) && (Up(s, names) || "" in names)
    ensures Up(s, names)
  {
  }

  lemma DrawLoses(s: Session)
    requires LosesTile(s, DrawOne(""))
    ensures exists k :: Total(Played(s, [Turn(DrawOne(""))]), k, false) != Total(s, k, false)
  {
    hide LosesTile, ProcessGameTurn, Total;
    var es := [Turn(DrawOne(""))];
    assert es[..0] == [] && Played(s, es) == Step(Played(s, es[..0]), es[0]);
    TurnConservesIff(s, DrawOne(""), false);
  }

  predicate CountablePlays(es: seq<Event>) {
    forall i :: 0 <= i < |es| && es[i].Turn? && es[i].action.Play? ==> Countable(es[i].action.tile)
  }

  lemma {:induction false} RunKeepsBoard(s: Session, es: seq<Event>)
    requires BoardOk(s) && CountablePlays(es)
    ensures BoardOk(Played(s, es))
    decreases |es|
  {
    hide BoardOk, ProcessGameTurn, HandlePlayerAbandoned, Countable;
    if |es| > 0 {
      var before := es[..|es| - 1];
      RunKeepsBoard(s, before);
      match es[|es| - 1] {
        case Turn(a) => TurnKeepsBoardIff(Played(s, before), a);
        case Leave(player) => AbandonmentKeepsBoard(Played(s, before), player);
      }
    }
  }

  /**
   * From any setup on, the board is always a chain and the cache always names its ends, if no tile submitted
   * has negative pips.
   */
  lemma BoardStaysInOrder(id: string, names: seq<string>, choices: seq<nat>, n: nat, es: seq<Event>)
    requires |names| > 0 && InRange(choices, |DoubleSix()|) && CountablePlays(es)
    ensures BoardOk(Played(Start(id, names, choices, n).after, es))
  {
    hide BoardOk, SetupGame, Played, CountablePlays, DoubleSix;
    SetupClearsBoard(NewSession(id, names), choices, n);
    RunKeepsBoard(Start(id, names, choices, n).after, es);
  }

  /**
   * Whenever a match that began regularly is over, the winner it names is in play with the fewest pips,
   * and the scores are the pip sums.
   */
  lemma MatchOutcomeIsRight(s: Session, names: seq<string>, es: seq<Event>) returns (i: nat)
    requires Regular(s, names)
    requires forall j, k :: 0 <= j < k < |names| ==> names[j] != names[k]
    requires forall k :: 0 <= k < |names| ==> names[k] != ""
    requires Evaluation(Played(s, es)).Some?
    ensures i < |names| && Lightest(Played(s, es).hands, i)
    ensures Evaluation(Played(s, es)).value.winner == names[i]
    ensures forall k :: 0 <= k < |names| ==>
      names[k] in Evaluation(Played(s, es)).value.scores && k < |Played(s, es).hands|
      && Evaluation(Played(s, es)).value.scores[names[k]] == Pips(Played(s, es).hands[k].tiles)
  {
    hide Played, Evaluation, FromDeck, IndexOf, Fair, Pips;
    var s' := Played(s, es);
    RunKeepsRegular(s, names, es);
    DeckIsFair(s'.hands);
    assert Distinct(s'.hands);
    i := OutcomeIsRight(s');
  }

  lemma DeckIsFair(hands: seq<Hand>)
    requires HandsFromDeck(hands)
    ensures Fair(hands)
  {
    hide DoubleSix, NewTile;
    DeckIsDoubleSix();
    forall i, k | 0 <= i < |hands| && 0 <= k < |hands[i].tiles|
      ensures hands[i].tiles[k].left >= 0 && hands[i].tiles[k].right >= 0
    {
      assert FromDeck(hands[i].tiles);
      var l: nat, r: nat :| l <= r <= 6 && hands[i].tiles[k] == NewTile(l, r);
      NewTilePips(l, r);
    }
  }

  lemma NewTilePips(l: nat, r: nat)
    requires l <= 9 && r <= 9
    ensures NewTile(l, r).left == l && NewTile(l, r).right == r
  {
  }

  // ---- how long a match can last --------------------------------------------------------------------

  lemma {:induction false} CutIntoTiles(hands: seq<Hand>, pool: seq<Tile>, cuts: seq<nat>)
    requires CutInto(hands, pool, cuts)
    ensures |cuts| == |hands| + 1 && TileCount(hands) == cuts[|hands|]
  {
    if |hands| > 0 {
      hide CutInto;
      AllButLastCut(hands, pool, cuts);
      CutIntoTiles(hands[..|hands| - 1], pool, cuts[..|hands|]);
    }
  }

  lemma DealtTiles(hands: seq<Hand>, pool: seq<Tile>, n: nat)
    requires |hands| * n <= |pool|
    ensures |DealtHands(hands, pool, n)| == |hands| && TileCount(DealtHands(hands, pool, n)) == |hands| * n
    ensures forall i :: 0 <= i < |hands| ==> var hand := DealtHands(hands, pool, n)[i];
      |hand.tiles| == n && hand == hands[i].(tiles := hand.tiles)
  {
    hide CutInto;
    DealtIsCut(hands, pool, n);
    CutIntoTiles(DealtHands(hands, pool, n), pool, seq(|hands| + 1, i requires 0 <= i => i * n));
    forall i | 0 <= i < |hands| ensures |DealtHands(hands, pool, n)[i].tiles| == n {
      BlockFits(i, |hands|, n);
      OneBlock(i, n);
    }
  }

  lemma OneBlock(i: nat, n: nat)
    ensures (i + 1) * n - i * n == n
  {
  }

  /** A deal that succeeds: every player in play with n tiles, nobody has passed, the rest is left to draw. */
  lemma StartIsDealt(id: string, names: seq<string>, choices: seq<nat>, n: nat)
    requires |names| > 0 && InRange(choices, |DoubleSix()|) && |names| * n <= 28
    ensures var s := Start(id, names, choices, n).after;
      && s.players == names && |s.hands| == |names| && s.turn == names[0] && !s.locked && s.status == Active
      && TileCount(s.hands) == |names| * n && |s.boneyard| == 28 - |names| * n
      && forall i :: 0 <= i < |names| ==>
           s.hands[i].player == names[i] && |s.hands[i].tiles| == n && Waits(s.hands[i])
  {
    hide DoubleSix, Shuffle, DealtHands, TileCount;
    DeckSize();
    ShuffleIsPermutation(DoubleSix(), choices);
    var s1 := ResetForSetup(NewSession(id, names)).(boneyard := Shuffle(DoubleSix(), choices));
    DealtTiles(s1.hands, s1.boneyard, n);
  }

  /**
   * From the deal on, a match of at least two players is sure to end, whatever the shuffle and however it is
   * played, exactly when the deal leaves no tile to draw and the players are all different.
   */
  lemma SetupEndsInTimeIff(id: string, names: seq<string>, choices: seq<nat>, n: nat)
    requires |names| >= 2 && n >= 1 && |names| * n <= 28 && InRange(choices, |DoubleSix()|)
    ensures EndsWithin(Start(id, names, choices, n).after, |names| * 29)
       <==> |names| * n == 28 && forall j, k :: 0 <= j < k < |names| ==> names[j] != names[k]
  {
    hide DoubleSix, SetupGame, TileCount, EndsWithin;
    var s := Start(id, names, choices, n).after;
    StartIsDealt(id, names, choices, n);
    DealtIsUnderWay(s);
    MoreTilesMoreTurns(|names|, TileCount(s.hands));
    EndsInTimeIff(s, |names| * 29);
    SameAsNames(s.hands, names);
  }

  lemma DealtIsUnderWay(s: Session)
    requires |s.hands| == |s.players| >= 2 && s.turn == s.players[0] && !s.locked && s.status == Active
    requires forall i :: 0 <= i < |s.hands| ==>
      s.hands[i].player == s.players[i] && s.hands[i].tiles != [] && Waits(s.hands[i])
    ensures UnderWay(s) && RepeatsWait(s.hands)
  {
    assert !s.hands[0].abandoned && !s.hands[1].abandoned;
  }

  lemma MoreTilesMoreTurns(n: nat, t: nat)
    requires t <= 28
    ensures n * (t + 1) <= n * 29
  {
  }

  lemma SameAsNames(hands: seq<Hand>, names: seq<string>)
    requires |hands| == |names| && forall i :: 0 <= i < |names| ==> hands[i].player == names[i]
    ensures Distinct(hands) <==> forall j, k :: 0 <= j < k < |names| ==> names[j] != names[k]
  {
    if Distinct(hands) {
      forall j, k | 0 <= j < k < |names| ensures names[j] != names[k] {
        assert hands[j].player != hands[k].player;
      }
    }
  }
}
