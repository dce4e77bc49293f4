/** The game session of pkg/models as it is updated in place, each method proved to do what DominoRules says. */
module DominoSession {
  import opened Basics
  import opened DominoRules

  class GameSession {
    var sessionId: string
    var status: Status
    var players: seq<string>
    var hands: seq<Hand>
    var boneyard: seq<Tile>
    var gameBoard: seq<Tile>
    var leftOpenValue: int
    var rightOpenValue: int
    var currentTurn: string
    var mutationsLocked: bool

    ghost function State(): Session
      reads this
    {
      Session(sessionId, status, players, hands, boneyard, gameBoard,
              leftOpenValue, rightOpenValue, currentTurn, mutationsLocked)
    }

    constructor (id: string, playerUIDs: seq<string>)
      ensures State() == NewSession(id, playerUIDs)
    {
      sessionId, status, players := id, Waiting, playerUIDs;
      boneyard, gameBoard := [], [];
      leftOpenValue, rightOpenValue := -1, -1;
      currentTurn, mutationsLocked := "", false;
      hands := [];
      new;
      for i := 0 to |playerUIDs|
        invariant State() == NewSession(id, playerUIDs).(hands := hands)
        invariant hands == NewSession(id, playerUIDs).hands[..i]
      {
        hands := hands + [Hand(playerUIDs[i], [], false, false)];
      }
    }

    method SetBoardEnds(left: int, right: int)
      modifies this`leftOpenValue, this`rightOpenValue
      ensures leftOpenValue == left && rightOpenValue == right
    {
      leftOpenValue := left;
      rightOpenValue := right;
    }

    method FindHand(playerId: string) returns (h: nat)
      ensures h == HandOf(hands, playerId)
    {
      h := 0;
      while h < |hands|
        invariant h <= |hands| && h <= HandOf(hands, playerId)
      {
        if hands[h].player == playerId {
          break;
        }
        h := h + 1;
      }
    }

    /** The first tile sets both ends; a later one is turned so that its matching side faces inward. */
    method PlaceOnBoard(tile: Tile, playAtLeft: bool)
      modifies this`gameBoard, this`leftOpenValue, this`rightOpenValue
      ensures State() == PutDown(old(State()), tile, playAtLeft)
    {
      var placed := tile;
      if leftOpenValue == -1 && rightOpenValue == -1 {
        gameBoard := gameBoard + [placed];
        SetBoardEnds(placed.left, placed.right);
      } else if playAtLeft {
        if placed.right != leftOpenValue {
          placed := placed.(left := placed.right, right := placed.left);
        }
        gameBoard := [placed] + gameBoard;
        leftOpenValue := placed.left;
      } else {
        if placed.left != rightOpenValue {
          placed := placed.(left := placed.right, right := placed.left);
        }
        gameBoard := gameBoard + [placed];
        rightOpenValue := placed.right;
      }
    }

    method PlayTile(playerId: string, tile: Tile, playAtLeft: bool) returns (success: bool)
      modifies this`hands, this`gameBoard, this`leftOpenValue, this`rightOpenValue
      ensures var r := DominoRules.PlayTile(old(State()), playerId, tile, playAtLeft);
        success == r.Some? && State() == (if success then r.value else old(State()))
    {
      hide HandOf, TileAt;
      if currentTurn != playerId {
        return false;
      }
      if !CanPlay(leftOpenValue, rightOpenValue, tile, playAtLeft) {
        return false;
      }
      var h := FindHand(playerId);
      if h == |hands| {
        return false;
      }
      var tiles := hands[h].tiles;
      var i := FindTile(tiles, tile.id);
      if i == |tiles| {
        return false;
      }
      hands := hands[h := hands[h].(tiles := tiles[..i] + tiles[i + 1..])];
      PlaceOnBoard(tile, playAtLeft);
      hands := hands[h := hands[h].(passed := false)];
      success := true;
    }

    method DrawFromBoneyard(playerId: string) returns (drawn: Option<Tile>)
      modifies this`hands, this`boneyard
      ensures (State(), drawn) == DominoRules.DrawFromBoneyard(old(State()), playerId)
    {
      if currentTurn != playerId || |boneyard| == 0 {
        return None;
      }
      var drawnTile := boneyard[0];
      boneyard := boneyard[1..];
      var h := FindHand(playerId);
      if h == |hands| {
        return None;
      }
      hands := hands[h := hands[h].(tiles := hands[h].tiles + [drawnTile], passed := false)];
      drawn := Some(drawnTile);
    }

    method RotateTurn()
      modifies this`currentTurn
      ensures State() == DominoRules.RotateTurn(old(State()))
    {
      if |players| == 0 {
        return;
      }
      var currentIndex := -1;
      var i := 0;
      while i < |players|
        invariant i <= |players| && i <= IndexOf(players, currentTurn) && currentIndex == -1
      {
        if players[i] == currentTurn {
          currentIndex := i;
          break;
        }
        i := i + 1;
      }
      if currentIndex == -1 {
        currentTurn := players[0];
        return;
      }
      currentTurn := players[(currentIndex + 1) % |players|];
    }

    method PassTurn(playerId: string) returns (ok: bool)
      modifies this`hands, this`currentTurn
      ensures var r := DominoRules.PassTurn(old(State()), playerId);
        ok == r.Some? && State() == (if ok then r.value else old(State()))
    {
      if currentTurn != playerId {
        return false;
      }
      var h := FindHand(playerId);
      if h == |hands| {
        return false;
      }
      hands := hands[h := hands[h].(passed := true)];
      RotateTurn();
      ok := true;
    }

    method LockForCompletion()
      modifies this`mutationsLocked, this`status
      ensures mutationsLocked && status == Completed
    {
      mutationsLocked := true;
      status := Completed;
    }

    method ProcessGameTurn(action: Action) returns (applied: bool, drawn: Option<Tile>, outcome: Option<Outcome>)
      modifies this
      ensures var r := DominoRules.ProcessGameTurn(old(State()), action);
        && State() == r.after && applied == r.Applied?
        && (r.Applied? ==> drawn == r.drawn && outcome == r.outcome)
        && (r.Refused? ==> drawn == None && outcome == None)
    {
      applied, drawn, outcome := false, None, None;
      if mutationsLocked || status == Completed {
        return;
      }
      match action {
        case Play(player, tile, atLeft) =>
          applied := PlayTile(player, tile, atLeft);
        case DrawOne(player) =>
          drawn := DrawFromBoneyard(player);
          applied := drawn.Some?;
        case Pass(player) =>
          applied := PassTurn(player);
        case Unsupported =>
      }
      if !applied {
        return;
      }
      if status == Waiting {
        status := Active;
      }
      outcome := EvaluateMatch(this);
      if outcome.Some? {
        LockForCompletion();
      } else if action.Play? {
        RotateTurn();
      }
    }

    method ResetForSetup()
      modifies this
      ensures State() == DominoRules.ResetForSetup(old(State()))
    {
      ghost var was := hands;
      for i := 0 to |hands|
        invariant |hands| == |was| && State() == old(State()).(hands := hands)
        invariant forall k :: 0 <= k < i ==> hands[k] == Cleared(was[k])
        invariant forall k :: i <= k < |was| ==> hands[k] == was[k]
      {
        hands := hands[i := hands[i].(tiles := [], passed := false)];
      }
      gameBoard, boneyard := [], [];
      leftOpenValue, rightOpenValue := -1, -1;
      mutationsLocked := false;
    }

    /** Fisher and Yates's shuffle; choices stands for the generator seeded from the session's name. */
    method ShuffleBoneyardDeterministic(choices: seq<nat>)
      requires InRange(choices, |boneyard|)
      modifies this`boneyard
      ensures boneyard == Shuffle(old(boneyard), choices)
    {
      var i := |boneyard| - 1;
      while i > 0
        invariant |boneyard| == |old(boneyard)| && (i <= 0 || i < |boneyard|)
        invariant i >= 0 ==> Shuffled(boneyard, choices, i) == Shuffle(old(boneyard), choices)
        invariant i < 0 ==> boneyard == old(boneyard) && |boneyard| == 0
      {
        var j := choices[i];
        boneyard := boneyard[i := boneyard[j]][j := boneyard[i]];
        i := i - 1;
      }
    }

    method DealHands(tilesPerPlayer: nat) returns (ok: bool)
      requires |hands| <= |players|
      modifies this`hands, this`boneyard
      ensures var r := DominoRules.DealHands(old(State()), tilesPerPlayer);
        ok == r.Some? && State() == (if ok then r.value else old(State()))
    {
      if |boneyard| < |players| * tilesPerPlayer {
        return false;
      }
      ghost var n, pool, was := tilesPerPlayer, boneyard, hands;
      BlocksFit(|hands|, |players|, n);
      for i := 0 to |hands|
        invariant |hands| == |was| && i * n <= |pool| && boneyard == pool[i * n..]
        invariant State() == old(State()).(hands := hands, boneyard := boneyard)
        invariant forall k :: 0 <= k < i ==> hands[k] == DealtHands(was, pool, n)[k]
        invariant forall k :: i <= k < |was| ==> hands[k] == was[k]
      {
        BlockFits(i, |hands|, n);
        DropTwice(pool, i * n, n);
        hands := hands[i := hands[i].(tiles := boneyard[..tilesPerPlayer])];
        boneyard := boneyard[tilesPerPlayer..];
      }
      assert hands == DealtHands(was, pool, n);
      ok := true;
    }

    method SeatPlayers(playerUIDs: seq<string>)
      modifies this`players, this`hands
      ensures State() == Seat(old(State()), playerUIDs)
    {
      ghost var seated := Seat(State(), playerUIDs);
      if |players| == 0 {
        players := playerUIDs;
      }
      if |hands| == 0 {
        for i := 0 to |playerUIDs|
          invariant State() == seated.(hands := hands)
          invariant hands == seated.hands[..i]
        {
          hands := hands + [Hand(playerUIDs[i], [], false, false)];
        }
        assert seated.hands[..|playerUIDs|] == seated.hands;
      }
    }

    /** What ApplyReplicatedStartMatch does to the session it finds or creates. */
    method StartMatch(playerUIDs: seq<string>, setupGame: bool, tilesPerHand: int, choices: seq<nat>) returns (ok: bool)
      requires InRange(choices, |DoubleSix()|)
      requires var s := Seat(State(), playerUIDs); |s.hands| <= |s.players|
      modifies this
      ensures ok ==> |playerUIDs| > 0
      ensures |playerUIDs| == 0 ==> State() == old(State())
      ensures |playerUIDs| > 0 ==>
        var s := Seat(old(State()), playerUIDs);
        if setupGame then
          var r := SetupGame(s, choices, if tilesPerHand <= 0 then 7 else tilesPerHand);
          State() == r.after && ok == r.Applied?
        else ok && State() == (if s.status == Unset then s.(status := Waiting) else s)
    {
      hide Shuffle, DoubleSix, DominoRules.DealHands, Seat;
      if |playerUIDs| == 0 {
        return false;
      }
      var perHand := if tilesPerHand <= 0 then 7 else tilesPerHand;
      SeatPlayers(playerUIDs);
      if setupGame {
        ResetForSetup();
        boneyard := StandardDoubleSixDeck();
        ShuffleBoneyardDeterministic(choices);
        var dealt := DealHands(perHand);
        if !dealt {
          return false;
        }
        status := Active;
        if currentTurn == "" && |players| > 0 {
          currentTurn := players[0];
        }
      } else if status == Unset {
        status := Waiting;
      }
      ok := true;
    }

    method HandlePlayerAbandoned(playerId: string) returns (known: bool, outcome: Option<Outcome>)
      modifies this
      ensures known == (HandOf(old(hands), playerId) < |old(hands)|)
      ensures (State(), outcome) == DominoRules.HandlePlayerAbandoned(old(State()), playerId)
    {
      outcome := None;
      var h := FindHand(playerId);
      if h == |hands| {
        return false, None;
      }
      hands := hands[h := hands[h].(abandoned := true)];
      if currentTurn == playerId {
        assert hands[h].player == playerId;
        var passed := PassTurn(playerId);
        if !passed {
          assert false;
        }
      }
      known := true;
      if mutationsLocked {
        return;
      }
      outcome := EvaluateMatch(this);
      if outcome.Some? {
        LockForCompletion();
      }
    }
  }

  method FindTile(tiles: seq<Tile>, id: string) returns (i: nat)
    ensures i == TileAt(tiles, id)
  {
    i := 0;
    while i < |tiles|
      invariant i <= |tiles| && i <= TileAt(tiles, id)
    {
      if tiles[i].id == id {
        break;
      }
      i := i + 1;
    }
  }

  lemma DropTwice<T>(s: seq<T>, a: nat, b: nat)
    requires a + b <= |s|
    ensures s[a..][b..] == s[a + b..] && s[a..][..b] == s[a..a + b]
  {
  }

  method StandardDoubleSixDeck() returns (deck: seq<Tile>)
    ensures deck == DoubleSix()
  {
    hide NewTile;
    deck := [];
    var i := 0;
    while i <= 6
      invariant i <= 7 && deck + DeckFrom(i) == DoubleSix()
    {
      var j := i;
      while j <= 6
        invariant i <= j <= 7 && deck + (DeckRow(i, j) + DeckFrom(i + 1)) == DoubleSix()
      {
        AppendOne(deck, NewTile(i, j), DeckRow(i, j + 1), DeckFrom(i + 1));
        deck := deck + [NewTile(i, j)];
        j := j + 1;
      }
      assert DeckRow(i, j) + DeckFrom(i + 1) == DeckFrom(i + 1);
      i := i + 1;
    }
  }

  lemma AppendOne<T>(a: seq<T>, x: T, b: seq<T>, c: seq<T>)
    ensures a + (([x] + b) + c) == (a + [x]) + (b + c)
  {
  }

  // ---- evaluation -------------------------------------------------------------------------------

  method ComputeHandScores(hands: seq<Hand>) returns (scores: map<string, int>)
    ensures scores == ScoresOf(hands)
  {
    scores := map[];
    for i := 0 to |hands|
      invariant scores == ScoresOf(hands[..i])
    {
      var total := 0;
      var tiles := hands[i].tiles;
      for k := 0 to |tiles|
        invariant total == Pips(tiles[..k])
      {
        assert tiles[..k + 1][..k] == tiles[..k];
        total := total + tiles[k].left + tiles[k].right;
      }
      assert tiles[..|tiles|] == tiles;
      assert hands[..i + 1][..i] == hands[..i];
      scores := scores[hands[i].player := total];
    }
    assert hands[..|hands|] == hands;
  }

  method ActiveNonAbandonedPlayers(hands: seq<Hand>) returns (out: seq<string>)
    ensures out == ActivePlayers(hands)
  {
    out := [];
    for i := 0 to |hands|
      invariant out == ActivePlayers(hands[..i])
    {
      assert hands[..i + 1][..i] == hands[..i];
      if !hands[i].abandoned {
        out := out + [hands[i].player];
      }
    }
    assert hands[..|hands|] == hands;
  }

  method AllActivePlayersPassed(hands: seq<Hand>) returns (all: bool)
    ensures all == AllPassed(hands)
  {
    var active, passed := 0, 0;
    for i := 0 to |hands|
      invariant 0 <= passed <= active
      invariant active > 0 <==> exists k :: 0 <= k < i && !hands[k].abandoned
      invariant passed == active <==> forall k :: 0 <= k < i && !hands[k].abandoned ==> hands[k].passed
    {
      if hands[i].abandoned {
        continue;
      }
      active := active + 1;
      if hands[i].passed {
        passed := passed + 1;
      }
    }
    all := active > 0 && passed == active;
  }

  method LowestPips(hands: seq<Hand>) returns (winner: string)
    ensures winner == LowestPipPlayer(hands)
  {
    var scores := ComputeHandScores(hands);
    var lowest := -1;
    winner := "";
    ScoresCover(hands);
    for i := 0 to |hands|
      invariant (winner, lowest) == Lowest(hands[..i], scores)
    {
      assert hands[..i + 1][..i] == hands[..i];
      if hands[i].abandoned {
        continue;
      }
      var pips := scores[hands[i].player];
      if winner == "" || pips < lowest {
        winner := hands[i].player;
        lowest := pips;
      }
    }
    assert hands[..|hands|] == hands;
  }

  method EvaluateMatch(session: GameSession) returns (outcome: Option<Outcome>)
    ensures outcome == Evaluation(session.State())
  {
    var hands := session.hands;
    var i := 0;
    while i < |hands|
      invariant i <= |hands| && i <= FirstEmpty(hands)
    {
      if !hands[i].abandoned && |hands[i].tiles| == 0 {
        var scores := ComputeHandScores(hands);
        return Some(Outcome(session.sessionId, hands[i].player, scores, EmptyHand));
      }
      i := i + 1;
    }
    var active := ActiveNonAbandonedPlayers(hands);
    if |active| == 1 {
      var scores := ComputeHandScores(hands);
      return Some(Outcome(session.sessionId, active[0], scores, Forfeit));
    }
    if |session.boneyard| == 0 {
      var all := AllActivePlayersPassed(hands);
      if all {
        var winner := LowestPips(hands);
        var scores := ComputeHandScores(hands);
        return Some(Outcome(session.sessionId, winner, scores, Blocked));
      }
    }
    outcome := None;
  }
}
