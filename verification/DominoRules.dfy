/**
 * The domino match as a state and what each operation of pkg/models/game_methods.go and
 * pkg/models/evaluation.go makes of it. GameSession (DominoSession.dfy) is proved to do exactly this.
 */
module DominoRules {
  import opened Basics

  /** ValueLeft and ValueRight as the tile lies on the table; ID names the tile whichever way it lies. */
  datatype Tile = Tile(id: string, left: int, right: int)

  datatype Hand = Hand(player: string, tiles: seq<Tile>, passed: bool, abandoned: bool)

  datatype Status = Unset | Waiting | Active | Completed

  datatype Session = Session(
    id: string,
    status: Status,
    players: seq<string>,
    hands: seq<Hand>,
    boneyard: seq<Tile>,
    board: seq<Tile>,
    left: int,
    right: int,
    turn: string,
    locked: bool)

  datatype Action =
    | Play(player: string, tile: Tile, atLeft: bool)
    | DrawOne(player: string)
    | Pass(player: string)
    | Unsupported

  datatype Reason = EmptyHand | Forfeit | Blocked

  datatype Outcome = Outcome(matchId: string, winner: string, scores: map<string, int>, reason: Reason)

  /** Refused carries the session too: a refused draw may have changed it. */
  datatype TurnResult =
    | Refused(after: Session)
    | Applied(after: Session, drawn: Option<Tile>, outcome: Option<Outcome>)

  // ---- tiles and hands --------------------------------------------------------------------------

  function Flip(t: Tile): Tile {
    Tile(t.id, t.right, t.left)
  }

  /** The first hand of a player; the number of hands when there is none. */
  function HandOf(hands: seq<Hand>, player: string): (i: nat)
    ensures i <= |hands|
    ensures i < |hands| ==> hands[i].player == player
    ensures forall k :: 0 <= k < i ==> hands[k].player != player
  {
    if |hands| == 0 || hands[0].player == player then 0 else 1 + HandOf(hands[1..], player)
  }

  function TileAt(tiles: seq<Tile>, id: string): (i: nat)
    ensures i <= |tiles|
    ensures i < |tiles| ==> tiles[i].id == id
    ensures forall k :: 0 <= k < i ==> tiles[k].id != id
  {
    if |tiles| == 0 || tiles[0].id == id then 0 else 1 + TileAt(tiles[1..], id)
  }

  function IndexOf(names: seq<string>, name: string): (i: nat)
    ensures i <= |names|
    ensures i < |names| ==> names[i] == name
    ensures forall k :: 0 <= k < i ==> names[k] != name
  {
    if |names| == 0 || names[0] == name then 0 else 1 + IndexOf(names[1..], name)
  }

  function Without<T>(s: seq<T>, i: nat): seq<T>
    requires i < |s|
  {
    s[..i] + s[i + 1..]
  }

  // ---- the board --------------------------------------------------------------------------------

  /** What CanPlay decides, from the cached open values alone. */
  predicate CanPlay(left: int, right: int, t: Tile, atLeft: bool) {
    if left == -1 && right == -1 then true
    else if atLeft then t.left == left || t.right == left
    else t.left == right || t.right == right
  }

  /** The tile is turned, if need be, and put down; the open value on its side follows. */
  function PutDown(s: Session, t: Tile, atLeft: bool): Session {
    if s.left == -1 && s.right == -1 then s.(board := s.board + [t], left := t.left, right := t.right)
    else if atLeft then
      var o := if t.right != s.left then Flip(t) else t;
      s.(board := [o] + s.board, left := o.left)
    else
      var o := if t.left != s.right then Flip(t) else t;
      s.(board := s.board + [o], right := o.right)
  }

  // ---- turns ------------------------------------------------------------------------------------

  function PlayTile(s: Session, player: string, t: Tile, atLeft: bool): Option<Session> {
    var h := HandOf(s.hands, player);
    if s.turn != player || !CanPlay(s.left, s.right, t, atLeft) || h == |s.hands| then None
    else
      var i := TileAt(s.hands[h].tiles, t.id);
      if i == |s.hands[h].tiles| then None
      else
        var hand := s.hands[h].(tiles := Without(s.hands[h].tiles, i), passed := false);
        Some(PutDown(s, t, atLeft).(hands := s.hands[h := hand]))
  }

  /** The tile leaves the boneyard before the hand is looked for. */
  function DrawFromBoneyard(s: Session, player: string): (Session, Option<Tile>) {
    if s.turn != player || |s.boneyard| == 0 then (s, None)
    else
      var t := s.boneyard[0];
      var s1 := s.(boneyard := s.boneyard[1..]);
      var h := HandOf(s.hands, player);
      if h == |s.hands| then (s1, None)
      else (s1.(hands := s.hands[h := s.hands[h].(tiles := s.hands[h].tiles + [t], passed := false)]), Some(t))
  }

  function RotateTurn(s: Session): (r: Session)
    ensures r == s.(turn := r.turn)
  {
    if |s.players| == 0 then s
    else
      var i := IndexOf(s.players, s.turn);
      if i == |s.players| then s.(turn := s.players[0])
      else s.(turn := s.players[(i + 1) % |s.players|])
  }

  function PassTurn(s: Session, player: string): (r: Option<Session>)
    ensures r.Some? ==> r.value == s.(hands := r.value.hands, turn := r.value.turn)
  {
    var h := HandOf(s.hands, player);
    if s.turn != player || h == |s.hands| then None
    else Some(RotateTurn(s.(hands := s.hands[h := s.hands[h].(passed := true)])))
  }

  // ---- evaluation -------------------------------------------------------------------------------

  function Pips(tiles: seq<Tile>): int {
    if |tiles| == 0 then 0 else Pips(tiles[..|tiles| - 1]) + tiles[|tiles| - 1].left + tiles[|tiles| - 1].right
  }

  function ScoresOf(hands: seq<Hand>): map<string, int> {
    if |hands| == 0 then map[]
    else ScoresOf(hands[..|hands| - 1])[hands[|hands| - 1].player := Pips(hands[|hands| - 1].tiles)]
  }

  function ActivePlayers(hands: seq<Hand>): seq<string> {
    if |hands| == 0 then []
    else
      var last := hands[|hands| - 1];
      ActivePlayers(hands[..|hands| - 1]) + (if last.abandoned then [] else [last.player])
  }

  predicate AllPassed(hands: seq<Hand>) {
    && (exists i :: 0 <= i < |hands| && !hands[i].abandoned)
    && (forall i :: 0 <= i < |hands| && !hands[i].abandoned ==> hands[i].passed)
  }

  /** The running winner and lowest score after the given hands; the empty name stands for no winner yet. */
  function Lowest(hands: seq<Hand>, scores: map<string, int>): (string, int)
    requires forall i :: 0 <= i < |hands| ==> hands[i].player in scores
  {
    if |hands| == 0 then ("", -1)
    else
      var (winner, lowest) := Lowest(hands[..|hands| - 1], scores);
      var last := hands[|hands| - 1];
      if !last.abandoned && (winner == "" || scores[last.player] < lowest) then (last.player, scores[last.player])
      else (winner, lowest)
  }

  lemma {:induction false} ScoresCover(hands: seq<Hand>)
    ensures forall i :: 0 <= i < |hands| ==> hands[i].player in ScoresOf(hands)
  {
    if |hands| > 0 {
      ScoresCover(hands[..|hands| - 1]);
      assert forall i :: 0 <= i < |hands| - 1 ==> hands[..|hands| - 1][i] == hands[i];
    }
  }

  function LowestPipPlayer(hands: seq<Hand>): string {
    ScoresCover(hands);
    Lowest(hands, ScoresOf(hands)).0
  }

  /** The first hand still in play that holds no tile; the number of hands when there is none. */
  function FirstEmpty(hands: seq<Hand>): (i: nat)
    ensures i <= |hands|
    ensures i < |hands| ==> !hands[i].abandoned && hands[i].tiles == []
    ensures forall k :: 0 <= k < i ==> hands[k].abandoned || hands[k].tiles != []
  {
    if |hands| == 0 || (!hands[0].abandoned && hands[0].tiles == []) then 0 else 1 + FirstEmpty(hands[1..])
  }

  function Evaluation(s: Session): Option<Outcome> {
    var e := FirstEmpty(s.hands);
    var active := ActivePlayers(s.hands);
    if e < |s.hands| then Some(Outcome(s.id, s.hands[e].player, ScoresOf(s.hands), EmptyHand))
    else if |active| == 1 then Some(Outcome(s.id, active[0], ScoresOf(s.hands), Forfeit))
    else if |s.boneyard| == 0 && AllPassed(s.hands) then
      Some(Outcome(s.id, LowestPipPlayer(s.hands), ScoresOf(s.hands), Blocked))
    else None
  }

  // ---- the whole turn ---------------------------------------------------------------------------

  /** What follows an action that was carried out: the match starts, ends, or the next player is up. */
  function Conclude(s: Session, drawn: Option<Tile>, rotate: bool): (r: TurnResult)
    ensures r.Applied? && r.drawn == drawn
    ensures r.after == s.(status := r.after.status, locked := r.after.locked, turn := r.after.turn)
  {
    var s1 := if s.status == Waiting then s.(status := Active) else s;
    var outcome := Evaluation(s1);
    if outcome.Some? then Applied(s1.(locked := true, status := Completed), drawn, outcome)
    else Applied(if rotate then RotateTurn(s1) else s1, drawn, None)
  }

  function ProcessGameTurn(s: Session, a: Action): TurnResult {
    if s.locked || s.status == Completed then Refused(s)
    else
      match a
      case Play(player, tile, atLeft) =>
        var played := PlayTile(s, player, tile, atLeft);
        if played.None? then Refused(s) else Conclude(played.value, None, true)
      case DrawOne(player) =>
        var (s1, drawn) := DrawFromBoneyard(s, player);
        if drawn.None? then Refused(s1) else Conclude(s1, drawn, false)
      case Pass(player) =>
        var passed := PassTurn(s, player);
        if passed.None? then Refused(s) else Conclude(passed.value, None, false)
      case Unsupported => Refused(s)
  }

  // ---- abandonment ------------------------------------------------------------------------------

  /** The player's hand is marked and, if it was their turn, play moves on. */
  function MarkAbandoned(s: Session, player: string): (r: Option<Session>)
    ensures r.Some? ==> r.value == s.(hands := r.value.hands, turn := r.value.turn)
  {
    var h := HandOf(s.hands, player);
    if h == |s.hands| then None
    else
      var s1 := s.(hands := s.hands[h := s.hands[h].(abandoned := true)]);
      if s.turn != player then Some(s1)
      else
        var passed := PassTurn(s1, player);
        Some(if passed.Some? then passed.value else RotateTurn(s1))
  }

  function FinalizeIfOver(s: Session): (r: (Session, Option<Outcome>))
    ensures r.0 == s.(status := r.0.status, locked := r.0.locked)
  {
    if s.locked then (s, None)
    else
      var outcome := Evaluation(s);
      if outcome.Some? then (s.(locked := true, status := Completed), outcome) else (s, None)
  }

  /** An unknown player leaves the session alone. */
  function HandlePlayerAbandoned(s: Session, player: string): (Session, Option<Outcome>) {
    var marked := MarkAbandoned(s, player);
    if marked.None? then (s, None) else FinalizeIfOver(marked.value)
  }

  // ---- setting up -------------------------------------------------------------------------------

  function Digit(i: nat): char
    requires i <= 9
  {
    ('0' as int + i) as char
  }

  function NewTile(left: nat, right: nat): Tile
    requires left <= 9 && right <= 9
  {
    Tile([Digit(left), '-', Digit(right)], left, right)
  }

  /** The tiles with left value i, from right value j on. */
  function DeckRow(i: nat, j: nat): seq<Tile>
    requires i <= 6
    decreases 7 - j
  {
    if j > 6 then [] else [NewTile(i, j)] + DeckRow(i, j + 1)
  }

  function DeckFrom(i: nat): seq<Tile>
    decreases 7 - i
  {
    if i > 6 then [] else DeckRow(i, i) + DeckFrom(i + 1)
  }

  function DoubleSix(): seq<Tile> {
    DeckFrom(0)
  }

  function Swap<T>(s: seq<T>, i: nat, j: nat): seq<T>
    requires i < |s| && j < |s|
  {
    s[i := s[j]][j := s[i]]
  }

  /** choices[i] is what the generator answers when asked for a number up to i. */
  predicate InRange(choices: seq<nat>, n: nat) {
    |choices| >= n && forall i :: 0 <= i < n ==> choices[i] <= i
  }

  /** The exchanges for positions i down to 1. */
  function Shuffled<T>(s: seq<T>, choices: seq<nat>, i: nat): seq<T>
    requires InRange(choices, |s|) && (i == 0 || i < |s|)
    decreases i
  {
    if i == 0 then s else Shuffled(Swap(s, i, choices[i]), choices, i - 1)
  }

  function Shuffle<T>(s: seq<T>, choices: seq<nat>): seq<T>
    requires InRange(choices, |s|)
  {
    if |s| == 0 then s else Shuffled(s, choices, |s| - 1)
  }

  function Cleared(h: Hand): Hand {
    h.(tiles := [], passed := false)
  }

  function ResetForSetup(s: Session): Session {
    s.(hands := seq(|s.hands|, i requires 0 <= i < |s.hands| => Cleared(s.hands[i])),
       board := [], boneyard := [], left := -1, right := -1, locked := false)
  }

  /** Hand i receives the i-th block of n tiles. */
  function DealtHands(hands: seq<Hand>, boneyard: seq<Tile>, n: nat): seq<Hand>
    requires |hands| * n <= |boneyard|
  {
    seq(|hands|, i requires 0 <= i < |hands| =>
      BlockFits(i, |hands|, n);
      hands[i].(tiles := boneyard[i * n..(i + 1) * n]))
  }

  lemma BlockFits(i: nat, count: nat, n: nat)
    requires i < count
    ensures i * n <= (i + 1) * n <= count * n
  {
  }

  /** Refused when the boneyard is too small for the listed players. */
  function DealHands(s: Session, n: nat): Option<Session>
    requires |s.hands| <= |s.players|
  {
    if |s.boneyard| < |s.players| * n then None
    else
      BlocksFit(|s.hands|, |s.players|, n);
      Some(s.(hands := DealtHands(s.hands, s.boneyard, n), boneyard := s.boneyard[|s.hands| * n..]))
  }

  lemma BlocksFit(few: nat, many: nat, n: nat)
    requires few <= many
    ensures few * n <= many * n
  {
  }

  function NewSession(id: string, players: seq<string>): Session {
    Session(id, Waiting, players, seq(|players|, i requires 0 <= i < |players| => Hand(players[i], [], false, false)),
            [], [], -1, -1, "", false)
  }

  /** Players and hands are filled in where a session lacks them. */
  function Seat(s: Session, names: seq<string>): Session {
    var s1 := if |s.players| == 0 then s.(players := names) else s;
    if |s1.hands| == 0
    then s1.(hands := seq(|names|, i requires 0 <= i < |names| => Hand(names[i], [], false, false)))
    else s1
  }

  /** A fresh deck, shuffled and dealt; the session is refused, deck undealt, when there are too few tiles. */
  function SetupGame(s: Session, choices: seq<nat>, n: nat): TurnResult
    requires |s.hands| <= |s.players| && InRange(choices, |DoubleSix()|)
  {
    var s1 := ResetForSetup(s).(boneyard := Shuffle(DoubleSix(), choices));
    var dealt := DealHands(s1, n);
    if dealt.None? then Refused(s1)
    else
      var s2 := dealt.value.(status := Active);
      Applied(if s2.turn == "" && |s2.players| > 0 then s2.(turn := s2.players[0]) else s2, None, None)
  }
}
