/**
 * No tile is made or lost. Tiles are counted either by their identifier or by identifier and pips,
 * whichever way they lie; the same proofs serve both counts.
 */
module DominoTiles {
  import opened Basics
  import opened DominoRules

  datatype Key = Key(id: string, low: int, high: int)

  function KeyOf(t: Tile, faces: bool): Key {
    if faces then Key(t.id, Min(t.left, t.right), Max(t.left, t.right)) else Key(t.id, 0, 0)
  }

  function One(t: Tile, k: Key, faces: bool): nat {
    if KeyOf(t, faces) == k then 1 else 0
  }

  function Count(tiles: seq<Tile>, k: Key, faces: bool): nat {
    if |tiles| == 0 then 0 else Count(tiles[..|tiles| - 1], k, faces) + One(tiles[|tiles| - 1], k, faces)
  }

  function HandCount(hands: seq<Hand>, k: Key, faces: bool): nat {
    if |hands| == 0 then 0
    else HandCount(hands[..|hands| - 1], k, faces) + Count(hands[|hands| - 1].tiles, k, faces)
  }

  /** How many tiles of the session have the key: in the hands, in the boneyard, on the board. */
  function Total(s: Session, k: Key, faces: bool): nat {
    HandCount(s.hands, k, faces) + Count(s.boneyard, k, faces) + Count(s.board, k, faces)
  }

  ghost predicate SameTotals(s: Session, s': Session, faces: bool) {
    forall k :: Total(s', k, faces) == Total(s, k, faces)
  }

  // ---- counting ---------------------------------------------------------------------------------

  lemma {:induction false} CountConcat(a: seq<Tile>, b: seq<Tile>, k: Key, faces: bool)
    ensures Count(a + b, k, faces) == Count(a, k, faces) + Count(b, k, faces)
  {
    if |b| == 0 {
      assert a + b == a;
    } else {
      var n := |b| - 1;
      assert (a + b)[..|a + b| - 1] == a + b[..n];
      CountConcat(a, b[..n], k, faces);
    }
  }

  lemma CountOne(t: Tile, k: Key, faces: bool)
    ensures Count([t], k, faces) == One(t, k, faces)
    ensures One(Flip(t), k, faces) == One(t, k, faces)
  {
    assert Count([t][..0], k, faces) == 0;
  }

  lemma CountSplit(tiles: seq<Tile>, i: nat, k: Key, faces: bool)
    requires i < |tiles|
    ensures Count(tiles, k, faces)
         == Count(tiles[..i], k, faces) + One(tiles[i], k, faces) + Count(tiles[i + 1..], k, faces)
  {
    assert tiles == tiles[..i] + [tiles[i]] + tiles[i + 1..];
    CountConcat(tiles[..i] + [tiles[i]], tiles[i + 1..], k, faces);
    CountConcat(tiles[..i], [tiles[i]], k, faces);
    CountOne(tiles[i], k, faces);
  }

  lemma CountWithout(tiles: seq<Tile>, i: nat, k: Key, faces: bool)
    requires i < |tiles|
    ensures Count(tiles, k, faces) == Count(Without(tiles, i), k, faces) + One(tiles[i], k, faces)
  {
    CountSplit(tiles, i, k, faces);
    CountConcat(tiles[..i], tiles[i + 1..], k, faces);
  }

  lemma CountUpdate(tiles: seq<Tile>, i: nat, t: Tile, k: Key, faces: bool)
    requires i < |tiles|
    ensures Count(tiles[i := t], k, faces) + One(tiles[i], k, faces) == Count(tiles, k, faces) + One(t, k, faces)
  {
    CountSplit(tiles, i, k, faces);
    CountSplit(tiles[i := t], i, k, faces);
    assert tiles[i := t][..i] == tiles[..i] && tiles[i := t][i + 1..] == tiles[i + 1..];
  }

  lemma {:induction false} HandCountUpdate(hands: seq<Hand>, h: nat, hand: Hand, k: Key, faces: bool)
    requires h < |hands|
    ensures HandCount(hands[h := hand], k, faces) + Count(hands[h].tiles, k, faces)
         == HandCount(hands, k, faces) + Count(hand.tiles, k, faces)
  {
    var n := |hands| - 1;
    if h == n {
      assert hands[h := hand][..n] == hands[..n];
    } else {
      assert hands[h := hand][..n] == hands[..n][h := hand];
      HandCountUpdate(hands[..n], h, hand, k, faces);
    }
  }

  // ---- turns ------------------------------------------------------------------------------------

  lemma PutDownAdds(s: Session, t: Tile, atLeft: bool, k: Key, faces: bool)
    ensures Count(PutDown(s, t, atLeft).board, k, faces) == Count(s.board, k, faces) + One(t, k, faces)
  {
    hide Count, One;
    CountConcat(s.board, [t], k, faces);
    CountConcat(s.board, [Flip(t)], k, faces);
    CountConcat([t], s.board, k, faces);
    CountConcat([Flip(t)], s.board, k, faces);
    CountOne(t, k, faces);
    CountOne(Flip(t), k, faces);
  }

  /** The tile the acting player's hand gives up for a play. */
  function Held(s: Session, a: Action): (t: Tile)
    requires a.Play? && PlayTile(s, a.player, a.tile, a.atLeft).Some?
    ensures t.id == a.tile.id
  {
    var tiles := s.hands[HandOf(s.hands, a.player)].tiles;
    tiles[TileAt(tiles, a.tile.id)]
  }

  /** The hand gives up a tile with the submitted identifier; the board gains the tile as submitted. */
  lemma PlayMoves(s: Session, a: Action, k: Key, faces: bool)
    requires a.Play? && PlayTile(s, a.player, a.tile, a.atLeft).Some?
    ensures Total(PlayTile(s, a.player, a.tile, a.atLeft).value, k, faces) + One(Held(s, a), k, faces)
         == Total(s, k, faces) + One(a.tile, k, faces)
  {
    hide HandOf, TileAt, Without, Count, HandCount, One, PutDown;
    var h := HandOf(s.hands, a.player);
    var i := TileAt(s.hands[h].tiles, a.tile.id);
    CountWithout(s.hands[h].tiles, i, k, faces);
    var hand := s.hands[h].(tiles := Without(s.hands[h].tiles, i), passed := false);
    HandCountUpdate(s.hands, h, hand, k, faces);
    PutDownAdds(s, a.tile, a.atLeft, k, faces);
    PutDownFrame(s, a.tile, a.atLeft);
  }

  lemma PutDownFrame(s: Session, t: Tile, atLeft: bool)
    ensures PutDown(s, t, atLeft).boneyard == s.boneyard
  {
  }

  lemma DrawMoves(s: Session, player: string, k: Key, faces: bool)
    ensures var (s', drawn) := DrawFromBoneyard(s, player);
      Total(s, k, faces) == Total(s', k, faces)
        + (if drawn.None? && s.turn == player && |s.boneyard| > 0 then One(s.boneyard[0], k, faces) else 0)
  {
    hide HandOf, Count, HandCount, One;
    if s.turn == player && |s.boneyard| > 0 {
      var t := s.boneyard[0];
      assert s.boneyard == [t] + s.boneyard[1..];
      CountConcat([t], s.boneyard[1..], k, faces);
      CountOne(t, k, faces);
      var h := HandOf(s.hands, player);
      if h < |s.hands| {
        CountConcat(s.hands[h].tiles, [t], k, faces);
        HandCountUpdate(s.hands, h, s.hands[h].(tiles := s.hands[h].tiles + [t], passed := false), k, faces);
      }
    }
  }

  lemma PassMoves(s: Session, player: string, k: Key, faces: bool)
    ensures PassTurn(s, player).Some? ==> Total(PassTurn(s, player).value, k, faces) == Total(s, k, faces)
  {
    hide HandOf, Count, HandCount, One, DominoRules.RotateTurn;
    var h := HandOf(s.hands, player);
    if h < |s.hands| {
      HandCountUpdate(s.hands, h, s.hands[h].(passed := true), k, faces);
    }
  }

  /** A draw by the player whose turn it is, who has no hand: the tile is gone. */
  predicate LosesTile(s: Session, a: Action) {
    && a.DrawOne? && !s.locked && s.status != Completed
    && s.turn == a.player && |s.boneyard| > 0 && HandOf(s.hands, a.player) == |s.hands|
  }

  predicate Accepted(s: Session, a: Action) {
    a.Play? && !s.locked && s.status != Completed && PlayTile(s, a.player, a.tile, a.atLeft).Some?
  }

  /** The tile put down shows the pips of the tile given up. */
  predicate Honest(s: Session, a: Action) {
    Accepted(s, a) ==> KeyOf(Held(s, a), true) == KeyOf(a.tile, true)
  }

  /** How a turn changes one count: only a dishonest play or a lost draw does. */
  lemma TurnMoves(s: Session, a: Action, k: Key, faces: bool)
    ensures Total(ProcessGameTurn(s, a).after, k, faces)
              + (if Accepted(s, a) then One(Held(s, a), k, faces) else 0)
              + (if LosesTile(s, a) then One(s.boneyard[0], k, faces) else 0)
         == Total(s, k, faces) + (if Accepted(s, a) then One(a.tile, k, faces) else 0)
  {
    hide HandOf, PlayTile, Conclude, DominoRules.PassTurn, Held, One, HandCount, Count;
    if !(s.locked || s.status == Completed) {
      match a {
        case Play(player, tile, atLeft) =>
          if PlayTile(s, player, tile, atLeft).Some? {
            PlayMoves(s, a, k, faces);
          }
        case DrawOne(player) => DrawMoves(s, player, k, faces);
        case Pass(player) => PassMoves(s, player, k, faces);
        case Unsupported =>
      }
    }
  }

  /**
   * A turn, accepted or not, keeps the count of every identifier unless it draws for a player without a
   * hand; it keeps the pips too exactly when, besides, the tile submitted shows the pips of the one given up.
   */
  lemma TurnConservesIff(s: Session, a: Action, faces: bool)
    ensures SameTotals(s, ProcessGameTurn(s, a).after, faces) <==> !LosesTile(s, a) && (faces ==> Honest(s, a))
  {
    hide HandOf, PlayTile, Total, ProcessGameTurn;
    if !LosesTile(s, a) && (faces ==> Honest(s, a)) {
      forall k ensures Total(ProcessGameTurn(s, a).after, k, faces) == Total(s, k, faces) {
        TurnMoves(s, a, k, faces);
      }
    } else {
      var k := KeyOf(if Accepted(s, a) then Held(s, a) else s.boneyard[0], faces);
      TurnMoves(s, a, k, faces);
      assert Total(ProcessGameTurn(s, a).after, k, faces) != Total(s, k, faces);
    }
  }

  lemma AbandonmentConserves(s: Session, player: string, faces: bool)
    ensures SameTotals(s, HandlePlayerAbandoned(s, player).0, faces)
  {
    hide FinalizeIfOver, DominoRules.PassTurn, HandOf, Count, HandCount;
    var h := HandOf(s.hands, player);
    if h < |s.hands| {
      var hand := s.hands[h].(abandoned := true);
      forall k ensures Total(HandlePlayerAbandoned(s, player).0, k, faces) == Total(s, k, faces) {
        HandCountUpdate(s.hands, h, hand, k, faces);
        PassMoves(s.(hands := s.hands[h := hand]), player, k, faces);
      }
    }
  }

  // ---- setting up -------------------------------------------------------------------------------

  /** However the generator answers, the shuffle only rearranges. */
  lemma {:induction false} ShuffledIsPermutation<T>(s: seq<T>, choices: seq<nat>, i: nat)
    requires InRange(choices, |s|) && (i == 0 || i < |s|)
    ensures multiset(Shuffled(s, choices, i)) == multiset(s)
    decreases i
  {
    if i > 0 {
      ShuffledIsPermutation(Swap(s, i, choices[i]), choices, i - 1);
    }
  }

  lemma ShuffleIsPermutation<T>(s: seq<T>, choices: seq<nat>)
    requires InRange(choices, |s|)
    ensures multiset(Shuffle(s, choices)) == multiset(s) && |Shuffle(s, choices)| == |s|
  {
    if |s| > 0 {
      ShuffledIsPermutation(s, choices, |s| - 1);
    }
    assert |Shuffle(s, choices)| == |multiset(Shuffle(s, choices))|;
  }

  /** Only the choices for the positions still to come matter. */
  lemma {:induction false} ShuffledAlike<T>(s: seq<T>, choices: seq<nat>, others: seq<nat>, i: nat)
    requires InRange(choices, |s|) && InRange(others, |s|) && (i == 0 || i < |s|)
    requires forall k :: 0 < k <= i && k < |s| ==> choices[k] == others[k]
    ensures Shuffled(s, choices, i) == Shuffled(s, others, i)
    decreases i
  {
    if i > 0 {
      ShuffledAlike(Swap(s, i, choices[i]), choices, others, i - 1);
    }
  }

  lemma SwapKeepsFront<T>(s: seq<T>, i: nat, j: nat)
    requires j <= i < |s|
    ensures multiset(Swap(s, i, j)[..i + 1]) == multiset(s[..i + 1])
    ensures Swap(s, i, j)[i] == s[j] && Swap(s, i, j)[i + 1..] == s[i + 1..]
  {
    assert Swap(s, i, j)[..i + 1] == Swap(s[..i + 1], i, j);
  }

  lemma SameButLast<T>(a: seq<T>, b: seq<T>, n: nat)
    requires |a| == |b| == n + 1 && multiset(a) == multiset(b) && a[n] == b[n]
    ensures multiset(a[..n]) == multiset(b[..n])
  {
    assert a == a[..n] + [a[n]] && b == b[..n] + [b[n]];
    assert multiset(a[..n]) == multiset(a) - multiset{a[n]};
    assert multiset(b[..n]) == multiset(b) - multiset{b[n]};
  }

  lemma TailGrows<T>(s: seq<T>, t: seq<T>, i: nat)
    requires i < |s| == |t| && s[i] == t[i] && s[i + 1..] == t[i + 1..]
    ensures s[i..] == t[i..]
  {
    assert s[i..] == [s[i]] + s[i + 1..] && t[i..] == [t[i]] + t[i + 1..];
  }

  /** The exchange that puts the right element at position i. */
  lemma PutInPlace<T>(s: seq<T>, t: seq<T>, i: nat) returns (j: nat)
    requires i < |s| == |t| && s[i + 1..] == t[i + 1..] && multiset(s[..i + 1]) == multiset(t[..i + 1])
    ensures j <= i && Swap(s, i, j)[i..] == t[i..] && multiset(Swap(s, i, j)[..i]) == multiset(t[..i])
  {
    assert t[..i + 1][i] == t[i] && t[i] in multiset(t[..i + 1]);
    j :| j <= i && s[..i + 1][j] == t[i];
    SwapKeepsFront(s, i, j);
    var s' := Swap(s, i, j);
    TailGrows(s', t, i);
    SameButLast(s'[..i + 1], t[..i + 1], i);
    assert s'[..i + 1][..i] == s'[..i] && t[..i + 1][..i] == t[..i];
  }

  lemma {:induction false} ShuffledReaches<T>(s: seq<T>, t: seq<T>, i: nat) returns (choices: seq<nat>)
    requires i < |s| == |t|
    requires s[i + 1..] == t[i + 1..] && multiset(s[..i + 1]) == multiset(t[..i + 1])
    ensures InRange(choices, |s|) && Shuffled(s, choices, i) == t
    decreases i
  {
    var j := PutInPlace(s, t, i);
    if i == 0 {
      choices := seq(|s|, k => 0);
      assert s == s[0..] && t == t[0..] && Swap(s, 0, 0) == s;
    } else {
      var rest := ShuffledReaches(Swap(s, i, j), t, i - 1);
      choices := rest[i := j];
      ShuffledAlike(Swap(s, i, j), choices, rest, i - 1);
    }
  }

  /** And every arrangement is the outcome of some choices. */
  lemma ShuffleReachesAll<T>(s: seq<T>, t: seq<T>) returns (choices: seq<nat>)
    requires multiset(t) == multiset(s)
    ensures InRange(choices, |s|) && Shuffle(s, choices) == t
  {
    assert |s| == |multiset(s)| == |multiset(t)| == |t|;
    choices := [];
    if |s| > 0 {
      assert s[..|s|] == s && t[..|s|] == t;
      choices := ShuffledReaches(s, t, |s| - 1);
    }
  }

  lemma {:induction false} ShuffledCount(s: seq<Tile>, choices: seq<nat>, i: nat, k: Key, faces: bool)
    requires InRange(choices, |s|) && (i == 0 || i < |s|)
    ensures Count(Shuffled(s, choices, i), k, faces) == Count(s, k, faces)
    decreases i
  {
    if i > 0 {
      hide Count, One;
      var j := choices[i];
      CountUpdate(s, i, s[j], k, faces);
      CountUpdate(s[i := s[j]], j, s[i], k, faces);
      ShuffledCount(Swap(s, i, j), choices, i - 1, k, faces);
    }
  }

  /** Hands whose last one holds the stretch of the pool after what the others hold. */
  lemma LastHandCount(hands: seq<Hand>, pool: seq<Tile>, i: nat, j: nat, k: Key, faces: bool)
    requires |hands| > 0 && i <= j <= |pool| && hands[|hands| - 1].tiles == pool[i..j]
    requires HandCount(hands[..|hands| - 1], k, faces) == Count(pool[..i], k, faces)
    ensures HandCount(hands, k, faces) == Count(pool[..j], k, faces)
  {
    hide Count;
    CountStretch(pool, i, j, k, faces);
  }

  predicate Holds(hand: Hand, pool: seq<Tile>, i: nat, j: nat) {
    i <= j <= |pool| && hand.tiles == pool[i..j]
  }

  /** Hands that hold the stretches of the pool between successive cuts. */
  predicate CutInto(hands: seq<Hand>, pool: seq<Tile>, cuts: seq<nat>) {
    && |cuts| == |hands| + 1 && cuts[0] == 0
    && forall i :: 0 <= i < |hands| ==> Holds(hands[i], pool, cuts[i], cuts[i + 1])
  }

  lemma AllButLastCut(hands: seq<Hand>, pool: seq<Tile>, cuts: seq<nat>)
    requires CutInto(hands, pool, cuts) && |hands| > 0
    ensures var m := |hands| - 1;
      && CutInto(hands[..m], pool, cuts[..m + 1])
      && Holds(hands[m], pool, cuts[m], cuts[m + 1])
  {
    hide Holds;
    var m := |hands| - 1;
    forall i | 0 <= i < m ensures Holds(hands[..m][i], pool, cuts[..m + 1][i], cuts[..m + 1][i + 1]) {
      assert Holds(hands[i], pool, cuts[i], cuts[i + 1]);
    }
  }

  lemma {:induction false} CutIntoCount(hands: seq<Hand>, pool: seq<Tile>, cuts: seq<nat>, k: Key, faces: bool)
    requires CutInto(hands, pool, cuts)
    ensures |cuts| == |hands| + 1 && cuts[|hands|] <= |pool|
    ensures HandCount(hands, k, faces) == Count(pool[..cuts[|hands|]], k, faces)
  {
    if |hands| > 0 {
      hide CutInto, Count, HandCount;
      var m := |hands| - 1;
      AllButLastCut(hands, pool, cuts);
      CutIntoCount(hands[..m], pool, cuts[..m + 1], k, faces);
      LastHandCount(hands, pool, cuts[m], cuts[m + 1], k, faces);
    }
  }

  lemma DealtIsCut(hands: seq<Hand>, pool: seq<Tile>, n: nat)
    requires |hands| * n <= |pool|
    ensures CutInto(DealtHands(hands, pool, n), pool, seq(|hands| + 1, i requires 0 <= i => i * n))
  {
    var dealt := DealtHands(hands, pool, n);
    forall i | 0 <= i < |hands| ensures Holds(dealt[i], pool, i * n, (i + 1) * n) {
      BlockFits(i, |hands|, n);
    }
  }

  lemma DealtCount(hands: seq<Hand>, pool: seq<Tile>, n: nat, k: Key, faces: bool)
    requires |hands| * n <= |pool|
    ensures HandCount(DealtHands(hands, pool, n), k, faces) == Count(pool[..|hands| * n], k, faces)
  {
    hide Count, HandCount, CutInto;
    DealtIsCut(hands, pool, n);
    CutIntoCount(DealtHands(hands, pool, n), pool, seq(|hands| + 1, i requires 0 <= i => i * n), k, faces);
  }

  lemma CountStretch(pool: seq<Tile>, i: nat, j: nat, k: Key, faces: bool)
    requires i <= j <= |pool|
    ensures Count(pool[..j], k, faces) == Count(pool[..i], k, faces) + Count(pool[i..j], k, faces)
  {
    assert pool[..j] == pool[..i] + pool[i..j];
    CountConcat(pool[..i], pool[i..j], k, faces);
  }

  lemma CutCount(pool: seq<Tile>, m: nat, k: Key, faces: bool)
    requires m <= |pool|
    ensures Count(pool, k, faces) == Count(pool[..m], k, faces) + Count(pool[m..], k, faces)
  {
    assert pool == pool[..m] + pool[m..];
    CountConcat(pool[..m], pool[m..], k, faces);
  }

  lemma DealSucceedsIff(s: Session, n: nat)
    requires |s.hands| <= |s.players|
    ensures DealHands(s, n).Some? <==> |s.boneyard| >= |s.players| * n
    ensures DealHands(s, n).Some? ==>
      && |s.hands| * n <= |s.boneyard|
      && DealHands(s, n).value
           == s.(hands := DealtHands(s.hands, s.boneyard, n), boneyard := s.boneyard[|s.hands| * n..])
  {
    BlocksFit(|s.hands|, |s.players|, n);
  }

  /** What is dealt and what is left, counted by m, the number of tiles dealt. */
  lemma DealtAndLeft(s: Session, dealt: Session, m: nat, k: Key, faces: bool)
    requires m <= |s.boneyard| && dealt.boneyard == s.boneyard[m..] && dealt.board == s.board
    requires HandCount(dealt.hands, k, faces) == Count(s.boneyard[..m], k, faces)
    ensures Total(dealt, k, faces) + HandCount(s.hands, k, faces) == Total(s, k, faces)
  {
    hide Count, HandCount;
    CutCount(s.boneyard, m, k, faces);
  }

  /** A deal that succeeds loses what the hands held before, and nothing else; one that fails changes nothing. */
  lemma DealLosesOnlyHeld(s: Session, n: nat, k: Key, faces: bool)
    requires |s.hands| <= |s.players|
    ensures var dealt := DealHands(s, n);
      && (dealt.Some? <==> |s.boneyard| >= |s.players| * n)
      && (dealt.Some? ==> Total(dealt.value, k, faces) + HandCount(s.hands, k, faces) == Total(s, k, faces))
  {
    hide Count, HandCount, DealtHands, DominoRules.DealHands, Total;
    DealSucceedsIff(s, n);
    if DealHands(s, n).Some? {
      DealtCount(s.hands, s.boneyard, n, k, faces);
      DealtAndLeft(s, DealHands(s, n).value, |s.hands| * n, k, faces);
    }
  }

  lemma {:induction false} ClearedCount(hands: seq<Hand>, k: Key, faces: bool)
    requires forall i :: 0 <= i < |hands| ==> hands[i].tiles == []
    ensures HandCount(hands, k, faces) == 0
  {
    if |hands| > 0 {
      ClearedCount(hands[..|hands| - 1], k, faces);
    }
  }

  /** Setting up, whether the deal succeeds or not, leaves exactly the double-six set on the table. */
  lemma SetupDealsTheDeck(s: Session, choices: seq<nat>, n: nat, k: Key, faces: bool)
    requires |s.hands| <= |s.players| && InRange(choices, |DoubleSix()|)
    ensures Total(SetupGame(s, choices, n).after, k, faces) == Count(DoubleSix(), k, faces)
  {
    hide DoubleSix, DominoRules.DealHands, HandCount, Shuffled;
    var deck := DoubleSix();
    var s1 := ResetForSetup(s).(boneyard := Shuffle(deck, choices));
    if |deck| > 0 {
      ShuffledCount(deck, choices, |deck| - 1, k, faces);
    }
    ClearedCount(s1.hands, k, faces);
    DealLosesOnlyHeld(s1, n, k, faces);
  }

  // ---- the deck ---------------------------------------------------------------------------------

  lemma {:induction false} RowTiles(i: nat, j: nat)
    requires i <= 6 && j <= 7
    ensures |DeckRow(i, j)| == 7 - j
    ensures forall k :: 0 <= k < 7 - j ==> DeckRow(i, j)[k] == NewTile(i, j + k)
    decreases 7 - j
  {
    if j < 7 {
      RowTiles(i, j + 1);
    }
  }

  predicate TileFound(from: nat, t: Tile) {
    exists i: nat, j: nat :: from <= i <= j <= 6 && t == NewTile(i, j)
  }

  lemma RowMembers(i: nat, t: Tile)
    requires i <= 6
    ensures t in DeckRow(i, i) <==> exists j: nat :: i <= j <= 6 && t == NewTile(i, j)
  {
    RowTiles(i, i);
    if j: nat :| i <= j <= 6 && t == NewTile(i, j) {
      assert DeckRow(i, i)[j - i] == t;
    }
    if t in DeckRow(i, i) {
      var k :| 0 <= k < 7 - i && DeckRow(i, i)[k] == t;
      assert t == NewTile(i, i + k);
    }
  }

  lemma {:induction false} DeckMembers(from: nat, t: Tile)
    requires from <= 7
    ensures t in DeckFrom(from) <==> TileFound(from, t)
    decreases 7 - from
  {
    if from <= 6 {
      hide DeckRow, NewTile;
      RowMembers(from, t);
      DeckMembers(from + 1, t);
      assert DeckFrom(from) == DeckRow(from, from) + DeckFrom(from + 1);
    }
  }

  lemma {:induction false} IdsDiffer(from: nat, a: nat, b: nat)
    requires from <= 7 && a < b < |DeckFrom(from)|
    ensures DeckFrom(from)[a].id != DeckFrom(from)[b].id
    decreases 7 - from
  {
    hide NewTile, DeckRow;
    var row, rest := DeckRow(from, from), DeckFrom(from + 1);
    assert DeckFrom(from) == row + rest;
    RowTiles(from, from);
    if a >= |row| {
      IdsDiffer(from + 1, a - |row|, b - |row|);
    } else if b < |row| {
      DifferentIds(from, from + a, from, from + b);
    } else {
      var u := rest[b - |row|];
      DeckMembers(from + 1, u);
      var i: nat, j: nat :| from + 1 <= i <= j <= 6 && u == NewTile(i, j);
      DifferentIds(from, from + a, i, j);
    }
  }

  lemma DifferentIds(i: nat, j: nat, k: nat, l: nat)
    requires i <= 6 && j <= 6 && k <= 6 && l <= 6 && (i != k || j != l)
    ensures NewTile(i, j).id != NewTile(k, l).id
  {
    assert NewTile(i, j).id[0] == Digit(i) && NewTile(i, j).id[2] == Digit(j);
    assert NewTile(k, l).id[0] == Digit(k) && NewTile(k, l).id[2] == Digit(l);
  }

  lemma DeckSize()
    ensures |DoubleSix()| == 28
  {
    RowTiles(0, 0);
    RowTiles(1, 1);
    RowTiles(2, 2);
    RowTiles(3, 3);
    RowTiles(4, 4);
    RowTiles(5, 5);
    RowTiles(6, 6);
    assert |DeckFrom(4)| == 6;
    assert |DeckFrom(2)| == 15;
  }

  /** The double-six set: 28 tiles, every pair of pips from 0 to 6 once, each with its own identifier. */
  lemma DeckIsDoubleSix()
    ensures |DoubleSix()| == 28
    ensures forall t :: t in DoubleSix() <==> exists i: nat, j: nat :: i <= j <= 6 && t == NewTile(i, j)
    ensures forall a, b :: 0 <= a < b < 28 ==> DoubleSix()[a].id != DoubleSix()[b].id
  {
    hide DeckFrom, NewTile;
    DeckSize();
    forall t ensures t in DoubleSix() <==> exists i: nat, j: nat :: i <= j <= 6 && t == NewTile(i, j) {
      DeckMembers(0, t);
    }
    forall a, b | 0 <= a < b < 28 ensures DoubleSix()[a].id != DoubleSix()[b].id {
      IdsDiffer(0, a, b);
    }
  }
}
