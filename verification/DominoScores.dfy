/** The pips of a match: whatever is played, those in the hands, the boneyard and the board add up to the deck's. */
module DominoScores {
  import opened Basics
  import opened DominoRules
  import opened DominoTiles
  import opened DominoOutcome
  import opened DominoTermination
  import opened DominoRuns

  function HandTiles(hands: seq<Hand>): seq<Tile> {
    if |hands| == 0 then [] else HandTiles(hands[..|hands| - 1]) + hands[|hands| - 1].tiles
  }

  function HandPips(hands: seq<Hand>): int {
    if |hands| == 0 then 0 else HandPips(hands[..|hands| - 1]) + Pips(hands[|hands| - 1].tiles)
  }

  /** The scores of the first k players. */
  function ScoreSum(scores: map<string, int>, names: seq<string>, k: nat): int
    requires k <= |names| && forall i :: 0 <= i < k ==> names[i] in scores
  {
    if k == 0 then 0 else ScoreSum(scores, names, k - 1) + scores[names[k - 1]]
  }

  // ---- pips and counts ----------------------------------------------------------------------------

  lemma {:induction false} PipsConcat(a: seq<Tile>, b: seq<Tile>)
    ensures Pips(a + b) == Pips(a) + Pips(b)
  {
    if |b| == 0 {
      assert a + b == a;
    } else {
      var n := |b| - 1;
      assert (a + b)[..|a + b| - 1] == a + b[..n];
      PipsConcat(a, b[..n]);
    }
  }

  lemma PipsOne(t: Tile)
    ensures Pips([t]) == t.left + t.right
  {
    assert [t][..0] == [];
  }

  lemma PipsWithout(tiles: seq<Tile>, i: nat)
    requires i < |tiles|
    ensures Pips(tiles) == Pips(Without(tiles, i)) + tiles[i].left + tiles[i].right
  {
    hide Pips;
    assert tiles == tiles[..i] + [tiles[i]] + tiles[i + 1..];
    PipsConcat(tiles[..i] + [tiles[i]], tiles[i + 1..]);
    PipsConcat(tiles[..i], [tiles[i]]);
    PipsOne(tiles[i]);
    PipsConcat(tiles[..i], tiles[i + 1..]);
  }

  lemma {:induction false} FindTile(tiles: seq<Tile>, k: Key) returns (i: nat)
    requires Count(tiles, k, true) > 0
    ensures i < |tiles| && KeyOf(tiles[i], true) == k
  {
    var n := |tiles| - 1;
    if KeyOf(tiles[n], true) == k {
      i := n;
    } else {
      i := FindTile(tiles[..n], k);
    }
  }

  /** Tiles that can be matched one by one, whichever way they lie, show the same number of pips. */
  lemma {:induction false} SameCountsSamePips(a: seq<Tile>, b: seq<Tile>)
    requires forall k :: Count(a, k, true) == Count(b, k, true)
    ensures Pips(a) == Pips(b)
    decreases |a|
  {
    if |a| == 0 {
      var k := if |b| > 0 then KeyOf(b[|b| - 1], true) else Key("", 0, 0);
      assert Count(a, k, true) == Count(b, k, true);
    } else {
      hide Count, Pips;
      var n := |a| - 1;
      var key := KeyOf(a[n], true);
      CountWithout(a, n, key, true);
      var j := FindTile(b, key);
      forall k ensures Count(Without(a, n), k, true) == Count(Without(b, j), k, true) {
        CountWithout(a, n, k, true);
        CountWithout(b, j, k, true);
      }
      SameCountsSamePips(Without(a, n), Without(b, j));
      PipsWithout(a, n);
      PipsWithout(b, j);
    }
  }

  lemma {:induction false} HandTilesCount(hands: seq<Hand>, k: Key)
    ensures HandCount(hands, k, true) == Count(HandTiles(hands), k, true)
  {
    if |hands| > 0 {
      hide Count;
      var n := |hands| - 1;
      HandTilesCount(hands[..n], k);
      CountConcat(HandTiles(hands[..n]), hands[n].tiles, k, true);
    } else {
      assert HandTiles(hands) == [];
    }
  }

  lemma {:induction false} HandTilesPips(hands: seq<Hand>)
    ensures HandPips(hands) == Pips(HandTiles(hands))
  {
    if |hands| > 0 {
      hide Pips;
      var n := |hands| - 1;
      HandTilesPips(hands[..n]);
      PipsConcat(HandTiles(hands[..n]), hands[n].tiles);
    }
  }

  // ---- the deck -----------------------------------------------------------------------------------

  function RowSum(i: nat, j: nat): int
    decreases 7 - j
  {
    if j > 6 then 0 else i + j + RowSum(i, j + 1)
  }

  lemma {:induction false} RowPips(i: nat, j: nat)
    requires i <= 6
    ensures Pips(DeckRow(i, j)) == RowSum(i, j)
    decreases 7 - j
  {
    if j <= 6 {
      RowPips(i, j + 1);
      PipsConcat([NewTile(i, j)], DeckRow(i, j + 1));
      PipsOne(NewTile(i, j));
      NewTilePips(i, j);
    }
  }

  lemma RowsFrom(i: nat)
    requires i <= 7
    ensures Pips(DeckFrom(i)) == if i == 7 then 0 else Pips(DeckFrom(i + 1)) + RowSum(i, i)
  {
    if i < 7 {
      hide Pips, DeckRow, RowSum;
      RowPips(i, i);
      PipsConcat(DeckRow(i, i), DeckFrom(i + 1));
    }
  }

  lemma DeckPips()
    ensures Pips(DoubleSix()) == 168
  {
    hide Pips, DeckRow, DeckFrom;
    RowsFrom(0);
    RowsFrom(1);
    RowsFrom(2);
    RowsFrom(3);
    RowsFrom(4);
    RowsFrom(5);
    RowsFrom(6);
    RowsFrom(7);
  }

  // ---- whole matches ------------------------------------------------------------------------------

  lemma TotalPips(s: Session)
    requires forall k :: Total(s, k, true) == Count(DoubleSix(), k, true)
    ensures HandPips(s.hands) + Pips(s.boneyard) + Pips(s.board) == 168
  {
    hide Pips, Count, HandCount, DoubleSix;
    var held, all := HandTiles(s.hands), HandTiles(s.hands) + s.boneyard + s.board;
    forall k ensures Count(all, k, true) == Count(DoubleSix(), k, true) {
      assert Total(s, k, true) == Count(DoubleSix(), k, true);
      HandTilesCount(s.hands, k);
      CountConcat(held + s.boneyard, s.board, k, true);
      CountConcat(held, s.boneyard, k, true);
    }
    SameCountsSamePips(all, DoubleSix());
    DeckPips();
    PipsConcat(held + s.boneyard, s.board);
    PipsConcat(held, s.boneyard);
    HandTilesPips(s.hands);
  }

  /** From any setup on, while all plays are honest, the pips in the hands, the boneyard and the board make 168. */
  lemma PipsAddUp(id: string, names: seq<string>, choices: seq<nat>, n: nat, es: seq<Event>)
    requires |names| > 0 && InRange(choices, |DoubleSix()|)
    requires |names| * n <= 28 || NamedDraws(es)
    requires HonestRun(Start(id, names, choices, n).after, es)
    ensures var s := Played(Start(id, names, choices, n).after, es);
      HandPips(s.hands) + Pips(s.boneyard) + Pips(s.board) == 168
  {
    hide DoubleSix, Total, Count, Played, SetupGame, HonestRun, NamedDraws, Pips, HandPips;
    var s := Played(Start(id, names, choices, n).after, es);
    forall k ensures Total(s, k, true) == Count(DoubleSix(), k, true) {
      TilesAreConserved(id, names, choices, n, es, k, true);
    }
    TotalPips(s);
  }

  lemma {:induction false} ScoresSumUp(scores: map<string, int>, names: seq<string>, hands: seq<Hand>, k: nat)
    requires k <= |names| == |hands|
    requires forall i :: 0 <= i < |names| ==> names[i] in scores && scores[names[i]] == Pips(hands[i].tiles)
    ensures ScoreSum(scores, names, k) == HandPips(hands[..k])
  {
    if k > 0 {
      hide Pips;
      ScoresSumUp(scores, names, hands, k - 1);
      assert hands[..k][..k - 1] == hands[..k - 1];
    }
  }

  /** Whenever such a match is over, the scores of the players are all the pips that were not played or left over. */
  lemma ScoresAccountForThePips(id: string, names: seq<string>, choices: seq<nat>, n: nat, es: seq<Event>)
    requires |names| > 0 && InRange(choices, |DoubleSix()|) && |names| * n <= 28
    requires HonestRun(Start(id, names, choices, n).after, es)
    requires forall j, k :: 0 <= j < k < |names| ==> names[j] != names[k]
    requires forall k :: 0 <= k < |names| ==> names[k] != ""
    requires Evaluation(Played(Start(id, names, choices, n).after, es)).Some?
    ensures var s := Played(Start(id, names, choices, n).after, es); var scores := Evaluation(s).value.scores;
      && (forall i :: 0 <= i < |names| ==> names[i] in scores)
      && ScoreSum(scores, names, |names|) == 168 - Pips(s.boneyard) - Pips(s.board)
  {
    hide DoubleSix, Played, SetupGame, HonestRun, NamedDraws, Pips, HandPips, Evaluation, FromDeck, IndexOf, ScoreSum;
    var s := Played(Start(id, names, choices, n).after, es);
    StartIsRegular(id, names, choices, n);
    RunKeepsRegular(Start(id, names, choices, n).after, names, es);
    var _ := MatchOutcomeIsRight(Start(id, names, choices, n).after, names, es);
    ScoresSumUp(Evaluation(s).value.scores, names, s.hands, |names|);
    assert s.hands[..|names|] == s.hands;
    PipsAddUp(id, names, choices, n, es);
  }
}
