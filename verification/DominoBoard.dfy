/** The chain on the board, and the two cached values that move validation relies on instead of it. */
module DominoBoard {
  import opened Basics
  import opened DominoRules

  /** Neighbouring tiles show the same pips to each other. */
  predicate Chain(board: seq<Tile>) {
    forall i :: 0 <= i < |board| - 1 ==> board[i].right == board[i + 1].left
  }

  predicate Countable(t: Tile) {
    t.left >= 0 && t.right >= 0
  }

  predicate EndsCached(s: Session) {
    if |s.board| == 0 then s.left == -1 && s.right == -1
    else s.left == s.board[0].left && s.right == s.board[|s.board| - 1].right
  }

  predicate BoardOk(s: Session) {
    Chain(s.board) && EndsCached(s) && forall i :: 0 <= i < |s.board| ==> Countable(s.board[i])
  }

  predicate Lies(o: Tile, t: Tile) {
    o == t || o == Flip(t)
  }

  function Extended(board: seq<Tile>, o: Tile, atLeft: bool): seq<Tile> {
    if atLeft then [o] + board else board + [o]
  }

  lemma ExtendedChain(board: seq<Tile>, o: Tile, atLeft: bool)
    requires Chain(board)
    ensures Chain(Extended(board, o, atLeft)) <==>
      |board| == 0 || (if atLeft then o.right == board[0].left else board[|board| - 1].right == o.left)
  {
    var b := Extended(board, o, atLeft);
    if |board| > 0 {
      if atLeft {
        assert b[0].right == b[1].left <==> o.right == board[0].left;
        assert forall i :: 1 <= i < |b| ==> b[i] == board[i - 1];
      } else {
        var last := |board| - 1;
        assert b[last].right == b[last + 1].left <==> board[last].right == o.left;
      }
    }
  }

  /** The cache decides exactly whether the tile, one way round or the other, extends the chain at that end. */
  lemma CanPlayIff(s: Session, t: Tile, atLeft: bool)
    requires BoardOk(s)
    ensures CanPlay(s.left, s.right, t, atLeft) <==> exists o :: Lies(o, t) && Chain(Extended(s.board, o, atLeft))
  {
    ExtendedChain(s.board, t, atLeft);
    ExtendedChain(s.board, Flip(t), atLeft);
    assert Lies(t, t) && Lies(Flip(t), t);
  }

  /** Putting a playable tile down extends the chain by that tile, and keeps the cache right for real tiles only. */
  lemma PutDownKeepsIff(s: Session, t: Tile, atLeft: bool)
    requires BoardOk(s) && CanPlay(s.left, s.right, t, atLeft)
    ensures var s' := PutDown(s, t, atLeft);
      && Chain(s'.board) && EndsCached(s')
      && (exists o :: Lies(o, t) && s'.board == Extended(s.board, o, atLeft))
      && (BoardOk(s') <==> Countable(t))
  {
    var o := if |s.board| == 0 then t
             else if atLeft then (if t.right != s.left then Flip(t) else t)
             else if t.left != s.right then Flip(t) else t;
    var s' := PutDown(s, t, atLeft);
    ExtendedChain(s.board, o, atLeft);
    assert Lies(o, t);
    assert s'.board == Extended(s.board, o, atLeft);
    var k := if atLeft then 0 else |s.board|;
    assert s'.board[k] == o;
    if atLeft {
      assert forall i :: 1 <= i < |s'.board| ==> s'.board[i] == s.board[i - 1];
    }
  }

  /** A turn keeps the board in order exactly when it does not put down a tile with negative pips. */
  lemma TurnKeepsBoardIff(s: Session, a: Action)
    requires BoardOk(s)
    ensures BoardOk(ProcessGameTurn(s, a).after) <==>
      (a.Play? && ProcessGameTurn(s, a).Applied? ==> Countable(a.tile))
  {
    hide BoardOk, PutDown, CanPlay, Conclude, DominoRules.PassTurn, HandOf, TileAt;
    if ProcessGameTurn(s, a).Applied? {
      BoardOnly(if a.Play? then PutDown(s, a.tile, a.atLeft) else s, ProcessGameTurn(s, a).after);
    } else {
      BoardOnly(s, ProcessGameTurn(s, a).after);
    }
    if a.Play? && CanPlay(s.left, s.right, a.tile, a.atLeft) {
      PutDownKeepsIff(s, a.tile, a.atLeft);
    }
  }

  lemma AbandonmentKeepsBoard(s: Session, player: string)
    requires BoardOk(s)
    ensures BoardOk(HandlePlayerAbandoned(s, player).0)
  {
    hide BoardOk, MarkAbandoned, FinalizeIfOver;
    BoardOnly(s, HandlePlayerAbandoned(s, player).0);
  }

  lemma BoardOnly(s: Session, s': Session)
    requires s'.board == s.board && s'.left == s.left && s'.right == s.right
    ensures BoardOk(s) == BoardOk(s')
  {
  }

  lemma SetupClearsBoard(s: Session, choices: seq<nat>, n: nat)
    requires |s.hands| <= |s.players| && InRange(choices, |DoubleSix()|)
    ensures BoardOk(SetupGame(s, choices, n).after)
  {
    hide Shuffle, DoubleSix, DealtHands;
  }

  /** A tile showing -1 twice leaves the ends looking closed: after it anything can be played, chain or not. */
  lemma ClosedEndsBreakTheChain(s: Session, t: Tile, v: Tile)
    requires BoardOk(s) && |s.board| == 0
    requires t.left == -1 && t.right == -1 && v.left != -1
    ensures var s1 := PutDown(s, t, false);
      && CanPlay(s1.left, s1.right, v, false)
      && !Chain(PutDown(s1, v, false).board)
  {
    var s1 := PutDown(s, t, false);
    var b := PutDown(s1, v, false).board;
    assert b == [t, v];
    assert b[0].right != b[1].left;
  }
}
