/** The five calculators built on the shared ray generator: each is a fixed
    direction table handed to LinearMoves, sliding (bishop, rook, queen) or
    single-step (king, knight). */
module PieceCalculators {
  import opened ChessTypes
  import opened ChessBoard
  import opened MovesCalculator

  // ---------------------------------------------------------------------
  // Direction tables, in the source's order

  function BishopDirs(): (r: seq<Dir>)
    ensures AllNonZero(r)
  {
    [Dir(1, 1), Dir(1, -1), Dir(-1, 1), Dir(-1, -1)]
  }

  function RookDirs(): (r: seq<Dir>)
    ensures AllNonZero(r)
  {
    [Dir(1, 0), Dir(-1, 0), Dir(0, 1), Dir(0, -1)]
  }

  /** The queen's and the king's table: the four diagonals, then the four
      straight lines. */
  function AllDirs(): (r: seq<Dir>)
    ensures AllNonZero(r)
  {
    [Dir(1, 1), Dir(1, -1), Dir(-1, 1), Dir(-1, -1), Dir(1, 0), Dir(-1, 0), Dir(0, 1), Dir(0, -1)]
  }

  function KnightDirs(): (r: seq<Dir>)
    ensures AllNonZero(r)
  {
    [Dir(1, 2), Dir(2, 1), Dir(2, -1), Dir(1, -2), Dir(-1, 2), Dir(-2, 1), Dir(-2, -1), Dir(-1, -2)]
  }

  // ---------------------------------------------------------------------
  // Calculators

  function BishopMoves(b: Board, s: Position, color: Color): (r: seq<Move>)
    requires s.InBounds()
    ensures forall m | m in r :: m.start == s && m.promotion.None? && m.end.InBounds() && m.end != s && !Owned(b, m.end, color)
  {
    LinearMoves(true, b, s, color, BishopDirs())
  }

  function RookMoves(b: Board, s: Position, color: Color): (r: seq<Move>)
    requires s.InBounds()
    ensures forall m | m in r :: m.start == s && m.promotion.None? && m.end.InBounds() && m.end != s && !Owned(b, m.end, color)
  {
    LinearMoves(true, b, s, color, RookDirs())
  }

  /** The source declares this calculator (and the king's) `static` while
      calling the inherited instance helper, which Java rejects; the model
      gives it the evident meaning, a sliding generator over AllDirs. */
  function QueenMoves(b: Board, s: Position, color: Color): (r: seq<Move>)
    requires s.InBounds()
    ensures forall m | m in r :: m.start == s && m.promotion.None? && m.end.InBounds() && m.end != s && !Owned(b, m.end, color)
  {
    LinearMoves(true, b, s, color, AllDirs())
  }

  function KingMoves(b: Board, s: Position, color: Color): (r: seq<Move>)
    requires s.InBounds()
    ensures forall m | m in r :: m.start == s && m.promotion.None? && m.end.InBounds() && m.end != s && !Owned(b, m.end, color)
    ensures |r| <= 8
  {
    LinearMoves(false, b, s, color, AllDirs())
  }

  function KnightMoves(b: Board, s: Position, color: Color): (r: seq<Move>)
    requires s.InBounds()
    ensures forall m | m in r :: m.start == s && m.promotion.None? && m.end.InBounds() && m.end != s && !Owned(b, m.end, color)
    ensures |r| <= 8
  {
    LinearMoves(false, b, s, color, KnightDirs())
  }

  // ---------------------------------------------------------------------
  // Exact characterisations

  lemma BishopDirsAreUnit()
    ensures AllUnit(BishopDirs())
  {
  }

  lemma RookDirsAreUnit()
    ensures AllUnit(RookDirs())
  {
  }

  /** The bishop reaches exactly the squares on a diagonal through s,
      over empty squares, not held by its own team. */
  lemma BishopMovesExact(b: Board, s: Position, color: Color, e: Position)
    requires s.InBounds()
    ensures Move(s, e, None) in BishopMoves(b, s, color) <==>
      && e.InBounds()
      && Abs(e.row - s.row) == Abs(e.col - s.col) >= 1
      && PathClear(b, s, e)
      && !Owned(b, e, color)
  {
    BishopDirsAreUnit();
    SlidingExact(b, s, color, BishopDirs(), e);
    assert e != s && OnLine(s, e) && Toward(s, e) in BishopDirs() <==> Abs(e.row - s.row) == Abs(e.col - s.col) >= 1;
  }

  /** The rook reaches exactly the squares on s's row or column, over
      empty squares, not held by its own team. */
  lemma RookMovesExact(b: Board, s: Position, color: Color, e: Position)
    requires s.InBounds()
    ensures Move(s, e, None) in RookMoves(b, s, color) <==>
      && e.InBounds()
      && (e.row == s.row) != (e.col == s.col)
      && PathClear(b, s, e)
      && !Owned(b, e, color)
  {
    RookDirsAreUnit();
    SlidingExact(b, s, color, RookDirs(), e);
    assert e != s && OnLine(s, e) && Toward(s, e) in RookDirs() <==> (e.row == s.row) != (e.col == s.col);
  }

  /** The queen's table is the bishop's followed by the rook's, so queen
      moves are the bishop moves followed by the rook moves from the same
      square on the same board. */
  lemma QueenIsBishopPlusRook(b: Board, s: Position, color: Color)
    requires s.InBounds()
    ensures AllDirs() == BishopDirs() + RookDirs()
    ensures QueenMoves(b, s, color) == BishopMoves(b, s, color) + RookMoves(b, s, color)
  {
    assert AllDirs() == BishopDirs() + RookDirs();
    LinearMovesAppend(true, b, s, color, BishopDirs(), RookDirs());
  }

  /** The queen reaches exactly the squares on a line (row, column or
      diagonal) through s, over empty squares, not held by its own team. */
  lemma QueenMovesExact(b: Board, s: Position, color: Color, e: Position)
    requires s.InBounds()
    ensures Move(s, e, None) in QueenMoves(b, s, color) <==>
      && e.InBounds()
      && e != s
      && OnLine(s, e)
      && PathClear(b, s, e)
      && !Owned(b, e, color)
  {
    QueenIsBishopPlusRook(b, s, color);
    BishopMovesExact(b, s, color, e);
    RookMovesExact(b, s, color, e);
  }

  /** The king reaches exactly the eight neighbouring squares that are on
      the board and not held by its own team. */
  lemma KingMovesExact(b: Board, s: Position, color: Color, e: Position)
    requires s.InBounds()
    ensures Move(s, e, None) in KingMoves(b, s, color) <==>
      e.InBounds() && Distance(s, e) == 1 && !Owned(b, e, color)
  {
    SingleStepExact(b, s, color, AllDirs(), e);
    assert Dir(e.col - s.col, e.row - s.row) in AllDirs() <==> Distance(s, e) == 1;
  }

  /** An L-shaped offset: one row and two columns, or two rows and one. */
  predicate KnightJump(dr: int, dc: int) {
    (Abs(dr) == 1 && Abs(dc) == 2) || (Abs(dr) == 2 && Abs(dc) == 1)
  }

  /** The knight reaches exactly the on-board squares one L-shaped jump
      away that its own team does not hold; nothing in between matters. */
  lemma KnightMovesExact(b: Board, s: Position, color: Color, e: Position)
    requires s.InBounds()
    ensures Move(s, e, None) in KnightMoves(b, s, color) <==>
      e.InBounds() && KnightJump(e.row - s.row, e.col - s.col) && !Owned(b, e, color)
  {
    SingleStepExact(b, s, color, KnightDirs(), e);
    assert Dir(e.col - s.col, e.row - s.row) in KnightDirs() <==> KnightJump(e.row - s.row, e.col - s.col);
  }
}
