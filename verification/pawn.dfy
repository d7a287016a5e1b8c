/** The pawn calculator, twice over.

    PawnMoves is the calculator the source's comments describe and the rest
    of the model uses: a pawn advances one square into an empty square, two
    squares from its home row when both squares ahead are empty, and
    captures one square diagonally forward onto an enemy piece. It emits no
    promotion moves, as the source emits none.

    MovesAsWritten is PawnMovesCalculator.calculateMoves line for line, and
    differs from that intent in four places (PawnMovesCalculator.java):
      - line 16 and line 25 test the square ahead for a piece where they
        mean "empty";
      - line 16 reads the square ahead before checking it is on the board,
        so a black pawn on row 1 reads outside the array;
      - line 32 guards the left capture with the right capture's bounds
        test, so a pawn on column 1 reads outside the array and a pawn on
        column 8 never captures to the left;
      - there is no WHITE branch: the direction computed at line 37 is
        never used and a white pawn has no moves. */
module PawnCalculator {
  import opened ChessTypes
  import opened ChessBoard

  /** The row step of a team's pawns: up the board for WHITE, down for BLACK. */
  function Forward(c: Color): (r: int)
    ensures r == 1 || r == -1
    ensures (r == 1) <==> c == WHITE
  {
    if c == WHITE then 1 else -1
  }

  /** The row a team's pawns start on, the only row a double step is
      allowed from. */
  function PawnHome(c: Color): (r: int)
    ensures r == HomeRow(c) + Forward(c)
  {
    if c == WHITE then 2 else 7
  }

  /** A single advance: one row forward onto an empty square. */
  ghost predicate StepTarget(b: Board, s: Position, color: Color, e: Position)
    requires e.InBounds()
  {
    e == Position(s.row + Forward(color), s.col) && Get(b, e).None?
  }

  /** A double advance: two rows forward from the home row, over an empty
      square onto an empty square. */
  ghost predicate DoubleTarget(b: Board, s: Position, color: Color, e: Position)
    requires s.InBounds() && e.InBounds()
  {
    && e == Position(s.row + Forward(color) + Forward(color), s.col)
    && s.row == PawnHome(color)
    && Get(b, Position(s.row + Forward(color), s.col)).None? && Get(b, e).None?
  }

  /** A capture: one row forward and one column aside, onto an enemy. */
  ghost predicate CaptureTarget(b: Board, s: Position, color: Color, e: Position)
    requires e.InBounds()
  {
    && (e == Position(s.row + Forward(color), s.col + 1) || e == Position(s.row + Forward(color), s.col - 1))
    && Owned(b, e, Opp(color))
  }

  /** The pawn's reach, stated square by square as the rules of chess
      state it: straight ahead onto an empty square; two straight ahead
      from the home row over two empty squares; one diagonally forward onto
      an enemy piece. */
  ghost predicate PawnTarget(b: Board, s: Position, color: Color, e: Position)
    requires s.InBounds() && e.InBounds()
  {
    StepTarget(b, s, color, e) || DoubleTarget(b, s, color, e) || CaptureTarget(b, s, color, e)
  }

  /** Moves from s that leave s's row for a board square, with no promotion. */
  predicate PawnShaped(r: seq<Move>, s: Position) {
    forall i | 0 <= i < |r| :: r[i].start == s && r[i].promotion.None? && r[i].end.InBounds() && r[i].end.row != s.row
  }

  lemma ShapedConcat(x: seq<Move>, y: seq<Move>, s: Position)
    requires PawnShaped(x, s) && PawnShaped(y, s)
    ensures PawnShaped(x + y, s)
  {
    forall i | 0 <= i < |x + y|
      ensures (x + y)[i].start == s && (x + y)[i].promotion.None? && (x + y)[i].end.InBounds() && (x + y)[i].end.row != s.row
    {
      if i < |x| { assert (x + y)[i] == x[i]; } else { assert (x + y)[i] == y[i - |x|]; }
    }
  }

  /** The single advance, when the square ahead is empty. */
  function Advance(b: Board, s: Position, color: Color): (r: seq<Move>)
    requires s.InBounds()
    ensures |r| <= 1 && PawnShaped(r, s)
  {
    var one := Position(s.row + Forward(color), s.col);
    if one.InBounds() && Get(b, one).None? then [Move(s, one, None)] else []
  }

  /** The double advance from the home row over two empty squares. */
  function DoubleStep(b: Board, s: Position, color: Color): (r: seq<Move>)
    requires s.InBounds()
    ensures |r| <= 1 && PawnShaped(r, s)
  {
    var one := Position(s.row + Forward(color), s.col);
    var two := Position(s.row + Forward(color) + Forward(color), s.col);
    if s.row == PawnHome(color) && Get(b, one).None? && Get(b, two).None? then [Move(s, two, None)] else []
  }

  /** The diagonal capture toward column s.col + side. */
  function Capture(b: Board, s: Position, color: Color, side: int): (r: seq<Move>)
    requires s.InBounds() && (side == 1 || side == -1)
    ensures |r| <= 1 && PawnShaped(r, s)
  {
    var diag := Position(s.row + Forward(color), s.col + side);
    if diag.InBounds() && Owned(b, diag, Opp(color)) then [Move(s, diag, None)] else []
  }

  /** The intended calculator. Order of the result: advance, double step,
      capture to the right, capture to the left. */
  function PawnMoves(b: Board, s: Position, color: Color): (r: seq<Move>)
    requires s.InBounds()
    ensures PawnShaped(r, s)
    ensures |r| <= 4
  {
    var a, c := Advance(b, s, color), DoubleStep(b, s, color);
    var x, y := Capture(b, s, color, 1), Capture(b, s, color, -1);
    ShapedConcat(a, c, s);
    ShapedConcat(a + c, x, s);
    ShapedConcat(a + c + x, y, s);
    a + c + x + y
  }

  /** The advance the calculator emits is the single advance. */
  lemma AdvanceExact(b: Board, s: Position, color: Color, e: Position)
    requires s.InBounds()
    ensures Move(s, e, None) in Advance(b, s, color) <==> e.InBounds() && StepTarget(b, s, color, e)
  {
  }

  /** The double step the calculator emits is the double advance. */
  lemma DoubleStepExact(b: Board, s: Position, color: Color, e: Position)
    requires s.InBounds()
    ensures Move(s, e, None) in DoubleStep(b, s, color) <==> e.InBounds() && DoubleTarget(b, s, color, e)
  {
  }

  /** The capture toward column s.col + side is the capture onto that
      column. */
  lemma CaptureExact(b: Board, s: Position, color: Color, side: int, e: Position)
    requires s.InBounds() && (side == 1 || side == -1)
    ensures Move(s, e, None) in Capture(b, s, color, side) <==>
      e.InBounds() && CaptureTarget(b, s, color, e) && e.col == s.col + side
  {
    var diag := Position(s.row + Forward(color), s.col + side);
    if e == diag {
      assert e.InBounds() ==> (CaptureTarget(b, s, color, e) <==> Owned(b, e, Opp(color)));
    } else {
      assert Move(s, e, None) !in Capture(b, s, color, side);
    }
  }

  /** Membership in four concatenated sequences. */
  lemma InFour(m: Move, a: seq<Move>, c: seq<Move>, x: seq<Move>, y: seq<Move>)
    ensures m in a + c + x + y <==> m in a || m in c || m in x || m in y
  {
  }

  /** The calculator emits exactly the moves to the pawn's targets. */
  lemma PawnMovesExact(b: Board, s: Position, color: Color, e: Position)
    requires s.InBounds()
    ensures Move(s, e, None) in PawnMoves(b, s, color) <==> e.InBounds() && PawnTarget(b, s, color, e)
  {
    var a, c := Advance(b, s, color), DoubleStep(b, s, color);
    var x, y := Capture(b, s, color, 1), Capture(b, s, color, -1);
    InFour(Move(s, e, None), a, c, x, y);
    AdvanceExact(b, s, color, e);
    DoubleStepExact(b, s, color, e);
    CaptureExact(b, s, color, 1, e);
    CaptureExact(b, s, color, -1, e);
  }

  /** From its home row a pawn may advance one square onto an empty square
      and two squares when both squares ahead are empty. */
  lemma HomeAdvances(b: Board, s: Position, color: Color)
    requires s.InBounds() && s.row == PawnHome(color)
    ensures
      var one := Position(s.row + Forward(color), s.col);
      var two := Position(s.row + Forward(color) + Forward(color), s.col);
      && (Move(s, one, None) in PawnMoves(b, s, color) <==> Get(b, one).None?)
      && (Move(s, two, None) in PawnMoves(b, s, color) <==> Get(b, one).None? && Get(b, two).None?)
  {
    var one := Position(s.row + Forward(color), s.col);
    var two := Position(s.row + Forward(color) + Forward(color), s.col);
    PawnMovesExact(b, s, color, one);
    PawnMovesExact(b, s, color, two);
  }

  /** The geometry of a pawn's targets. */
  lemma TargetGeometry(b: Board, s: Position, color: Color, e: Position)
    requires s.InBounds() && e.InBounds() && PawnTarget(b, s, color, e)
    ensures color == WHITE ==> s.row < e.row <= s.row + 2
    ensures color == BLACK ==> s.row - 2 <= e.row < s.row
    ensures Abs(e.col - s.col) <= 1
    ensures e.col != s.col ==> Abs(e.row - s.row) == 1 && Owned(b, e, Opp(color))
  {
    if CaptureTarget(b, s, color, e) {
      assert e.row == s.row + Forward(color);
    }
  }

  /** Every move of the calculator starts on the pawn, carries no
      promotion, goes one or two rows forward (down the board for BLACK)
      and at most one column aside, and goes aside only onto an enemy. */
  lemma PawnMoveGeometry(b: Board, s: Position, color: Color, m: Move)
    requires s.InBounds() && m in PawnMoves(b, s, color)
    ensures m.start == s && m.promotion.None? && m.end.InBounds()
    ensures color == WHITE ==> s.row < m.end.row <= s.row + 2
    ensures color == BLACK ==> s.row - 2 <= m.end.row < s.row
    ensures Abs(m.end.col - s.col) <= 1
    ensures m.end.col != s.col ==> Abs(m.end.row - s.row) == 1 && Owned(b, m.end, Opp(color))
  {
    var r := PawnMoves(b, s, color);
    var i :| 0 <= i < |r| && r[i] == m;
    assert m == Move(s, m.end, None);
    PawnMovesExact(b, s, color, m.end);
    TargetGeometry(b, s, color, m.end);
  }

  // ---------------------------------------------------------------------
  // The calculator as written

  /** The Java array access outside 0..7. */
  datatype Fault = IndexOutOfBounds

  /** getPiece on a raw coordinate: off-board squares are an array fault. */
  function Read(b: Board, p: Position): Result<Option<Piece>, Fault> {
    if p.InBounds() then Success(Get(b, p)) else Failure(IndexOutOfBounds)
  }

  /** Lines 15-26 as written, given the piece read on the square ahead:
      the advance, and from row 7 the double step, are offered when that
      square is occupied. */
  function StraightAsWritten(s: Position, ahead: Option<Piece>): (r: seq<Move>)
    ensures forall i | 0 <= i < |r| :: r[i].end.col == s.col
  {
    (if ahead.Some? then [Move(s, Position(s.row - 1, s.col), None)] else [])
    + (if s.row == 7 && ahead.Some? then [Move(s, Position(s.row - 2, s.col), None)] else [])
  }

  /** Lines 28-33 as written: the capture to the right, then the capture
      to the left, whose square is read under the right square's bounds
      test. */
  function DiagonalsAsWritten(b: Board, s: Position, color: Color): (r: Result<seq<Move>, Fault>)
    requires s.InBounds()
    ensures r.Failure? <==> s.row >= 2 && s.col == 1
    ensures r.Success? ==> forall i | 0 <= i < |r.value| :: r.value[i].end.col != s.col
  {
    var downRight := Position(s.row - 1, s.col + 1);
    var captureRight := if downRight.InBounds() && Owned(b, downRight, Opp(color)) then [Move(s, downRight, None)] else [];
    if !downRight.InBounds() then Success(captureRight)
    else
      var downLeft := Position(s.row - 1, s.col - 1);
      match Read(b, downLeft)
      case Failure(f) => Failure(f)
      case Success(diag) =>
        var captureLeft := if diag.Some? && diag.value.color != color then [Move(s, downLeft, None)] else [];
        Success(captureRight + captureLeft)
  }

  /** PawnMovesCalculator.calculateMoves as written: only the BLACK branch
      produces moves; the square ahead is read before anything else. */
  function MovesAsWritten(b: Board, s: Position, color: Color): (r: Result<seq<Move>, Fault>)
    requires s.InBounds()
    ensures color == WHITE ==> r == Success([])
    ensures color == BLACK ==> (r.Failure? <==> s.row == 1 || s.col == 1)
  {
    if color == WHITE then Success([])
    else
      match Read(b, Position(s.row - 1, s.col))
      case Failure(f) => Failure(f)
      case Success(ahead) =>
        match DiagonalsAsWritten(b, s, color)
        case Failure(f) => Failure(f)
        case Success(diagonals) => Success(StraightAsWritten(s, ahead) + diagonals)
  }

  // ---------------------------------------------------------------------
  // Inputs on which the two differ

  /** A white pawn on its home row with the two squares ahead empty: as
      written it has no moves at all; intended, it may advance two. */
  lemma WhitePawnHasNoMovesAsWritten(b: Board, s: Position)
    requires s.InBounds() && s.row == 2
    requires Get(b, Position(3, s.col)).None? && Get(b, Position(4, s.col)).None?
    ensures MovesAsWritten(b, s, WHITE) == Success([])
    ensures Move(s, Position(3, s.col), None) in PawnMoves(b, s, WHITE)
    ensures Move(s, Position(4, s.col), None) in PawnMoves(b, s, WHITE)
  {
    HomeAdvances(b, s, WHITE);
  }

  /** The straight moves the calculator as written offers a black pawn on
      its home row (away from column 1): both advances exactly when the
      square ahead is occupied. */
  lemma BlackHomeAdvancesAsWritten(b: Board, s: Position)
    requires s.InBounds() && s.row == 7 && s.col >= 2
    ensures MovesAsWritten(b, s, BLACK).Success?
    ensures Move(s, Position(6, s.col), None) in MovesAsWritten(b, s, BLACK).value <==> Get(b, Position(6, s.col)).Some?
    ensures Move(s, Position(5, s.col), None) in MovesAsWritten(b, s, BLACK).value <==> Get(b, Position(6, s.col)).Some?
  {
    var ahead := Get(b, Position(6, s.col));
    var straight := StraightAsWritten(s, ahead);
    var diagonals := DiagonalsAsWritten(b, s, BLACK).value;
    assert MovesAsWritten(b, s, BLACK) == Success(straight + diagonals);
    assert Move(s, Position(6, s.col), None) !in diagonals;
    assert Move(s, Position(5, s.col), None) !in diagonals;
  }


  /** A black pawn on its home row with the square ahead empty: as written
      neither advance is offered; intended, both are. */
  lemma BlackAdvanceInvertedAsWritten(b: Board, s: Position)
    requires s.InBounds() && s.row == 7 && s.col >= 2
    requires Get(b, Position(6, s.col)).None? && Get(b, Position(5, s.col)).None?
    ensures MovesAsWritten(b, s, BLACK).Success?
    ensures Move(s, Position(6, s.col), None) !in MovesAsWritten(b, s, BLACK).value
    ensures Move(s, Position(5, s.col), None) !in MovesAsWritten(b, s, BLACK).value
    ensures Move(s, Position(6, s.col), None) in PawnMoves(b, s, BLACK)
    ensures Move(s, Position(5, s.col), None) in PawnMoves(b, s, BLACK)
  {
    BlackHomeAdvancesAsWritten(b, s);
    HomeAdvances(b, s, BLACK);
  }

  /** A black pawn on its home row with a piece directly ahead: as written
      it is offered that square and the double step through it; intended,
      neither. */
  lemma BlackAdvanceIntoPieceAsWritten(b: Board, s: Position)
    requires s.InBounds() && s.row == 7 && s.col >= 2
    requires Get(b, Position(6, s.col)).Some?
    ensures MovesAsWritten(b, s, BLACK).Success?
    ensures Move(s, Position(6, s.col), None) in MovesAsWritten(b, s, BLACK).value
    ensures Move(s, Position(5, s.col), None) in MovesAsWritten(b, s, BLACK).value
    ensures Move(s, Position(6, s.col), None) !in PawnMoves(b, s, BLACK)
    ensures Move(s, Position(5, s.col), None) !in PawnMoves(b, s, BLACK)
  {
    BlackHomeAdvancesAsWritten(b, s);
    HomeAdvances(b, s, BLACK);
  }

  /** A black pawn on row 1: the square ahead is read before its bounds
      test, so the calculator faults; intended, it simply has no moves. */
  lemma BlackPawnOnLastRowFaults(b: Board, s: Position)
    requires s.InBounds() && s.row == 1
    ensures MovesAsWritten(b, s, BLACK).Failure?
    ensures PawnMoves(b, s, BLACK) == []
  {
  }

  /** A black pawn on column 1 (and above row 1): the left capture square,
      on column 0, is read because the guard tests the right capture
      square, so the calculator faults. */
  lemma BlackPawnOnFirstColumnFaults(b: Board, s: Position)
    requires s.InBounds() && s.row >= 2 && s.col == 1
    ensures MovesAsWritten(b, s, BLACK).Failure?
    ensures forall e: Position | e.InBounds() :: Move(s, e, None) in PawnMoves(b, s, BLACK) <==> PawnTarget(b, s, BLACK, e)
  {
    forall e: Position | e.InBounds()
      ensures Move(s, e, None) in PawnMoves(b, s, BLACK) <==> PawnTarget(b, s, BLACK, e)
    {
      PawnMovesExact(b, s, BLACK, e);
    }
  }

  /** The opening position already holds such a pawn: the black pawn on a7
      faults as written, where intended it may advance to a6 or a5. A white
      knight move such as b1-c3 is the only opening move whose trial reaches
      the check test of WHITE (no other white piece has a move as written),
      and that test visits this pawn first, in row-by-row order. */
  lemma OpeningBlackPawnFaults()
    ensures Get(ResetBoard(), Position(7, 1)) == Some(Piece(BLACK, PAWN))
    ensures MovesAsWritten(ResetBoard(), Position(7, 1), BLACK).Failure?
    ensures Move(Position(7, 1), Position(6, 1), None) in PawnMoves(ResetBoard(), Position(7, 1), BLACK)
    ensures Move(Position(7, 1), Position(5, 1), None) in PawnMoves(ResetBoard(), Position(7, 1), BLACK)
  {
    ResetBoardLayout(Position(7, 1));
    ResetBoardLayout(Position(6, 1));
    ResetBoardLayout(Position(5, 1));
    HomeAdvances(ResetBoard(), Position(7, 1), BLACK);
  }

  /** A black pawn on column 8 with an enemy piece diagonally ahead on
      column 7: as written the right-square guard is off the board, so the
      capture is never considered; intended, it is offered. */
  lemma BlackPawnOnLastColumnMissesCapture(b: Board, s: Position)
    requires s.InBounds() && s.row >= 2 && s.col == 8
    requires Owned(b, Position(s.row - 1, 7), WHITE)
    ensures MovesAsWritten(b, s, BLACK).Success?
    ensures Move(s, Position(s.row - 1, 7), None) !in MovesAsWritten(b, s, BLACK).value
    ensures Move(s, Position(s.row - 1, 7), None) in PawnMoves(b, s, BLACK)
  {
    LastColumnStraightAsWritten(b, s);
    PawnMovesExact(b, s, BLACK, Position(s.row - 1, 7));
  }

  /** On column 8 the calculator as written offers a black pawn only moves
      along its own column. */
  lemma LastColumnStraightAsWritten(b: Board, s: Position)
    requires s.InBounds() && s.row >= 2 && s.col == 8
    ensures MovesAsWritten(b, s, BLACK).Success?
    ensures forall m | m in MovesAsWritten(b, s, BLACK).value :: m.end.col == 8
  {
    var straight := StraightAsWritten(s, Get(b, Position(s.row - 1, 8)));
    assert DiagonalsAsWritten(b, s, BLACK) == Success([]);
    assert MovesAsWritten(b, s, BLACK) == Success(straight + []);
    assert straight + [] == straight;
  }
}
