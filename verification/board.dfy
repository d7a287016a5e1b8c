/** The 8x8 board (ChessBoard.java): direct cell access, enumeration of a
    team's squares, the opening set-up, and applying / undoing a move with
    its en-passant and castling side effects.

    The source keeps the square of the last capture in a single mutable
    field (capturedPosition) that undoMove reads back. Here doMove returns
    an explicit undo token instead, so nested explorations cannot clobber
    one another's capture site. */
module ChessBoard {
  import opened ChessTypes

  /** The grid as a finite map from on-board squares to the pieces on them;
      a square missing from the map is an empty cell (null in the source). */
  type Board = m: map<Position, Piece> | forall p | p in m :: p.InBounds() witness map[]

  /** An empty board, as the ChessBoard constructor builds it. */
  function Empty(): Board {
    map[]
  }

  /** Every square of the empty board is empty. */
  lemma EmptyHasNoPieces()
    ensures forall p: Position | p.InBounds() :: Get(Empty(), p) == None
  {
  }

  /** getPiece: the (optional) piece on an on-board square. */
  function Get(b: Board, p: Position): Option<Piece>
    requires p.InBounds()
  {
    if p in b then Some(b[p]) else None
  }

  /** addPiece: replaces one cell (None clears it); nothing else changes. */
  function AddPiece(b: Board, p: Position, x: Option<Piece>): (r: Board)
    requires p.InBounds()
    ensures Get(r, p) == x
    ensures forall q: Position | q.InBounds() && q != p :: Get(r, q) == Get(b, q)
  {
    if x.Some? then b[p := x.value] else b - {p}
  }

  /** True when the square holds a piece of the given team. */
  predicate Owned(b: Board, p: Position, c: Color)
    requires p.InBounds()
  {
    Get(b, p).Some? && Get(b, p).value.color == c
  }

  /** ChessBoard.equals compares the two grids cell by cell. */
  ghost predicate SameBoard(a: Board, b: Board) {
    forall p: Position | p.InBounds() :: Get(a, p) == Get(b, p)
  }

  /** Cell-wise equality is exactly value equality of the model's boards. */
  lemma SameBoardIsEquality(a: Board, b: Board)
    ensures SameBoard(a, b) <==> a == b
  {
    if SameBoard(a, b) {
      forall p | p in a
        ensures p in b && a[p] == b[p]
      {
        assert Get(a, p) == Get(b, p);
      }
      forall p | p in b
        ensures p in a
      {
        assert Get(a, p) == Get(b, p);
      }
    }
  }

  // ---------------------------------------------------------------------
  // getPieces

  /** The squares of one row, from column col on, holding a piece of team c. */
  function RowPieces(b: Board, c: Color, row: int, col: int): (r: seq<Position>)
    requires 1 <= row <= 8 && 1 <= col <= 9
    decreases 9 - col
    ensures forall p: Position | p in r :: p.InBounds() && p.row == row && col <= p.col && Owned(b, p, c)
    ensures forall p: Position | p.InBounds() && p.row == row && col <= p.col && Owned(b, p, c) :: p in r
  {
    if col == 9 then []
    else
      var rest := RowPieces(b, c, row, col + 1);
      if Owned(b, Position(row, col), c) then [Position(row, col)] + rest else rest
  }

  /** The squares of rows row..8 holding a piece of team c, row by row. */
  function PiecesFrom(b: Board, c: Color, row: int): (r: seq<Position>)
    requires 1 <= row <= 9
    decreases 9 - row
    ensures forall p: Position | p in r :: p.InBounds() && row <= p.row && Owned(b, p, c)
    ensures forall p: Position | p.InBounds() && row <= p.row && Owned(b, p, c) :: p in r
  {
    if row == 9 then [] else RowPieces(b, c, row, 1) + PiecesFrom(b, c, row + 1)
  }

  /** getPieces: every on-board square holding a piece of team c, scanned
      row by row and column by column as the source's nested loops do. */
  function PiecesOf(b: Board, c: Color): (r: seq<Position>)
    ensures forall p: Position | p in r :: p.InBounds() && Owned(b, p, c)
    ensures forall p: Position | p.InBounds() && Owned(b, p, c) :: p in r
  {
    PiecesFrom(b, c, 1)
  }

  // ---------------------------------------------------------------------
  // resetBoard

  /** The kind of piece on column col of a back rank: rook, knight,
      bishop, queen, king, bishop, knight, rook. */
  function BackRankKind(col: int): PieceType {
    if col == 1 || col == 8 then ROOK
    else if col == 2 || col == 7 then KNIGHT
    else if col == 3 || col == 6 then BISHOP
    else if col == 4 then QUEEN
    else KING
  }

  /** The kind resetBoard puts on column col of a pawn row or a back rank. */
  function RowKind(pawns: bool, col: int): PieceType {
    if pawns then PAWN else BackRankKind(col)
  }

  /** The eight squares of a row. */
  function RowSquares(row: int): set<Position> {
    set col | 1 <= col <= 8 :: Position(row, col)
  }

  /** A row filled with a team's pieces, as resetBoard's eight assignments
      or its column loop do; every other cell is kept. */
  function WithRow(b: Board, row: int, c: Color, pawns: bool): Board
    requires 1 <= row <= 8
  {
    map q | q in b.Keys + RowSquares(row) :: if q.row == row then Piece(c, RowKind(pawns, q.col)) else b[q]
  }

  /** After the fill, each square of the row holds the row's piece for its
      column, and every other square is as before. */
  lemma WithRowCell(b: Board, row: int, c: Color, pawns: bool, q: Position)
    requires 1 <= row <= 8 && q.InBounds()
    ensures Get(WithRow(b, row, c, pawns), q) ==
      if q.row == row then Some(Piece(c, RowKind(pawns, q.col))) else Get(b, q)
  {
    if q.row == row {
      assert q in RowSquares(row);
    }
  }

  /** The piece resetBoard puts on an on-board square: white's back rank
      on row 1 and pawns on row 2, black's pawns on row 7 and back rank on
      row 8, nothing on rows 3 to 6. */
  function StartPiece(p: Position): Option<Piece>
    requires p.InBounds()
  {
    if p.row == 1 then Some(Piece(WHITE, BackRankKind(p.col)))
    else if p.row == 2 then Some(Piece(WHITE, PAWN))
    else if p.row == 7 then Some(Piece(BLACK, PAWN))
    else if p.row == 8 then Some(Piece(BLACK, BackRankKind(p.col)))
    else None
  }

  /** The four row fills of resetBoard on a grid e, in the source's order:
      white's back rank, white's pawns, black's back rank, black's pawns. */
  function PlaceArmies(e: Board): Board {
    var white := WithRow(WithRow(e, 1, WHITE, false), 2, WHITE, true);
    WithRow(WithRow(white, 8, BLACK, false), 7, BLACK, true)
  }

  /** The row fills put the starting piece on rows 1, 2, 7 and 8 and leave
      rows 3 to 6 as they were. */
  lemma PlaceArmiesCell(e: Board, p: Position)
    requires p.InBounds()
    ensures Get(PlaceArmies(e), p) == if 3 <= p.row <= 6 then Get(e, p) else StartPiece(p)
  {
    var b1 := WithRow(e, 1, WHITE, false);
    var b2 := WithRow(b1, 2, WHITE, true);
    var b3 := WithRow(b2, 8, BLACK, false);
    WithRowCell(e, 1, WHITE, false, p);
    WithRowCell(b1, 2, WHITE, true, p);
    WithRowCell(b2, 8, BLACK, false, p);
    WithRowCell(b3, 7, BLACK, true, p);
  }

  /** resetBoard: the row fills on a fresh, empty grid. */
  function ResetBoard(): Board {
    PlaceArmies(Empty())
  }

  /** Every square of the reset board holds its starting piece. */
  lemma ResetBoardLayout(p: Position)
    requires p.InBounds()
    ensures Get(ResetBoard(), p) == StartPiece(p)
  {
    PlaceArmiesCell(Empty(), p);
    EmptyHasNoPieces();
  }

  // ---------------------------------------------------------------------
  // doMove / undoMove

  /** What undoMove needs: the piece removed (or, for castling, the rook
      that was moved), the square it was taken from, and the piece that
      stood on the start square before the move. */
  datatype Undo = Undo(captured: Option<Piece>, site: Position, moved: Piece)

  datatype Applied = Applied(board: Board, undo: Undo)

  /** The rank a team's king and rooks start on. */
  function HomeRow(c: Color): int {
    if c == WHITE then 1 else 8
  }

  /** doMove dereferences the piece on the start square and indexes both
      squares, so it needs both on the board and the start occupied. */
  predicate MoveOnBoard(b: Board, m: Move) {
    m.start.InBounds() && m.end.InBounds() && Get(b, m.start).Some?
  }

  /** The piece that lands on the end square: the promotion kind, if any,
      in the mover's colour. */
  function Promoted(p: Piece, promotion: Option<PieceType>): (r: Piece)
    ensures r.color == p.color
  {
    if promotion.Some? then Piece(p.color, promotion.value) else p
  }

  /** A pawn changing column onto an empty square captures en passant. */
  predicate IsEnPassant(b: Board, m: Move)
    requires MoveOnBoard(b, m)
  {
    Get(b, m.start).value.kind == PAWN && m.start.col != m.end.col && Get(b, m.end).None?
  }

  /** A king moving more than one column. */
  predicate IsLongKingMove(b: Board, m: Move)
    requires MoveOnBoard(b, m)
  {
    Get(b, m.start).value.kind == KING && Abs(m.start.col - m.end.col) > 1
  }

  /** doMove relocates a rook only for long king moves ending on column 3
      or column 7. */
  predicate IsCastle(b: Board, m: Move)
    requires MoveOnBoard(b, m)
  {
    IsLongKingMove(b, m) && (m.end.col == 3 || m.end.col == 7)
  }

  /** The rook's square before castling, on the mover's home row. */
  function RookFrom(c: Color, m: Move): (p: Position)
    ensures p.InBounds()
  {
    Position(HomeRow(c), if m.end.col == 3 then 1 else 8)
  }

  /** The rook's square after castling, on the mover's home row. */
  function RookTo(c: Color, m: Move): (p: Position)
    ensures p.InBounds()
  {
    Position(HomeRow(c), if m.end.col == 3 then 4 else 6)
  }

  /** The square an en-passant capture empties: the start row, the end column. */
  function PassedSquare(m: Move): (p: Position)
    requires m.start.InBounds() && m.end.InBounds()
    ensures p.InBounds()
  {
    Position(m.start.row, m.end.col)
  }

  /** doMove: moves (and possibly promotes) the piece, applies the
      en-passant or castling side effect, and returns the board together
      with the token that undoes it. */
  function DoMove(b: Board, m: Move): (r: Applied)
    requires MoveOnBoard(b, m)
    ensures r.undo.moved == Get(b, m.start).value
    ensures r.undo.site.InBounds()
    ensures Get(r.board, m.start) == None
    ensures m.start != m.end ==> Get(r.board, m.end) == Some(Promoted(Get(b, m.start).value, m.promotion))
    // ordinary moves: the capture site is the end square, nothing else moves
    ensures !IsEnPassant(b, m) && !IsCastle(b, m) ==>
      && r.undo.site == m.end
      && r.undo.captured == Get(b, m.end)
      && forall q: Position | q.InBounds() && q != m.start && q != m.end :: Get(r.board, q) == Get(b, q)
    // en passant: the piece beside the start square, in the end column, is taken
    ensures IsEnPassant(b, m) ==>
      && r.undo.site == PassedSquare(m)
      && r.undo.captured == Get(b, PassedSquare(m))
      && (PassedSquare(m) != m.end ==> Get(r.board, PassedSquare(m)) == None)
      && forall q: Position | q.InBounds() && q != m.start && q != m.end && q != PassedSquare(m) :: Get(r.board, q) == Get(b, q)
    // castling: the rook jumps from its corner to the square next to the king's path
    ensures IsCastle(b, m) ==>
      var c := Get(b, m.start).value.color;
      && r.undo.site == RookFrom(c, m)
      && r.undo.captured == Get(b, RookFrom(c, m))
      && Get(r.board, RookTo(c, m)) == Get(b, RookFrom(c, m))
      && Get(r.board, RookFrom(c, m)) == None
      && forall q: Position | q.InBounds() && q != m.start && q != m.end && q != RookFrom(c, m) && q != RookTo(c, m) ::
           Get(r.board, q) == Get(b, q)
  {
    var moving := Get(b, m.start).value;
    var piece := Promoted(moving, m.promotion);
    if IsEnPassant(b, m) then
      var site := PassedSquare(m);
      var b1 := AddPiece(b, site, None);
      Applied(AddPiece(AddPiece(b1, m.end, Some(piece)), m.start, None), Undo(Get(b, site), site, moving))
    else if IsCastle(b, m) then
      var from := RookFrom(piece.color, m);
      var rook := Get(b, from);
      var b1 := AddPiece(AddPiece(b, RookTo(piece.color, m), rook), from, None);
      Applied(AddPiece(AddPiece(b1, m.end, Some(piece)), m.start, None), Undo(rook, from, moving))
    else
      Applied(AddPiece(AddPiece(b, m.end, Some(piece)), m.start, None), Undo(Get(b, m.end), m.end, moving))
  }

  /** The square undoMove empties after a long king move: column 4 when the
      king went to column 3, column 6 otherwise, on the king's start row. */
  function RookReturnSquare(m: Move): (p: Position)
    requires m.start.InBounds()
    ensures p.InBounds()
  {
    Position(m.start.row, if m.end.col == 3 then 4 else 6)
  }

  /** undoMove with the token: the original piece goes back to the start
      square, the end square is emptied, the captured piece (or castled
      rook) returns to its site, and after a long king move the relocated
      rook's square is cleared. */
  function UndoMove(b: Board, m: Move, u: Undo): (r: Board)
    requires m.start.InBounds() && m.end.InBounds() && u.site.InBounds()
    ensures Get(r, u.site) == u.captured || (u.moved.kind == KING && u.site == RookReturnSquare(m))
    ensures m.start != m.end && m.start != u.site && !(u.moved.kind == KING && Abs(m.end.col - m.start.col) > 1) ==>
      Get(r, m.start) == Some(u.moved)
    ensures m.end != u.site ==> Get(r, m.end) == None
    ensures u.moved.kind == KING && Abs(m.end.col - m.start.col) > 1 ==> Get(r, RookReturnSquare(m)) == None
    ensures forall q: Position | q.InBounds() && q != m.start && q != m.end && q != u.site && q != RookReturnSquare(m) ::
      Get(r, q) == Get(b, q)
  {
    var b1 := AddPiece(AddPiece(AddPiece(b, m.start, Some(u.moved)), m.end, None), u.site, u.captured);
    if u.moved.kind == KING && Abs(m.end.col - m.start.col) > 1 then
      AddPiece(b1, RookReturnSquare(m), None)
    else b1
  }

  /** undoMove exactly as the source writes it: the piece now on the end
      square (already promoted, for a promotion move) is what goes back to
      the start square, and the castling test looks at that piece's kind.
      The source dereferences that piece, so the end square must be occupied. */
  function UndoMoveAsWritten(b: Board, m: Move, captured: Option<Piece>, capturedPosition: Position): (r: Board)
    requires m.start.InBounds() && m.end.InBounds() && capturedPosition.InBounds()
    requires Get(b, m.end).Some?
    ensures m.start != m.end && m.start != capturedPosition && !(Get(b, m.end).value.kind == KING && Abs(m.end.col - m.start.col) > 1) ==>
      Get(r, m.start) == Get(b, m.end)
  {
    var piece := Get(b, m.end).value;
    var b1 := AddPiece(AddPiece(AddPiece(b, m.start, Some(piece)), m.end, None), capturedPosition, captured);
    if piece.kind == KING && Abs(m.end.col - m.start.col) > 1 then
      AddPiece(b1, RookReturnSquare(m), None)
    else b1
  }

  // ---------------------------------------------------------------------
  // Round trips

  /** The moves undoMove can invert: on the board, start and end distinct,
      and a long king move only as a castle from the home row onto an empty
      square with the rook's destination empty. (The source's undoMove
      clears (start row, 6) after any other long king move and uses the
      start row where doMove used the home row.) */
  predicate Reversible(b: Board, m: Move) {
    && MoveOnBoard(b, m)
    && m.start != m.end
    && (IsLongKingMove(b, m) ==>
          var c := Get(b, m.start).value.color;
          && (m.end.col == 3 || m.end.col == 7)
          && m.start.row == HomeRow(c)
          && Get(b, m.end).None?
          && Get(b, RookTo(c, m)).None?)
  }

  /** undoMove(m, doMove(m)) gives back the board, for every reversible
      move, including promotions, en-passant captures and castling. */
  lemma UndoDoMoveRoundTrip(b: Board, m: Move)
    requires Reversible(b, m)
    ensures UndoMove(DoMove(b, m).board, m, DoMove(b, m).undo) == b
  {
    var a := DoMove(b, m);
    var r := UndoMove(a.board, m, a.undo);
    RoundTripCells(b, m, a, r);
    SameBoardIsEquality(r, b);
  }

  lemma RoundTripCells(b: Board, m: Move, a: Applied, r: Board)
    requires Reversible(b, m)
    requires a == DoMove(b, m)
    requires r == UndoMove(a.board, m, a.undo)
    ensures SameBoard(r, b)
  {
    var c := Get(b, m.start).value.color;
    var u := a.undo;
    var b3 := AddPiece(AddPiece(AddPiece(a.board, m.start, Some(u.moved)), m.end, None), u.site, u.captured);
    if IsCastle(b, m) {
      assert RookReturnSquare(m) == RookTo(c, m);
      assert r == AddPiece(b3, RookTo(c, m), None);
      forall q: Position | q.InBounds()
        ensures Get(r, q) == Get(b, q)
      {
        if q != RookTo(c, m) && q != u.site && q != m.end && q != m.start {
          assert Get(r, q) == Get(a.board, q);
        }
      }
    } else if IsEnPassant(b, m) {
      assert r == b3;
      forall q: Position | q.InBounds()
        ensures Get(r, q) == Get(b, q)
      {
        if q != u.site && q != m.end && q != m.start {
          assert Get(r, q) == Get(a.board, q);
        }
      }
    } else {
      assert r == b3;
      forall q: Position | q.InBounds()
        ensures Get(r, q) == Get(b, q)
      {
        if q != m.end && q != m.start {
          assert Get(r, q) == Get(a.board, q);
        }
      }
    }
  }

  /** Given the unpromoted mover on the end square, the source's undoMove
      and the token-based one coincide. */
  lemma AsWrittenAgreesWithToken(b: Board, m: Move, u: Undo)
    requires m.start.InBounds() && m.end.InBounds() && u.site.InBounds()
    requires Get(b, m.end) == Some(u.moved)
    ensures UndoMoveAsWritten(b, m, u.captured, u.site) == UndoMove(b, m, u)
  {
  }

  /** The source's undoMove round-trips every reversible move that does
      not promote. */
  lemma UndoAsWrittenRoundTripWithoutPromotion(b: Board, m: Move)
    requires Reversible(b, m) && m.promotion.None?
    ensures var a := DoMove(b, m);
      Get(a.board, m.end).Some? &&
      UndoMoveAsWritten(a.board, m, a.undo.captured, a.undo.site) == b
  {
    var a := DoMove(b, m);
    assert Get(a.board, m.end) == Some(a.undo.moved);
    AsWrittenAgreesWithToken(a.board, m, a.undo);
    UndoDoMoveRoundTrip(b, m);
  }

  /** The source's undoMove does not round-trip a promotion: the promoted
      piece, not the pawn, is put back on the start square. */
  lemma UndoAsWrittenLosesPromotedPawn(b: Board, m: Move)
    requires Reversible(b, m) && m.promotion.Some?
    requires Get(b, m.start).value.kind == PAWN && m.promotion.value in {QUEEN, ROOK, BISHOP, KNIGHT}
    ensures var a := DoMove(b, m);
      Get(a.board, m.end).Some? &&
      UndoMoveAsWritten(a.board, m, a.undo.captured, a.undo.site) != b
  {
    var a := DoMove(b, m);
    var moving := Get(b, m.start).value;
    var r := UndoMoveAsWritten(a.board, m, a.undo.captured, a.undo.site);
    assert Get(a.board, m.end) == Some(Piece(moving.color, m.promotion.value));
    assert !IsCastle(b, m);
    assert a.undo.site != m.start;
    assert Get(r, m.start) == Some(Piece(moving.color, m.promotion.value));
  }

  /** A white pawn promoting to a queen on an otherwise empty board comes
      back from the source's undoMove as a queen. */
  lemma PromotionUndoAsWrittenExample()
    ensures var b := AddPiece(Empty(), Position(7, 1), Some(Piece(WHITE, PAWN)));
      var m := Move(Position(7, 1), Position(8, 1), Some(QUEEN));
      var a := DoMove(b, m);
      Get(a.board, m.end).Some? &&
      Get(UndoMoveAsWritten(a.board, m, a.undo.captured, a.undo.site), Position(7, 1)) == Some(Piece(WHITE, QUEEN))
  {
    var b := AddPiece(Empty(), Position(7, 1), Some(Piece(WHITE, PAWN)));
    var m := Move(Position(7, 1), Position(8, 1), Some(QUEEN));
    assert !IsEnPassant(b, m) && !IsCastle(b, m);
  }
}
