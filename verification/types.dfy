/** Value types shared by the whole engine: colours, piece kinds, pieces,
    board coordinates and moves, plus the small Option/Result wrappers the
    model uses where the source returns null or throws. */
module ChessTypes {

  datatype Option<T> = None | Some(value: T)

  datatype Result<T, E> = Success(value: T) | Failure(error: E)

  datatype Color = WHITE | BLACK

  /** The other team. */
  function Opp(c: Color): (r: Color)
    ensures r != c
  {
    if c == WHITE then BLACK else WHITE
  }

  /** The seat of colour c, given what sits in the white and the black
      seat. */
  function Seat<T>(white: T, black: T, c: Color): T {
    if c == WHITE then white else black
  }

  datatype PieceType = KING | QUEEN | ROOK | BISHOP | KNIGHT | PAWN

  datatype Piece = Piece(color: Color, kind: PieceType)

  /** A 1-based (row, column) coordinate. Out-of-board values are legal
      values of the type: move generation produces them transiently and
      filters them with InBounds. */
  datatype Position = Position(row: int, col: int) {
    predicate InBounds() {
      1 <= row <= 8 && 1 <= col <= 8
    }
  }

  /** A move; promotion is None for every move that does not promote. */
  datatype Move = Move(start: Position, end: Position, promotion: Option<PieceType>)

  function Abs(x: int): nat {
    if x < 0 then -x else x
  }

  function Sign(x: int): int {
    if x < 0 then -1 else if x == 0 then 0 else 1
  }

  function Max(a: int, b: int): int {
    if a < b then b else a
  }
}
