/** The two pure decisions the console client makes while a player enters
    a move: reading a square in algebraic notation ("e2") and choosing the
    promotion piece when a pawn reaches the far row. Every line the client
    reads is trimmed with String.trim first. */
module GameUI {
  import opened ChessTypes
  import opened JavaText
  import opened ChessBoard
  import opened ChessGame

  // ---------------------------------------------------------------------
  // Square notation

  /** A square in notation: a file letter a-h and a rank digit 1-8. */
  predicate IsSquareName(s: string) {
    |s| == 2 && 'a' <= s[0] <= 'h' && '1' <= s[1] <= '8'
  }

  /** parsePosition: exactly two characters, the first counted from 'a' as
      the column and the second from '1' as the row, both in 1..8; None
      stands for the source's null. */
  function ParsePosition(input: string): (r: Option<Position>)
    ensures r.Some? <==> IsSquareName(input)
    ensures r.Some? ==> && r.value.InBounds()
                        && r.value.col == (input[0] as int) - ('a' as int) + 1
                        && r.value.row == (input[1] as int) - ('0' as int)
  {
    if |input| == 2 then
      var col := (input[0] as int) - ('a' as int) + 1;
      var row := (input[1] as int) - ('1' as int) + 1;
      if 0 < col < 9 && 0 < row < 9 then Some(Position(row, col)) else None
    else None
  }

  /** What the client makes of a line typed at the square prompt. */
  function ReadSquare(line: string): (r: Option<Position>)
    ensures r.Some? <==> IsSquareName(Trim(line))
    ensures r.Some? ==> r.value.InBounds()
  {
    ParsePosition(Trim(line))
  }

  /** Blanks around a square name do not matter: " e2 " reads as "e2". */
  lemma ReadSquareIgnoresMargins(line: string)
    ensures ReadSquare(Trim(line)) == ReadSquare(line)
  {
    TrimIdempotent(line);
  }

  // ---------------------------------------------------------------------
  // Promotion choice

  /** The kinds a pawn may be promoted to. */
  predicate Promotable(k: PieceType) {
    k == QUEEN || k == ROOK || k == BISHOP || k == KNIGHT
  }

  /** The name the client expects for each promotable kind. */
  function PromotionName(k: PieceType): (r: string)
    requires Promotable(k)
    ensures |r| >= 4
  {
    match k
    case QUEEN => "queen"
    case ROOK => "rook"
    case BISHOP => "bishop"
    case KNIGHT => "knight"
  }

  /** The switch on the typed name: the four lower-case names select their
      kind, anything else is rejected. */
  function PromotionFromName(name: string): (r: Option<PieceType>)
    ensures r.Some? <==> name in {"queen", "rook", "bishop", "knight"}
    ensures r.Some? ==> Promotable(r.value)
  {
    if name == "queen" then Some(QUEEN)
    else if name == "rook" then Some(ROOK)
    else if name == "bishop" then Some(BISHOP)
    else if name == "knight" then Some(KNIGHT)
    else None
  }

  /** The names and the kinds correspond one to one. */
  lemma PromotionNameRoundTrip(k: PieceType, name: string)
    ensures Promotable(k) ==> PromotionFromName(PromotionName(k)) == Some(k)
    ensures PromotionFromName(name) == Some(k) ==> Promotable(k) && PromotionName(k) == name
  {
  }

  /** The client asks for a promotion piece only when the player moves a
      pawn onto the row the player's opponent starts on: row 8 for WHITE,
      row 1 for BLACK. */
  predicate AsksForPromotion(player: Color, piece: Piece, end: Position) {
    && piece.kind == PAWN
    && ((player == BLACK && end.row == 1) || (player == WHITE && end.row == 8))
  }

  lemma AsksForPromotionExact(player: Color, piece: Piece, end: Position)
    ensures AsksForPromotion(player, piece, end) <==> piece.kind == PAWN && end.row == HomeRow(Opp(player))
  {
  }

  /** The move the client builds from the two squares and, when it asks for
      one, the line typed at the promotion prompt. A name it does not know
      leaves the promotion empty. */
  function BuildMove(player: Color, piece: Piece, start: Position, end: Position, promotionLine: string): (m: Move)
    ensures m.start == start && m.end == end
    ensures m.promotion.Some? <==> AsksForPromotion(player, piece, end) && Trim(promotionLine) in {"queen", "rook", "bishop", "knight"}
    ensures m.promotion.Some? ==> Promotable(m.promotion.value)
  {
    var promotion := if AsksForPromotion(player, piece, end) then PromotionFromName(Trim(promotionLine)) else None;
    Move(start, end, promotion)
  }

  /** Whenever the client does obtain a promotion piece, the engine refuses
      the move it builds: no pseudo-legal move carries a promotion. */
  lemma PromotionRequestRefused(g: Game, player: Color, piece: Piece, start: Position, end: Position, promotionLine: string)
    requires AsksForPromotion(player, piece, end)
    requires Trim(promotionLine) in {"queen", "rook", "bishop", "knight"}
    ensures MakeMove(g, BuildMove(player, piece, start, end, promotionLine)).Failure?
  {
    MakeMoveRefusesPromotion(g, BuildMove(player, piece, start, end, promotionLine));
  }
}
