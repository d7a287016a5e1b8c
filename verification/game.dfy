/** ChessGame: legal moves by apply-test-rollback, check, checkmate,
    stalemate, and the turn-checked makeMove over an immutable game record.

    Board-level questions take the board as a parameter; the game record
    pairs a board with the team to move, as ChessGame's two fields do. */
module ChessGame {
  import opened ChessTypes
  import opened ChessBoard
  import opened MovesCalculator
  import opened PieceCalculators
  import opened PawnCalculator

  // ---------------------------------------------------------------------
  // ChessPiece.pieceMoves and canKillKing

  /** pieceMoves: the calculator for x's kind, run from s for x's team. */
  function PieceMoves(b: Board, s: Position, x: Piece): (r: seq<Move>)
    requires s.InBounds()
    ensures forall m | m in r :: m.start == s && m.promotion.None? && m.end.InBounds() && m.end != s
  {
    match x.kind
    case KING => KingMoves(b, s, x.color)
    case QUEEN => QueenMoves(b, s, x.color)
    case ROOK => RookMoves(b, s, x.color)
    case BISHOP => BishopMoves(b, s, x.color)
    case KNIGHT => KnightMoves(b, s, x.color)
    case PAWN => PawnMoves(b, s, x.color)
  }

  /** The piece standing on p. */
  function PieceAt(b: Board, p: Position): Piece
    requires p.InBounds() && Get(b, p).Some?
  {
    Get(b, p).value
  }

  /** canKillKing: some pseudo-legal move of the piece on p ends on the
      square of the other team's king. */
  predicate CanKillKing(b: Board, p: Position)
    requires p.InBounds() && Get(b, p).Some?
  {
    var x := PieceAt(b, p);
    exists m | m in PieceMoves(b, p, x) :: Get(b, m.end) == Some(Piece(Opp(x.color), KING))
  }

  /** Every pseudo-legal move can be applied by doMove and rolled back by
      undoMove: it starts on the piece's square, ends elsewhere on the
      board, carries no promotion, and a king never moves two columns. */
  lemma PseudoLegalReversible(b: Board, p: Position, m: Move)
    requires p.InBounds() && Get(b, p).Some?
    requires m in PieceMoves(b, p, PieceAt(b, p))
    ensures Reversible(b, m) && m.promotion.None?
  {
    var x := PieceAt(b, p);
    if x.kind == KING {
      KingMovesExact(b, p, x.color, m.end);
    }
  }

  // ---------------------------------------------------------------------
  // isInCheck

  /** The loop of isInCheck over the positions ps. */
  function AnyKiller(b: Board, ps: seq<Position>): (r: bool)
    requires forall p | p in ps :: p.InBounds() && Get(b, p).Some?
    ensures r <==> exists p | p in ps :: CanKillKing(b, p)
  {
    if ps == [] then false else CanKillKing(b, ps[0]) || AnyKiller(b, ps[1..])
  }

  /** isInCheck: some piece of the other team can capture c's king. */
  function IsInCheck(b: Board, c: Color): (r: bool)
    ensures r <==> exists p: Position | p.InBounds() && Owned(b, p, Opp(c)) :: CanKillKing(b, p)
  {
    AnyKiller(b, PiecesOf(b, Opp(c)))
  }

  // ---------------------------------------------------------------------
  // validMoves

  /** The test validMoves puts to each pseudo-legal move: doMove can apply
      it and afterwards team is not in check. */
  predicate SafeAfter(b: Board, team: Color, m: Move) {
    MoveOnBoard(b, m) && !IsInCheck(DoMove(b, m).board, team)
  }

  /** SafeAfter as a test on moves alone, for one board and team. */
  function SafeTest(b: Board, team: Color): Move -> bool {
    m => SafeAfter(b, team, m)
  }

  /** The moves of ms that pass keep, in order; validMoves' loop, unrolled
      from the back so that each iteration appends. */
  function Keep(ms: seq<Move>, keep: Move -> bool): (r: seq<Move>)
    ensures forall m | m in r :: m in ms && keep(m)
    ensures forall m | m in ms && keep(m) :: m in r
    ensures |r| <= |ms|
  {
    if ms == [] then []
    else
      var init, last := ms[..|ms| - 1], ms[|ms| - 1];
      assert ms == init + [last];
      Keep(init, keep) + (if keep(last) then [last] else [])
  }

  /** One more move of the list: Keep appends it when it passes. */
  lemma KeepStep(ms: seq<Move>, keep: Move -> bool, i: int)
    requires 0 <= i < |ms|
    ensures Keep(ms[..i + 1], keep) == Keep(ms[..i], keep) + (if keep(ms[i]) then [ms[i]] else [])
  {
    assert ms[..i + 1][..i] == ms[..i];
  }

  /** validMoves: None for an empty square; otherwise exactly the
      pseudo-legal moves of the piece after which its team is not in check. */
  function ValidMoves(b: Board, p: Position): (r: Option<seq<Move>>)
    requires p.InBounds()
    ensures r.None? <==> Get(b, p).None?
    ensures r.Some? ==> forall m | m in r.value :: MoveOnBoard(b, m) && m.start == p
    ensures r.Some? ==> forall m :: m in r.value <==>
      m in PieceMoves(b, p, PieceAt(b, p)) && !IsInCheck(DoMove(b, m).board, PieceAt(b, p).color)
  {
    if Get(b, p).None? then None
    else
      var x := PieceAt(b, p);
      Some(Keep(PieceMoves(b, p, x), SafeTest(b, x.color)))
  }

  /** One iteration of validMoves' loop: apply the move, ask whether team
      is in check, and undo the move with the source's undoMove, which
      gives back the board it started from. */
  method TryMove(b: Board, m: Move, team: Color) returns (safe: bool, restored: Board)
    requires Reversible(b, m) && m.promotion.None?
    ensures safe == SafeTest(b, team)(m)
    ensures restored == b
  {
    var applied := DoMove(b, m);
    safe := !IsInCheck(applied.board, team);
    UndoAsWrittenRoundTripWithoutPromotion(b, m);
    restored := UndoMoveAsWritten(applied.board, m, applied.undo.captured, applied.undo.site);
  }

  /** The loop of validMoves over the potential moves: keeps, in order,
      those after which team is not in check, and hands back the board it
      was given. */
  method FilterByRollback(b: Board, team: Color, potential: seq<Move>) returns (valid: seq<Move>, after: Board)
    requires forall m | m in potential :: Reversible(b, m) && m.promotion.None?
    ensures after == b
    ensures valid == Keep(potential, SafeTest(b, team))
  {
    after := b;
    valid := [];
    for i := 0 to |potential|
      invariant after == b
      invariant valid == Keep(potential[..i], SafeTest(b, team))
    {
      var m := potential[i];
      KeepStep(potential, SafeTest(b, team), i);
      var safe;
      safe, after := TryMove(after, m, team);
      if safe {
        valid := valid + [m];
      }
    }
    assert potential[..|potential|] == potential;
  }

  /** validMoves as the source runs it on its one mutable board: apply each
      pseudo-legal move, ask whether the mover is in check, and roll the
      move back with the source's undoMove. The board is the caller's
      board again afterwards, and the moves kept are ValidMoves. */
  method ValidMovesByRollback(b: Board, p: Position) returns (r: Option<seq<Move>>, after: Board)
    requires p.InBounds()
    ensures after == b
    ensures r == ValidMoves(b, p)
  {
    if Get(b, p).None? {
      return None, b;
    }
    var x := PieceAt(b, p);
    var potential := PieceMoves(b, p, x);
    forall m | m in potential
      ensures Reversible(b, m) && m.promotion.None?
    {
      PseudoLegalReversible(b, p, m);
    }
    var valid;
    valid, after := FilterByRollback(b, x.color, potential);
    r := Some(valid);
  }

  // ---------------------------------------------------------------------
  // isInCheckmate and isInStalemate

  /** The valid moves of an occupied square. */
  function LegalMoves(b: Board, p: Position): (r: seq<Move>)
    requires p.InBounds() && Get(b, p).Some?
    ensures Some(r) == ValidMoves(b, p)
    ensures forall m | m in r :: MoveOnBoard(b, m) && !IsInCheck(DoMove(b, m).board, PieceAt(b, p).color)
  {
    ValidMoves(b, p).value
  }

  /** No piece of team c has a legal move. */
  ghost predicate NoLegalMove(b: Board, c: Color) {
    forall p: Position | p.InBounds() && Owned(b, p, c) :: LegalMoves(b, p) == []
  }

  /** The inner loop of isInCheckmate: some move of ms leaves team out of
      check. */
  function AnyEscape(b: Board, team: Color, ms: seq<Move>): (r: bool)
    requires forall m | m in ms :: MoveOnBoard(b, m)
    ensures r <==> exists m | m in ms :: !IsInCheck(DoMove(b, m).board, team)
  {
    if ms == [] then false else !IsInCheck(DoMove(b, ms[0]).board, team) || AnyEscape(b, team, ms[1..])
  }

  /** Some legal move of the piece on p leaves team out of check. */
  predicate EscapesFrom(b: Board, team: Color, p: Position)
    requires p.InBounds() && Get(b, p).Some?
  {
    AnyEscape(b, team, LegalMoves(b, p))
  }

  /** The outer loop of isInCheckmate over the team's positions ps. */
  function AnyPieceEscapes(b: Board, team: Color, ps: seq<Position>): (r: bool)
    requires forall p | p in ps :: p.InBounds() && Get(b, p).Some?
    ensures r <==> exists p | p in ps :: EscapesFrom(b, team, p)
  {
    if ps == [] then false
    else EscapesFrom(b, team, ps[0]) || AnyPieceEscapes(b, team, ps[1..])
  }

  /** isInCheckmate: in check, and no legal move of any own piece gets the
      team out of check. */
  function IsInCheckmate(b: Board, team: Color): (r: bool)
    ensures r ==> IsInCheck(b, team)
  {
    IsInCheck(b, team) && !AnyPieceEscapes(b, team, PiecesOf(b, team))
  }

  /** The loop of isInStalemate: some position of ps has a legal move. */
  function AnyPieceCanMove(b: Board, ps: seq<Position>): (r: bool)
    requires forall p | p in ps :: p.InBounds() && Get(b, p).Some?
    ensures r <==> exists p | p in ps :: LegalMoves(b, p) != []
  {
    if ps == [] then false else LegalMoves(b, ps[0]) != [] || AnyPieceCanMove(b, ps[1..])
  }

  /** isInStalemate: not in check and no own piece has a legal move. */
  function IsInStalemate(b: Board, team: Color): (r: bool)
    ensures r ==> !IsInCheck(b, team)
    ensures r ==> !IsInCheckmate(b, team)
  {
    !IsInCheck(b, team) && !AnyPieceCanMove(b, PiecesOf(b, team))
  }

  /** A legal move always escapes check, so a piece has an escaping move
      exactly when it has a legal move. */
  lemma EscapeIffLegal(b: Board, p: Position, team: Color)
    requires p.InBounds() && Owned(b, p, team)
    ensures EscapesFrom(b, team, p) <==> LegalMoves(b, p) != []
  {
    var vs := LegalMoves(b, p);
    if vs != [] {
      assert vs[0] in vs;
    }
  }

  /** Checkmate is exactly: in check, and no own piece has a legal move. */
  lemma CheckmateExact(b: Board, team: Color)
    ensures IsInCheckmate(b, team) <==> IsInCheck(b, team) && NoLegalMove(b, team)
  {
    var ps := PiecesOf(b, team);
    forall p | p in ps
      ensures EscapesFrom(b, team, p) <==> LegalMoves(b, p) != []
    {
      EscapeIffLegal(b, p, team);
    }
    if !NoLegalMove(b, team) {
      var p: Position :| p.InBounds() && Owned(b, p, team) && LegalMoves(b, p) != [];
      assert p in ps;
    }
  }

  /** Stalemate is exactly: not in check, and no own piece has a legal move. */
  lemma StalemateExact(b: Board, team: Color)
    ensures IsInStalemate(b, team) <==> !IsInCheck(b, team) && NoLegalMove(b, team)
  {
    var ps := PiecesOf(b, team);
    if !NoLegalMove(b, team) {
      var p: Position :| p.InBounds() && Owned(b, p, team) && LegalMoves(b, p) != [];
      assert p in ps;
    }
  }

  // ---------------------------------------------------------------------
  // The game record and makeMove

  datatype Game = Game(board: Board, turn: Color)

  /** Why makeMove refuses a move. The source throws InvalidMoveException
      for the first three; reading an off-board start square is an array
      index fault there. */
  datatype MoveError = EmptyStart | NotYourTurn | IllegalMove | StartOffBoard

  /** A new game: the standard opening position, WHITE to move. */
  function NewGame(): Game {
    Game(ResetBoard(), WHITE)
  }

  /** A new game starts from the opening position with WHITE to move. */
  lemma NewGameOpening(p: Position)
    requires p.InBounds()
    ensures NewGame().turn == WHITE
    ensures Get(NewGame().board, p) == StartPiece(p)
  {
    ResetBoardLayout(p);
  }

  /** makeMove: refuses a move from an empty square, of the team not on
      turn, or not among the piece's valid moves; otherwise applies it and
      passes the turn. */
  function MakeMove(g: Game, m: Move): (r: Result<Game, MoveError>)
    ensures r.Failure? <==>
      || !m.start.InBounds()
      || Get(g.board, m.start).None?
      || PieceAt(g.board, m.start).color != g.turn
      || m !in ValidMoves(g.board, m.start).value
    ensures r.Failure? && m.start.InBounds() ==>
      (r.error == EmptyStart <==> Get(g.board, m.start).None?)
    ensures r.Success? ==>
      && MoveOnBoard(g.board, m)
      && r.value.board == DoMove(g.board, m).board
      && r.value.turn == Opp(g.turn)
      && !IsInCheck(r.value.board, g.turn)
  {
    if !m.start.InBounds() then Failure(StartOffBoard)
    else if Get(g.board, m.start).None? then Failure(EmptyStart)
    else if PieceAt(g.board, m.start).color != g.turn then Failure(NotYourTurn)
    else if m !in ValidMoves(g.board, m.start).value then Failure(IllegalMove)
    else Success(Game(DoMove(g.board, m).board, Opp(g.turn)))
  }

  /** No pseudo-legal move carries a promotion, so makeMove refuses every
      move that asks for one, including the pawn moves onto the last row
      that the client asks a promotion piece for. */
  lemma MakeMoveRefusesPromotion(g: Game, m: Move)
    requires m.promotion.Some?
    ensures MakeMove(g, m).Failure?
  {
    if m.start.InBounds() && Get(g.board, m.start).Some? && m in ValidMoves(g.board, m.start).value {
      PseudoLegalReversible(g.board, m.start, m);
    }
  }
}
