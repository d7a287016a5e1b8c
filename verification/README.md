# Chess rules engine — a Dafny model

This project models the rules engine of the Java chess application
Vandensj/chess. The engine is the `shared/src/main/java/chess` package. It has:

- an 8×8 board with `getPiece`, `addPiece`, `getPieces`, `resetBoard`, `doMove`, `undoMove` and `equals`;
- the shared ray/step move generator `calculateLinearMoves` and the six per-piece calculators;
- the game's legality filter `validMoves`, which applies a move, tests for check and rolls the move back;
- the game's `makeMove`, `isInCheck`, `isInCheckmate` and `isInStalemate`.

Three small pure rules at the edge of the engine are also modelled:

- the console client's square parsing (`GameUI.parsePosition`) and its promotion-piece choice;
- the server's square formatting (`WebSocketServer.formatPosition`) and its "whose turn is it" test;
- the game service's rules for creating, listing and joining games.

The model is functional throughout:

- The board is an immutable finite map from on-board squares to pieces.
- `doMove` returns the new board together with an explicit undo token: the captured piece, the capture site and the piece that moved. The source instead keeps the last capture site in one mutable field (`capturedPosition`).
- `makeMove` returns a `Result` over an immutable game record (board, side to move).
- Java exceptions and `null` results become `Failure`/`None` values.

Files and modules:

| file | module | what it holds |
|---|---|---|
| `types.dfy` | `ChessTypes` | colours, piece kinds, pieces, positions, moves, `Option`/`Result` |
| `board.dfy` | `ChessBoard` | the board, `getPieces`, `resetBoard`, `doMove`/`undoMove` and their round trip |
| `moves.dfy` | `MovesCalculator` | the ray/step generator and its exact characterisation |
| `pieces.dfy` | `PieceCalculators` | bishop, rook, queen, king, knight |
| `pawn.dfy` | `PawnCalculator` | the pawn calculator, intended and as written |
| `game.dfy` | `ChessGame` | `validMoves`, check, checkmate, stalemate, `makeMove` |
| `text.dfy` | `JavaText` | `String.trim` |
| `ui.dfy` | `GameUI` | `parsePosition`, the promotion prompt |
| `server.dfy` | `WebSocketServer` | `formatPosition`, the turn-ownership test |
| `service.dfy` | `GameService` | `createGame`, `listGames`, `joinGame` |

Where the code departs from the rules of chess, or from what its own callers need, the model follows the code:

- **Promotion moves.** Under the rules of chess a pawn reaching the far rank promotes to a queen, rook, bishop or knight. `PawnMovesCalculator` has a branch for this (lines 17-21) but adds the same unpromoted move on both sides of it, and has no white branch at all, so no pseudo-legal move carries a promotion. `makeMove` therefore refuses every promotion request (`ChessGame.MakeMoveRefusesPromotion`, `GameUI.PromotionRequestRefused`).
- **Castling and en passant.** Under the rules of chess both are legal moves, subject to castling rights and to the pawn having just advanced two squares. `ChessGame.java` generates neither and keeps no such state. Only the board-level side effects of such moves, inside `doMove`/`undoMove`, are modelled.
- **The undo round trip.** `validMoves` tries each move with `doMove` and takes it back with `undoMove`, so `undoMove` must invert `doMove` exactly. The code does not do so for promotions; see Findings.
- **The pawn calculator.** The code departs from the rules its own comments state. Both versions are modelled; see Findings. The rest of the model uses the intended one.
- **Static calculators.** `KingMovesCalculator` and `QueenMovesCalculator` declare `calculateMoves` `static` while calling the inherited instance helper `calculateLinearMoves` (line 7 of each), which Java does not accept. The model gives them their evident meaning: the eight-direction table, single-step for the king and sliding for the queen.

## Model

| member | source | states |
|---|---|---|
| ChessBoard.AddPiece | shared/src/main/java/chess/ChessBoard.java:113-126 | after `addPiece(p, x)`, `getPiece(p)` is `x` and every other on-board square reads as before |
| ChessBoard.SameBoardIsEquality | shared/src/main/java/chess/ChessBoard.java:158-168 | `equals` (cell-by-cell deep equality of the grids) holds exactly when the two boards are the same value |
| ChessBoard.PiecesOf | shared/src/main/java/chess/ChessBoard.java:95-105 | `getPieces(c)` lists exactly the on-board squares that hold a piece of team `c` |
| ChessBoard.ResetBoardLayout | shared/src/main/java/chess/ChessBoard.java:132-156 | after `resetBoard`, row 1 is white R N B Q K B N R, row 2 white pawns, row 7 black pawns, row 8 black R N B Q K B N R, rows 3-6 empty |
| ChessBoard.PlaceArmiesCell | shared/src/main/java/chess/ChessBoard.java:134-155 | the four row fills of `resetBoard` put the starting pieces on rows 1, 2, 7 and 8 and leave rows 3-6 untouched |
| ChessBoard.DoMove | shared/src/main/java/chess/ChessBoard.java:26-75 | the start square is emptied and the end square gets the moving piece, promoted if asked. An ordinary move returns the end square's old occupant and changes no other square. En passant removes and returns the piece at (start row, end column). Castling to column 3 or 7 moves the home-row rook from column 1 to 4 or from 8 to 6 |
| ChessBoard.UndoMove | shared/src/main/java/chess/ChessBoard.java:77-92 | undo puts the original piece back on the start square, restores the captured piece (or rook) at its site, clears the relocated rook after a long king move, and touches no other square |
| ChessBoard.UndoDoMoveRoundTrip | shared/src/main/java/chess/ChessBoard.java:77-92 | undoing a move with its token gives back the exact board, for ordinary moves, promotions, en-passant captures and castling |
| ChessBoard.UndoMoveAsWritten | shared/src/main/java/chess/ChessBoard.java:77-92 | the source's `undoMove` puts whatever piece now stands on the end square back on the start square |
| ChessBoard.AsWrittenAgreesWithToken | shared/src/main/java/chess/ChessBoard.java:77-92 | when the end square holds the unpromoted mover, the source's `undoMove` and the token-based undo coincide |
| ChessBoard.UndoAsWrittenRoundTripWithoutPromotion | shared/src/main/java/chess/ChessBoard.java:77-92 | the source's `undoMove` inverts `doMove` for every reversible move that does not promote |
| ChessBoard.UndoAsWrittenLosesPromotedPawn | shared/src/main/java/chess/ChessBoard.java:78-79 | for a pawn promotion the source's `undoMove` does not give back the board: the promoted piece returns to the start square |
| ChessBoard.PromotionUndoAsWrittenExample | shared/src/main/java/chess/ChessBoard.java:78-79 | a white pawn promoted to a queen on a7-a8 comes back as a queen on a7 |
| MovesCalculator.TimesIsProduct | shared/src/main/java/chess/MovesCalculator.java:20 | the repeated addition used for `dy*depth` and `dx*depth` is multiplication |
| MovesCalculator.Ray | shared/src/main/java/chess/MovesCalculator.java:19-36 | every move of one direction starts at the start square, has no promotion, ends on the board away from the start and not on a piece of the mover's team; a single-step generator gives at most one |
| MovesCalculator.RayExact | shared/src/main/java/chess/MovesCalculator.java:17-36 | a direction yields exactly the squares k steps along it (k = 1 when not iterative) with every earlier square on the ray empty, on the board and not held by the mover's team, so the first occupied square ends the ray and is taken only if it is an enemy |
| MovesCalculator.LinearMoves | shared/src/main/java/chess/MovesCalculator.java:11-40 | every generated move starts at the start square, has no promotion, ends on the board and not on a friendly piece; with `iterative` false there is at most one move per direction |
| MovesCalculator.LinearMovesExact | shared/src/main/java/chess/MovesCalculator.java:11-40 | a square is generated exactly when some listed direction reaches it by the ray rule |
| MovesCalculator.LinearMovesAppend | shared/src/main/java/chess/MovesCalculator.java:14-37 | the moves for two concatenated direction tables are the moves of the first table followed by those of the second |
| MovesCalculator.SlidingExact | shared/src/main/java/chess/MovesCalculator.java:19-36 | a sliding generator over unit directions reaches exactly the on-board squares on a line through the start whose direction is listed, over empty squares, not held by the mover's team |
| MovesCalculator.SingleStepExact | shared/src/main/java/chess/MovesCalculator.java:19-36 | a single-step generator reaches exactly the on-board squares one listed offset away that the mover's team does not hold |
| PieceCalculators.BishopMovesExact | shared/src/main/java/chess/BishopMovesCalculator.java:10-18 | the bishop reaches exactly the squares with \|Δrow\| = \|Δcol\| ≥ 1, over empty squares, not held by its own team |
| PieceCalculators.RookMovesExact | shared/src/main/java/chess/RookMovesCalculator.java:10-17 | the rook reaches exactly the squares that change exactly one of row and column, over empty squares, not held by its own team |
| PieceCalculators.QueenIsBishopPlusRook | shared/src/main/java/chess/QueenMovesCalculator.java:9-14 | the queen's table is the bishop's followed by the rook's, and the queen's moves are the bishop's moves followed by the rook's |
| PieceCalculators.QueenMovesExact | shared/src/main/java/chess/QueenMovesCalculator.java:9-14 | the queen reaches exactly the other squares on a row, column or diagonal through it, over empty squares, not held by its own team |
| PieceCalculators.KingMoves | shared/src/main/java/chess/KingMovesCalculator.java:9-14 | the king has at most 8 moves, all on the board and none onto its own team |
| PieceCalculators.KingMovesExact | shared/src/main/java/chess/KingMovesCalculator.java:9-14 | the king reaches exactly the on-board squares with max(\|Δrow\|, \|Δcol\|) = 1 that its own team does not hold |
| PieceCalculators.KnightMoves | shared/src/main/java/chess/KnightMovesCalculator.java:10-22 | the knight has at most 8 moves, all on the board and none onto its own team |
| PieceCalculators.KnightMovesExact | shared/src/main/java/chess/KnightMovesCalculator.java:10-22 | the knight reaches exactly the on-board squares one L-shaped jump ({\|Δrow\|, \|Δcol\|} = {1, 2}) away that its own team does not hold, whatever stands between |
| PawnCalculator.PawnMovesExact | shared/src/main/java/chess/PawnMovesCalculator.java:12-33 | the intended pawn generates exactly: one square forward onto an empty square; two forward from its home row (2 for WHITE, 7 for BLACK) over two empty squares; one diagonally forward onto an enemy piece |
| PawnCalculator.PawnMoveGeometry | shared/src/main/java/chess/PawnMovesCalculator.java:12-37 | every pawn move starts on the pawn, has no promotion, goes one or two rows forward (up for WHITE, down for BLACK) and at most one column aside, and goes aside only one row and onto an enemy |
| PawnCalculator.HomeAdvances | shared/src/main/java/chess/PawnMovesCalculator.java:23-26 | from its home row a pawn advances one square exactly when that square is empty, and two exactly when both squares ahead are empty |
| PawnCalculator.DiagonalsAsWritten | shared/src/main/java/chess/PawnMovesCalculator.java:27-33 | the captures as written fault exactly for a pawn on column 1 above row 1, and otherwise never stay in the pawn's column |
| PawnCalculator.MovesAsWritten | shared/src/main/java/chess/PawnMovesCalculator.java:9-41 | as written, a white pawn has no moves, and a black pawn's calculation faults exactly on row 1 or column 1 |
| PawnCalculator.WhitePawnHasNoMovesAsWritten | shared/src/main/java/chess/PawnMovesCalculator.java:36-41 | a white pawn on row 2 with two empty squares ahead gets no moves as written, but both advances in the intended calculator |
| PawnCalculator.BlackHomeAdvancesAsWritten | shared/src/main/java/chess/PawnMovesCalculator.java:15-26 | as written, a black pawn on row 7 is offered both advances exactly when the square ahead is occupied |
| PawnCalculator.BlackAdvanceInvertedAsWritten | shared/src/main/java/chess/PawnMovesCalculator.java:15-26 | a black pawn on row 7 with two empty squares ahead gets neither advance as written, and both in the intended calculator |
| PawnCalculator.BlackAdvanceIntoPieceAsWritten | shared/src/main/java/chess/PawnMovesCalculator.java:15-26 | a black pawn on row 7 with a piece directly ahead is offered that square and the jump over it as written, and neither in the intended calculator |
| PawnCalculator.BlackPawnOnLastRowFaults | shared/src/main/java/chess/PawnMovesCalculator.java:15-16 | as written, a black pawn on row 1 reads row 0 and faults; the intended calculator gives it no moves |
| PawnCalculator.BlackPawnOnFirstColumnFaults | shared/src/main/java/chess/PawnMovesCalculator.java:31-32 | as written, a black pawn on column 1 reads column 0 and faults; the intended calculator gives exactly the pawn's targets |
| PawnCalculator.OpeningBlackPawnFaults | shared/src/main/java/chess/PawnMovesCalculator.java:31-32 | the opening position's black pawn on a7 faults as written, while the intended calculator offers a6 and a5 |
| PawnCalculator.LastColumnStraightAsWritten | shared/src/main/java/chess/PawnMovesCalculator.java:28-33 | as written, a black pawn on column 8 is offered only moves along column 8 |
| PawnCalculator.BlackPawnOnLastColumnMissesCapture | shared/src/main/java/chess/PawnMovesCalculator.java:28-33 | a black pawn on column 8 with an enemy diagonally ahead on column 7 is not offered the capture as written, but is in the intended calculator |
| ChessGame.PieceMoves | shared/src/main/java/chess/ChessGame.java:58 | every pseudo-legal move starts on the piece's square, has no promotion and ends on another on-board square |
| ChessGame.PseudoLegalReversible | shared/src/main/java/chess/ChessGame.java:62-69 | every pseudo-legal move can be applied by `doMove` and rolled back by `undoMove` |
| ChessGame.IsInCheck | shared/src/main/java/chess/ChessGame.java:100-107 | a team is in check exactly when some piece of the other team has a pseudo-legal move onto that team's king |
| ChessGame.Keep | shared/src/main/java/chess/ChessGame.java:62-70 | the filtered list holds exactly the moves of the input that pass the test, and is no longer than the input |
| ChessGame.ValidMoves | shared/src/main/java/chess/ChessGame.java:54-73 | `validMoves(p)` is absent exactly when p is empty; otherwise it is exactly the pseudo-legal moves of the piece after which its team is not in check |
| ChessGame.TryMove | shared/src/main/java/chess/ChessGame.java:63-69 | one loop step applies the move, reports whether the mover is safe, and the source's `undoMove` restores the board |
| ChessGame.FilterByRollback | shared/src/main/java/chess/ChessGame.java:62-72 | the loop keeps, in order, exactly the moves that pass the check test, and leaves the board as it found it |
| ChessGame.ValidMovesByRollback | shared/src/main/java/chess/ChessGame.java:54-73 | `validMoves` run by apply/test/rollback on one board returns `ValidMoves` and hands back the board unchanged |
| ChessGame.IsInCheckmate | shared/src/main/java/chess/ChessGame.java:115-132 | checkmate implies check |
| ChessGame.IsInStalemate | shared/src/main/java/chess/ChessGame.java:141-153 | stalemate excludes check and excludes checkmate |
| ChessGame.CheckmateExact | shared/src/main/java/chess/ChessGame.java:115-132 | checkmate holds exactly when the team is in check and no own piece has a valid move |
| ChessGame.StalemateExact | shared/src/main/java/chess/ChessGame.java:141-153 | stalemate holds exactly when the team is not in check and no own piece has a valid move |
| ChessGame.NewGameOpening | shared/src/main/java/chess/ChessGame.java:17-21 | a new game holds the opening position with WHITE to move |
| ChessGame.MakeMove | shared/src/main/java/chess/ChessGame.java:81-92 | `makeMove` fails exactly for an empty start square, a piece not on turn, or a move not in `validMoves`; on success the board is `doMove`'s board, the turn passes, and the mover is not in check |
| ChessGame.MakeMoveRefusesPromotion | shared/src/main/java/chess/ChessGame.java:86-89 | every move that asks for a promotion is refused |
| JavaText.Trim | server/src/main/java/service/GameService.java:34 | trimming cuts blank characters (code ≤ U+0020) from both ends and leaves a slice that neither starts nor ends with one |
| JavaText.TrimEmptyIffBlank | server/src/main/java/service/GameService.java:34 | a string trims to nothing exactly when every character is blank |
| GameUI.ParsePosition | client/src/main/java/ui/GameUI.java:213-227 | a square is returned exactly for two-character input matching [a-h][1-8], with column = letter − 'a' + 1 and row = digit |
| GameUI.ReadSquare | client/src/main/java/ui/GameUI.java:130 | a typed line gives a square exactly when its trimmed text matches [a-h][1-8] |
| GameUI.ReadSquareIgnoresMargins | client/src/main/java/ui/GameUI.java:130 | blanks around a typed square do not change the square read |
| GameUI.PromotionFromName | client/src/main/java/ui/GameUI.java:152-166 | exactly "queen", "rook", "bishop" and "knight" select a promotion kind, always a promotable one |
| GameUI.PromotionNameRoundTrip | client/src/main/java/ui/GameUI.java:152-164 | the four names and the four promotable kinds correspond one to one |
| GameUI.AsksForPromotionExact | client/src/main/java/ui/GameUI.java:148-150 | the client asks for a promotion piece exactly for a pawn whose destination is the opponent's back rank (row 8 for WHITE, row 1 for BLACK) |
| GameUI.BuildMove | client/src/main/java/ui/GameUI.java:145-172 | the built move goes between the two typed squares and carries a promotion exactly when the client asked for one and got a known name |
| GameUI.PromotionRequestRefused | client/src/main/java/ui/GameUI.java:148-178 | whenever the client obtains a promotion piece, the engine refuses the move it builds |
| WebSocketServer.FormatPosition | server/src/main/java/server/WebSocketServer.java:202-205 | an on-board square is written as the letter 'a' + column − 1 followed by the row digit, a string matching [a-h][1-8] |
| WebSocketServer.ParseFormatRoundTrip | server/src/main/java/server/WebSocketServer.java:202-205 | parsing a formatted on-board square gives the square back |
| WebSocketServer.FormatParseRoundTrip | server/src/main/java/server/WebSocketServer.java:202-205 | formatting a parsed square gives back the parsed text |
| WebSocketServer.MayMoveExact | server/src/main/java/server/WebSocketServer.java:141-147 | a move is accepted only from the player holding the seat of the side on turn; an empty seat matches nobody |
| WebSocketServer.OpponentIsNextMover | server/src/main/java/server/WebSocketServer.java:161-166 | after an accepted move, the name the check and checkmate notifications give for the side not on turn is exactly the player the turn test lets move next |
| WebSocketServer.NoSecondMove | server/src/main/java/server/WebSocketServer.java:141-147 | a player holding one seat may not move twice in a row: after an accepted move the turn test refuses them |
| GameService.AddGame | server/src/main/java/dataaccess/SqlGameDAO.java:26-40 | a new game gets the next id, which no stored game has, with both seats empty; the store stays valid |
| GameService.CreateGame | server/src/main/java/service/GameService.java:33-39 | a missing or blank name is refused before the store is touched; otherwise a game with empty seats is filed under a fresh id |
| GameService.CreateGameKeepsOthers | server/src/main/java/service/GameService.java:33-39 | creating a game leaves every stored game as it was |
| GameService.ListGames | server/src/main/java/service/GameService.java:26-31 | an unknown token is refused; a known one gets exactly the stored games |
| GameService.JoinGame | server/src/main/java/service/GameService.java:41-63 | the token is not checked; a missing id, an unknown id, a missing colour and a held seat are refused in that order; otherwise the requested seat gets whatever name the auth store gives for the token, none for an unknown one, and nothing else changes |
| GameService.UnknownTokenJoinsAsNobody | server/src/main/java/service/GameService.java:42-62 | as written, a caller with an unknown token is told it joined an open seat, the seat stays empty and the next caller can still take it |
| GameService.JoinGameChecked | server/src/main/java/service/GameService.java:41-63 | with the token check `verifyAuthToken` makes, an unknown token is refused and a success always writes the caller's name into the seat |
| GameService.UpdateSeat | server/src/main/java/dataaccess/SqlGameDAO.java:86-102 | updating a seat sets that colour's seat to the name and keeps the other seat, the id and the name |
| GameService.JoinGameKeepsValid | server/src/main/java/service/GameService.java:41-63 | joining keeps every game filed under its own id |
| GameService.SeatClaimedOnce | server/src/test/java/service/UserServiceTests.java:117-128 | with the token check, once a seat is claimed, a second request for it is refused as taken, whoever makes it |
| GameService.NewGameSeatsBothPlayers | server/src/test/java/service/UserServiceTests.java:110-115 | a new game seats one player as BLACK and then another as WHITE |

## Left out

- Promotion move generation: the model, like `PawnMovesCalculator.java:17-21`, emits no promotion move. A calculator that did would also need the rollback in `validMoves` to use an undo that restores the pawn, so it is not modelled.
- Castling and en-passant move generation, castling rights, en-passant memory, `isOver` and `setGameOver`: `ChessGame.java` does not define them, although `WebSocketServer.java:154,187` and `GameUI.java:120` call them.
- `ChessPiece`, `ChessPosition` and `ChessMove` are not part of this model. They are plain datatypes here; `pieceMoves` dispatches on the kind and `canKillKing` means "some pseudo-legal move ends on the enemy king's square".
- The `null` start position of `validMoves`: a position here is always a value.
- ChessGame.ValidMoves, ChessGame.MakeMove: moves from off-board squares are not given a fault model in `validMoves`. `MakeMove` refuses them with `StartOffBoard`, where the source would fault reading the array.
- WebSocketServer.FormatPosition: defined only for on-board squares; the character arithmetic for other coordinates is not modelled.
- The client's re-prompt after an unknown promotion name (the recursive `makeMove()` call at `GameUI.java:167`). The model keeps the move with no promotion, which is what the outer call goes on to build.
- The rest of the client's `makeMove`: console I/O, the turn and piece checks it repeats from the engine, and sending the move.
- The rest of `WebSocketServer.handleMakeMove`: token checks, game lookup, persistence, JSON and broadcasts. This includes the end-of-game notifications at lines 177-194, which latch game-over on a mere check (line 187).
- Authentication and user services: the name the auth store gives for a token is a parameter of `GameService.JoinGame` (None for an unknown token), and the live tokens are a set.
- Persistence: the store is a map from id to (white, black, name). The SQL data access object's update is modelled; `MemGameDAO.updateGame` is not, since it does not compile (line 44).
- The game's board inside each stored record plays no part in the service rules and is not kept.
- ChessBoard.UndoDoMoveRoundTrip: holds only for moves `Reversible` admits. It does not cover a long king move that is not a castle to column 3 or 7, a castle from a row other than the king's home row, or a castle onto an occupied square or rook destination. For those the source's `undoMove` clears (start row, 6) or uses the start row where `doMove` used the home row.
- ChessGame.IsInCheckmate: the do/undo loop inside `isInCheckmate` (`ChessGame.java:122-129`) is modelled only by its pure meaning, `DoMove` followed by the check test. It has no rollback counterpart like `ChessGame.ValidMovesByRollback`.
- GameService.AddGame: ids are unbounded integers, so Java's 32-bit wrap of `id++` is not modelled.
- JavaText.Trim: strings are sequences of Dafny characters; Java's UTF-16 code units are not modelled, only the ≤ U+0020 test.
- ChessBoard.PiecesOf: states which squares are listed, not their row-major order; the order is computed by the model but not stated.
- Board printing (`toString`, `pieceString`) and `hashCode`.

## Findings

| source | as written | input that shows it | evidently intended | confidence | as-written member | corrected member |
|---|---|---|---|---|---|---|
| shared/src/main/java/chess/PawnMovesCalculator.java:36-41 | only the BLACK branch adds moves; the direction computed at line 37 is never used | a white pawn on e2 with e3 and e4 empty | advance to e3 and e4 | high, not executed | PawnCalculator.WhitePawnHasNoMovesAsWritten | PawnCalculator.PawnMovesExact |
| shared/src/main/java/chess/PawnMovesCalculator.java:16,25 | the square ahead must hold a piece for an advance | a black pawn on e7 with e6 and e5 empty | advance to e6 and e5 | high, not executed | PawnCalculator.BlackAdvanceInvertedAsWritten | PawnCalculator.HomeAdvances |
| shared/src/main/java/chess/PawnMovesCalculator.java:16,25 | an occupied square ahead is offered, together with the jump over it | a black pawn on e7 with a piece on e6 | neither advance | high, not executed | PawnCalculator.BlackAdvanceIntoPieceAsWritten | PawnCalculator.HomeAdvances |
| shared/src/main/java/chess/PawnMovesCalculator.java:16 | the square ahead is read before its bounds test | a black pawn on row 1 | no moves, no fault | high, not executed | PawnCalculator.BlackPawnOnLastRowFaults | PawnCalculator.PawnMovesExact |
| shared/src/main/java/chess/PawnMovesCalculator.java:32 | the left capture is guarded by the right square's bounds test | a black pawn on a5; the opening position, a white knight move such as b1-c3, whose check test visits the black pawn on a7 first | no read of column 0; a6 and a5 offered | high, not executed | PawnCalculator.BlackPawnOnFirstColumnFaults, PawnCalculator.OpeningBlackPawnFaults | PawnCalculator.PawnMovesExact |
| shared/src/main/java/chess/PawnMovesCalculator.java:32 | the left capture is guarded by the right square's bounds test | a black pawn on h5 with a white piece on g4 | capture to g4 | high, not executed | PawnCalculator.BlackPawnOnLastColumnMissesCapture | PawnCalculator.PawnMovesExact |
| shared/src/main/java/chess/ChessBoard.java:78-79 | `undoMove` moves the piece now on the end square back to the start | a white pawn a7-a8 promoting to a queen | the pawn returns to a7 | high, not executed | ChessBoard.UndoAsWrittenLosesPromotedPawn | ChessBoard.UndoDoMoveRoundTrip |
| server/src/main/java/service/GameService.java:42,62 | `joinGame` never checks the token; for an unknown one `getUsername` gives null, which is written into the seat | an unknown token joining an open seat | refused as an invalid token | high, not executed | GameService.UnknownTokenJoinsAsNobody | GameService.JoinGameChecked, GameService.SeatClaimedOnce |
