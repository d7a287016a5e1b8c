/** The two pure rules of the game server's move handler: who may move, and
    how a square is written in the notification sent to the other players. */
module WebSocketServer {
  import opened ChessTypes
  import opened ChessGame
  import opened GameUI

  // ---------------------------------------------------------------------
  // Square notation

  /** formatPosition: the column as the letter 'a' + column - 1, then the
      row in decimal. Only board squares are ever formatted. */
  function FormatPosition(p: Position): (r: string)
    requires p.InBounds()
    ensures IsSquareName(r)
    ensures (r[0] as int) - ('a' as int) + 1 == p.col
    ensures (r[1] as int) - ('0' as int) == p.row
  {
    [(('a' as int) + p.col - 1) as char] + [(('0' as int) + p.row) as char]
  }

  /** Reading back a formatted square gives the square. */
  lemma ParseFormatRoundTrip(p: Position)
    requires p.InBounds()
    ensures ParsePosition(FormatPosition(p)) == Some(p)
  {
  }

  /** Formatting a parsed square gives back the text that was parsed. */
  lemma FormatParseRoundTrip(s: string)
    requires ParsePosition(s).Some?
    ensures FormatPosition(ParsePosition(s).value) == s
  {
    var r := FormatPosition(ParsePosition(s).value);
    assert r[0] == s[0] && r[1] == s[1];
  }

  // ---------------------------------------------------------------------
  // Turn ownership

  /** The handler refuses a move as "wrong turn" unless the sender holds the
      black seat with BLACK to move or the white seat with WHITE to move. An
      empty seat matches nobody. */
  predicate MayMove(username: string, white: Option<string>, black: Option<string>, turn: Color) {
    || (black == Some(username) && turn == BLACK)
    || (white == Some(username) && turn == WHITE)
  }

  /** Only the holder of the seat on turn may move. */
  lemma MayMoveExact(username: string, white: Option<string>, black: Option<string>, turn: Color)
    ensures MayMove(username, white, black, turn) <==> Seat(white, black, turn) == Some(username)
  {
  }

  /** The name the check and checkmate notifications give for the team
      not on turn: the holder of that team's seat. */
  function OpponentName(white: Option<string>, black: Option<string>, turn: Color): Option<string> {
    var opponent := Opp(turn);
    if opponent == WHITE then white else black
  }

  /** After an accepted move, the name the check and checkmate
      notifications give for the team not on turn is exactly the player the
      turn test lets move next. */
  lemma OpponentIsNextMover(g: Game, m: Move, username: string, white: Option<string>, black: Option<string>)
    requires MakeMove(g, m).Success?
    ensures OpponentName(white, black, g.turn) == Some(username) <==>
      MayMove(username, white, black, MakeMove(g, m).value.turn)
  {
    MayMoveExact(username, white, black, MakeMove(g, m).value.turn);
  }

  /** A player who holds only one seat cannot move twice in a row: once the
      engine accepts a move, the turn passes to the other seat. */
  lemma NoSecondMove(g: Game, m: Move, username: string, white: Option<string>, black: Option<string>)
    requires MayMove(username, white, black, g.turn)
    requires white != black
    requires MakeMove(g, m).Success?
    ensures !MayMove(username, white, black, MakeMove(g, m).value.turn)
  {
  }
}
