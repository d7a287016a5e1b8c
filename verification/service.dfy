/** The game service's rules for creating, listing and joining games. The
    game store is a map from game id to the game's seats and name, together
    with the last id handed out; authentication is a set of live tokens. */
module GameService {
  import opened ChessTypes
  import opened JavaText

  /** One stored game: its id, the two seats (None while empty) and its
      name. The board kept with it plays no part in these rules. */
  datatype GameData = GameData(id: int, white: Option<string>, black: Option<string>, name: string)

  /** The store: the games by id and the last id handed out, which the
      store increments for every new game. */
  datatype Store = Store(games: map<int, GameData>, lastId: int)

  /** Every game is filed under its own id, and no id is above the last one
      handed out. */
  predicate Valid(st: Store) {
    forall id | id in st.games :: id <= st.lastId && st.games[id].id == id
  }

  /** Why a request is refused. The source throws DataAccessException for
      a bad token, IllegalArgumentException for a bad name, id or colour,
      and IllegalAccessException for a seat already taken. */
  datatype ServiceError = InvalidAuthToken | InvalidName | MissingGameId | UnknownGame | InvalidColor | SeatTaken

  /** The store with a fresh empty game of the given name. */
  function AddGame(st: Store, name: string): (r: Store)
    ensures Valid(st) ==> Valid(r) && r.lastId !in st.games
    ensures r.lastId == st.lastId + 1
    ensures r.games == st.games[r.lastId := GameData(r.lastId, None, None, name)]
  {
    var id := st.lastId + 1;
    Store(st.games[id := GameData(id, None, None, name)], id)
  }

  /** createGame: a missing name, or one that is blank once trimmed, is
      refused before the store is touched; otherwise a new game with both
      seats empty is filed under a fresh id, which is returned. */
  function CreateGame(st: Store, name: Option<string>): (r: Result<(int, Store), ServiceError>)
    ensures r.Failure? <==> name.None? || forall k | 0 <= k < |name.value| :: Blank(name.value[k])
    ensures r.Failure? ==> r.error == InvalidName
    ensures r.Success? ==>
      var (id, st') := r.value;
      && (Valid(st) ==> Valid(st') && id !in st.games)
      && st'.games == st.games[id := GameData(id, None, None, name.value)]
  {
    if name.None? then Failure(InvalidName)
    else
      TrimEmptyIffBlank(name.value);
      if Trim(name.value) == [] then Failure(InvalidName)
      else
        var st' := AddGame(st, name.value);
        Success((st'.lastId, st'))
  }

  /** Creating a game never disturbs the games already stored. */
  lemma CreateGameKeepsOthers(st: Store, name: Option<string>, id: int)
    requires Valid(st)
    requires CreateGame(st, name).Success? && id in st.games
    ensures id in CreateGame(st, name).value.1.games
    ensures CreateGame(st, name).value.1.games[id] == st.games[id]
  {
  }

  /** listGames: every stored game for a live token, refused otherwise. */
  function ListGames(tokens: set<string>, token: string, st: Store): (r: Result<set<GameData>, ServiceError>)
    ensures r.Failure? <==> token !in tokens
    ensures r.Failure? ==> r.error == InvalidAuthToken
    ensures r.Success? ==> forall id | id in st.games :: st.games[id] in r.value
    ensures r.Success? ==> forall g | g in r.value :: exists id | id in st.games :: st.games[id] == g
  {
    if token !in tokens then Failure(InvalidAuthToken)
    else Success(set id | id in st.games :: st.games[id])
  }

  /** The seat of colour c in game g; None while it is empty. */
  function SeatOf(g: GameData, c: Color): Option<string> {
    Seat(g.white, g.black, c)
  }

  /** joinGame as written. The caller's name is what the auth store gives
      for the caller's token, None for a token it does not know; joinGame
      never checks it. The checks run in the source's order (a missing id,
      an id not in the store, a missing colour, a seat already held) and a
      request that passes them all writes that name into the requested
      seat, so an unknown token is answered with success and leaves the
      seat empty. */
  function JoinGame(st: Store, username: Option<string>, gameId: Option<int>, color: Option<Color>): (r: Result<Store, ServiceError>)
    ensures gameId.None? ==> r == Failure(MissingGameId)
    ensures gameId.Some? && gameId.value !in st.games ==> r == Failure(UnknownGame)
    ensures gameId.Some? && gameId.value in st.games && color.None? ==> r == Failure(InvalidColor)
    ensures r.Failure? && r.error == SeatTaken <==>
      gameId.Some? && gameId.value in st.games && color.Some? && SeatOf(st.games[gameId.value], color.value).Some?
    ensures r.Success? <==>
      gameId.Some? && gameId.value in st.games && color.Some? && SeatOf(st.games[gameId.value], color.value).None?
    ensures r.Success? ==>
      var id, c := gameId.value, color.value;
      && r.value.lastId == st.lastId
      && r.value.games.Keys == st.games.Keys
      && SeatOf(r.value.games[id], c) == username
      && SeatOf(r.value.games[id], Opp(c)) == SeatOf(st.games[id], Opp(c))
      && r.value.games[id].name == st.games[id].name
      && r.value.games[id].id == st.games[id].id
      && forall other | other in st.games && other != id :: r.value.games[other] == st.games[other]
  {
    if gameId.None? then Failure(MissingGameId)
    else if gameId.value !in st.games then Failure(UnknownGame)
    else if color.None? then Failure(InvalidColor)
    else
      var id, c, g := gameId.value, color.value, st.games[gameId.value];
      if SeatOf(g, c).Some? then Failure(SeatTaken)
      else Success(Store(st.games[id := UpdateSeat(g, c, username)], st.lastId))
  }

  /** updateGame on one record: the seat of colour c becomes username. */
  function UpdateSeat(g: GameData, c: Color, username: Option<string>): (r: GameData)
    ensures SeatOf(r, c) == username && SeatOf(r, Opp(c)) == SeatOf(g, Opp(c))
    ensures r.id == g.id && r.name == g.name
  {
    if c == WHITE then g.(white := username) else g.(black := username)
  }

  /** joinGame with the token check the other requests make first: an
      unknown token is refused before anything else, and a known one is
      handled as joinGame handles it. */
  function JoinGameChecked(st: Store, username: Option<string>, gameId: Option<int>, color: Option<Color>): (r: Result<Store, ServiceError>)
    ensures r.Failure? && r.error == InvalidAuthToken <==> username.None?
    ensures r.Success? <==>
      username.Some? && gameId.Some? && gameId.value in st.games && color.Some? && SeatOf(st.games[gameId.value], color.value).None?
    ensures r.Success? ==> gameId.value in r.value.games && SeatOf(r.value.games[gameId.value], color.value) == username
    ensures username.Some? ==> r == JoinGame(st, username, gameId, color)
  {
    if username.None? then Failure(InvalidAuthToken)
    else JoinGame(st, username, gameId, color)
  }

  /** As written, a caller with an unknown token "joins" an open seat: the
      request succeeds, the seat stays empty, and the next caller may take
      it all the same. */
  lemma UnknownTokenJoinsAsNobody(st: Store, id: int, c: Color, next: Option<string>)
    requires id in st.games && SeatOf(st.games[id], c).None?
    ensures JoinGame(st, None, Some(id), Some(c)).Success?
    ensures SeatOf(JoinGame(st, None, Some(id), Some(c)).value.games[id], c).None?
    ensures JoinGame(JoinGame(st, None, Some(id), Some(c)).value, next, Some(id), Some(c)).Success?
    ensures JoinGameChecked(st, None, Some(id), Some(c)) == Failure(InvalidAuthToken)
  {
  }

  /** Joining keeps the store valid. */
  lemma JoinGameKeepsValid(st: Store, username: Option<string>, gameId: Option<int>, color: Option<Color>)
    requires Valid(st)
    requires JoinGame(st, username, gameId, color).Success?
    ensures Valid(JoinGame(st, username, gameId, color).value)
  {
  }

  /** With the token check, a seat is claimed once: whoever asks for the
      same seat of the same game next is refused, whatever their name. */
  lemma SeatClaimedOnce(st: Store, first: Option<string>, second: string, gameId: Option<int>, color: Option<Color>)
    requires JoinGameChecked(st, first, gameId, color).Success?
    ensures JoinGameChecked(JoinGameChecked(st, first, gameId, color).value, Some(second), gameId, color) == Failure(SeatTaken)
  {
  }

  /** A freshly created game takes one player in each seat. */
  lemma NewGameSeatsBothPlayers(st: Store, name: string, white: string, black: string)
    requires Valid(st)
    requires CreateGame(st, Some(name)).Success?
    ensures
      var (id, st1) := CreateGame(st, Some(name)).value;
      && JoinGameChecked(st1, Some(black), Some(id), Some(BLACK)).Success?
      && var st2 := JoinGameChecked(st1, Some(black), Some(id), Some(BLACK)).value;
      && JoinGameChecked(st2, Some(white), Some(id), Some(WHITE)).Success?
      && var g := JoinGameChecked(st2, Some(white), Some(id), Some(WHITE)).value.games[id];
      g.white == Some(white) && g.black == Some(black) && g.name == name
  {
  }
}
