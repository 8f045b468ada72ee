/** The records the server stores (the model package) and MemoryDataAccess.java, the in-memory store. */
module Records {
  import opened Wrappers
  import opened JavaInts
  import opened ChessGames

  datatype UserData = UserData(username: string, password: string, email: string)

  datatype AuthData = AuthData(authToken: string, username: string)

  /**
   * GameData holds the game by value: the ChessGame object it refers to in the source is
   * represented by that object's state.
   */
  datatype GameData = GameData(
    gameID: int32,
    whiteUsername: Option<string>,
    blackUsername: Option<string>,
    gameName: string,
    game: GameState,
    winner: Option<string>)

  /** The five-argument GameData constructor: the winner is null. */
  function NewGameData(gameID: int32, white: Option<string>, black: Option<string>, name: string, game: GameState): (r: GameData)
    ensures r.winner.None?
  {
    GameData(gameID, white, black, name, game, None)
  }

  datatype DataAccessException = DataAccessException(message: string)
}

module MemoryStore {
  import opened Wrappers
  import opened JavaInts
  import opened Records

  /** The three maps of a MemoryDataAccess, as a value. */
  datatype StoreState = StoreState(
    users: map<string, UserData>,
    games: map<int32, GameData>,
    auths: map<string, AuthData>)

  const EmptyStore: StoreState := StoreState(map[], map[], map[])

  /** Every record is stored under its own key, as the add/update operations file it. */
  predicate WellKeyed(s: StoreState)
  {
    (forall u | u in s.users :: s.users[u].username == u) &&
    (forall id | id in s.games :: s.games[id].gameID == id) &&
    (forall t | t in s.auths :: s.auths[t].authToken == t)
  }

  /** Map.get: the stored value or null. */
  function Lookup<K, V>(m: map<K, V>, k: K): (r: Option<V>)
    ensures r.Some? <==> k in m
    ensures r.Some? ==> r.value == m[k]
  {
    if k in m then Some(m[k]) else None
  }

  /** addUser: fails on an existing username, otherwise files the user under its name. */
  function AddUserOn(s: StoreState, user: UserData): (StoreState, Outcome<DataAccessException>)
  {
    if user.username in s.users then (s, Fail(DataAccessException("Username already exists")))
    else (s.(users := s.users[user.username := user]), Pass)
  }

  /** addGame: fails on an existing id, otherwise files the game under its id. */
  function AddGameOn(s: StoreState, game: GameData): (StoreState, Outcome<DataAccessException>)
  {
    if game.gameID in s.games then (s, Fail(DataAccessException("Game ID already exists")))
    else (s.(games := s.games[game.gameID := game]), Pass)
  }

  /** updateGame: fails on an unknown id, otherwise replaces that game. */
  function UpdateGameOn(s: StoreState, game: GameData): (StoreState, Outcome<DataAccessException>)
  {
    if game.gameID !in s.games then (s, Fail(DataAccessException("Game not found")))
    else (s.(games := s.games[game.gameID := game]), Pass)
  }

  /** addAuth: files the token, replacing any record under it. */
  function AddAuthOn(s: StoreState, auth: AuthData): StoreState
  {
    s.(auths := s.auths[auth.authToken := auth])
  }

  /** deleteAuth: removes the token, if present. */
  function DeleteAuthOn(s: StoreState, authToken: string): StoreState
  {
    s.(auths := s.auths - {authToken})
  }

  /** Each operation keeps records under their own keys. */
  lemma OperationsKeepWellKeyed(s: StoreState, user: UserData, game: GameData, auth: AuthData, token: string)
    requires WellKeyed(s)
    ensures WellKeyed(EmptyStore)
    ensures WellKeyed(AddUserOn(s, user).0)
    ensures WellKeyed(AddGameOn(s, game).0)
    ensures WellKeyed(UpdateGameOn(s, game).0)
    ensures WellKeyed(AddAuthOn(s, auth))
    ensures WellKeyed(DeleteAuthOn(s, token))
  {
  }

  /** What a lookup sees after each update: the new record under its key, every other key as before, the other maps untouched. */
  lemma {:induction false} LookupAfterUpdate(s: StoreState, user: UserData, game: GameData, auth: AuthData, token: string, name: string, id: int32, t: string)
    ensures var (s', r) := AddUserOn(s, user);
      (r.Fail? <==> Lookup(s.users, user.username).Some?) && (r.Fail? ==> s' == s) &&
      (r.Pass? ==> Lookup(s'.users, user.username) == Some(user)) &&
      (name != user.username ==> Lookup(s'.users, name) == Lookup(s.users, name)) &&
      s'.games == s.games && s'.auths == s.auths
    ensures var (s', r) := AddGameOn(s, game);
      (r.Fail? <==> Lookup(s.games, game.gameID).Some?) && (r.Fail? ==> s' == s) &&
      (r.Pass? ==> Lookup(s'.games, game.gameID) == Some(game)) &&
      (id != game.gameID ==> Lookup(s'.games, id) == Lookup(s.games, id)) &&
      s'.users == s.users && s'.auths == s.auths
    ensures var (s', r) := UpdateGameOn(s, game);
      (r.Fail? <==> Lookup(s.games, game.gameID).None?) && (r.Fail? ==> s' == s) &&
      (r.Pass? ==> Lookup(s'.games, game.gameID) == Some(game)) &&
      (id != game.gameID ==> Lookup(s'.games, id) == Lookup(s.games, id)) &&
      s'.users == s.users && s'.auths == s.auths
    ensures var s' := AddAuthOn(s, auth);
      Lookup(s'.auths, auth.authToken) == Some(auth) &&
      (t != auth.authToken ==> Lookup(s'.auths, t) == Lookup(s.auths, t)) &&
      s'.users == s.users && s'.games == s.games
    ensures var s' := DeleteAuthOn(s, token);
      Lookup(s'.auths, token).None? &&
      (t != token ==> Lookup(s'.auths, t) == Lookup(s.auths, t)) &&
      s'.users == s.users && s'.games == s.games
  {
  }

  class MemoryDataAccess {
    var users: map<string, UserData>
    var games: map<int32, GameData>
    var auths: map<string, AuthData>

    function State(): StoreState
      reads this
    {
      StoreState(users, games, auths)
    }

    ghost predicate Valid()
      reads this
    {
      WellKeyed(State())
    }

    constructor()
      ensures Valid() && State() == EmptyStore
    {
      users, games, auths := map[], map[], map[];
    }

    /** clear: all three maps become empty. */
    method Clear()
      modifies this
      ensures Valid() && State() == EmptyStore
    {
      users, games, auths := map[], map[], map[];
    }

    method AddUser(user: UserData) returns (r: Outcome<DataAccessException>)
      requires Valid()
      modifies this
      ensures Valid()
      ensures (State(), r) == AddUserOn(old(State()), user)
    {
      if user.username in users {
        return Fail(DataAccessException("Username already exists"));
      }
      users := users[user.username := user];
      return Pass;
    }

    function GetUser(username: string): Option<UserData>
      reads this
    {
      Lookup(users, username)
    }

    method AddGame(game: GameData) returns (r: Outcome<DataAccessException>)
      requires Valid()
      modifies this
      ensures Valid()
      ensures (State(), r) == AddGameOn(old(State()), game)
    {
      if game.gameID in games {
        return Fail(DataAccessException("Game ID already exists"));
      }
      games := games[game.gameID := game];
      return Pass;
    }

    function GetGame(gameID: int32): Option<GameData>
      reads this
    {
      Lookup(games, gameID)
    }

    /** listGames: a new list holding each stored game exactly once. */
    method ListGames() returns (r: seq<GameData>)
      requires Valid()
      ensures |r| == |games|
      ensures forall i | 0 <= i < |r| :: r[i].gameID in games && games[r[i].gameID] == r[i]
      ensures forall id | id in games :: games[id] in r
      ensures forall i, j | 0 <= i < j < |r| :: r[i].gameID != r[j].gameID
    {
      r := [];
      var remaining := games.Keys;
      while remaining != {}
        invariant remaining <= games.Keys
        invariant |r| + |remaining| == |games|
        invariant forall i | 0 <= i < |r| :: r[i].gameID in games.Keys - remaining && games[r[i].gameID] == r[i]
        invariant forall id | id in games.Keys - remaining :: games[id] in r
        invariant forall i, j | 0 <= i < j < |r| :: r[i].gameID != r[j].gameID
        decreases |remaining|
      {
        var id :| id in remaining;
        r := r + [games[id]];
        remaining := remaining - {id};
      }
    }

    method UpdateGame(game: GameData) returns (r: Outcome<DataAccessException>)
      requires Valid()
      modifies this
      ensures Valid()
      ensures (State(), r) == UpdateGameOn(old(State()), game)
    {
      if game.gameID !in games {
        return Fail(DataAccessException("Game not found"));
      }
      games := games[game.gameID := game];
      return Pass;
    }

    method AddAuth(auth: AuthData)
      requires Valid()
      modifies this
      ensures Valid()
      ensures State() == AddAuthOn(old(State()), auth)
    {
      auths := auths[auth.authToken := auth];
    }

    function GetAuth(authToken: string): Option<AuthData>
      reads this
    {
      Lookup(auths, authToken)
    }

    method DeleteAuth(authToken: string)
      requires Valid()
      modifies this
      ensures Valid()
      ensures State() == DeleteAuthOn(old(State()), authToken)
    {
      auths := auths - {authToken};
    }
  }
}
