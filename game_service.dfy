/**
 * GameService.java: listing, creating and joining games, making moves and reading a game.
 * The id hash of a new game (a UUID's hashCode in the source) is a parameter, and so is the
 * move generator the stored games use.
 */
module GameServices {
  import opened Wrappers
  import opened JavaInts
  import opened ChessPieces
  import opened ChessMoves
  import opened PieceMoves
  import opened ChessGames
  import opened Records
  import opened MemoryStore
  import opened UserServices

  /**
   * The places where the server dereferences null. Java's helpful NullPointerException messages name the
   * expression that was null, so each site has its own text.
   */
  datatype NullSite =
    | NoSeatHolder          // GameService.makeMove: the seat of the side to move is empty
    | NullMove              // ChessGame.makeMove: the move itself is null
    | LeaveUnknownGame      // WebSocketHandler.handleLeave: no session map for the game
    | BroadcastUnknownGame  // WebSocketHandler.sendGameStateToAll: no session map for the game

  /** makeMove rethrows engine rejections as DataAccessException; a null seat or a null move throws NullPointerException. */
  datatype MoveFailure = Rejected(exception: DataAccessException) | NullPointerException(site: NullSite)

  /** The auth record of a token, or null. */
  function AuthOf(s: StoreState, authToken: string): Option<AuthData>
  {
    Lookup(s.auths, authToken)
  }

  /** Whether a token with an auth record may list; listGames then returns the stored games. */
  function ListGamesOn(s: StoreState, authToken: string): Outcome<DataAccessException>
  {
    if AuthOf(s, authToken).None? then Fail(Unauthorized) else Pass
  }

  /** createGame: the id is |hash| in 32-bit arithmetic; a new record has no players, the given name and a new game. */
  function CreateGameOn(s: StoreState, authToken: string, gameName: Option<string>, idHash: int32)
    : (StoreState, Result<int32, DataAccessException>)
  {
    if AuthOf(s, authToken).None? then (s, Failure(Unauthorized))
    else if !Present(gameName) then (s, Failure(BadRequest))
    else
      var gameID := Abs(idHash);
      var (s', r) := AddGameOn(s, NewGameData(gameID, None, None, gameName.value, NewGame));
      if r.Fail? then (s', Failure(r.error)) else (s', Success(gameID))
  }

  /** joinGame: the caller takes an empty seat of the requested colour; the record is rebuilt with no winner. */
  function JoinGameOn(s: StoreState, authToken: string, gameID: int32, playerColor: Option<TeamColor>)
    : (StoreState, Outcome<DataAccessException>)
  {
    var auth := AuthOf(s, authToken);
    if auth.None? then (s, Fail(Unauthorized))
    else
      var game := Lookup(s.games, gameID);
      if game.None? then (s, Fail(BadRequest))
      else
        var g := game.value;
        var username := auth.value.username;
        if playerColor == Some(WHITE) then
          if g.whiteUsername.Some? then (s, Fail(AlreadyTaken))
          else UpdateGameOn(s, NewGameData(g.gameID, Some(username), g.blackUsername, g.gameName, g.game))
        else if playerColor == Some(BLACK) then
          if g.blackUsername.Some? then (s, Fail(AlreadyTaken))
          else UpdateGameOn(s, NewGameData(g.gameID, g.whiteUsername, Some(username), g.gameName, g.game))
        else (s, Fail(BadRequest))
  }

  /** The username in the seat of the side to move. */
  function CurrentPlayer(g: GameData): Option<string>
  {
    if g.game.teamTurn == WHITE then g.whiteUsername else g.blackUsername
  }

  /**
   * makeMove. The stored record shares its ChessGame with the service, so whatever the engine did
   * before throwing (the self-check take-back) is visible in the store even though updateGame is
   * not called; a successful move is stored through updateGame in a rebuilt record with no winner.
   */
  function MakeMoveOn(gen: MoveGenerator, s: StoreState, authToken: string, gameID: int32, move: Option<ChessMove>)
    : (StoreState, Outcome<MoveFailure>)
  {
    var auth := AuthOf(s, authToken);
    if auth.None? then (s, Fail(Rejected(DataAccessException("unauthorized"))))
    else
      var game := Lookup(s.games, gameID);
      if game.None? then (s, Fail(Rejected(DataAccessException("game not found"))))
      else
        var g := game.value;
        var currentPlayer := CurrentPlayer(g);
        if currentPlayer.None? then (s, Fail(NullPointerException(NoSeatHolder)))
        else if currentPlayer.value != auth.value.username then (s, Fail(Rejected(DataAccessException("not your turn"))))
        else if move.None? then (s, Fail(NullPointerException(NullMove)))
        else
          var (after, outcome) := ApplyMove(gen, g.game, move.value);
          if outcome.Fail? then
            (s.(games := s.games[gameID := g.(game := after)]),
             Fail(Rejected(DataAccessException("invalid move: " + outcome.error.Message()))))
          else
            (UpdateGameOn(s, NewGameData(g.gameID, g.whiteUsername, g.blackUsername, g.gameName, after)).0, Pass)
  }

  /** getGameState: the stored record, unchanged. */
  function GetGameStateOn(s: StoreState, authToken: string, gameID: int32): (r: Result<GameData, DataAccessException>)
  {
    if AuthOf(s, authToken).None? then Failure(DataAccessException("unauthorized"))
    else
      var game := Lookup(s.games, gameID);
      if game.None? then Failure(DataAccessException("game not found"))
      else Success(game.value)
  }

  class GameService {
    const dataAccess: MemoryDataAccess
    /** The `pieceMoves` of the stored games. */
    const gen: MoveGenerator

    constructor(dataAccess: MemoryDataAccess, gen: MoveGenerator)
      ensures this.dataAccess == dataAccess && this.gen == gen
    {
      this.dataAccess := dataAccess;
      this.gen := gen;
    }

    /** listGames: unauthorized without an auth record, otherwise each stored game exactly once. */
    method ListGames(authToken: string) returns (r: Result<seq<GameData>, DataAccessException>)
      requires dataAccess.Valid()
      ensures r.Failure? <==> ListGamesOn(dataAccess.State(), authToken).Fail?
      ensures r.Failure? ==> r.error == Unauthorized
      ensures r.Success? ==>
        |r.value| == |dataAccess.games| &&
        (forall id | id in dataAccess.games :: dataAccess.games[id] in r.value) &&
        (forall i | 0 <= i < |r.value| :: Lookup(dataAccess.games, r.value[i].gameID) == Some(r.value[i])) &&
        (forall i, j | 0 <= i < j < |r.value| :: r.value[i].gameID != r.value[j].gameID)
    {
      if dataAccess.GetAuth(authToken).None? {
        return Failure(Unauthorized);
      }
      var games := dataAccess.ListGames();
      return Success(games);
    }

    method CreateGame(authToken: string, gameName: Option<string>, idHash: int32) returns (r: Result<int32, DataAccessException>)
      requires dataAccess.Valid()
      modifies dataAccess
      ensures dataAccess.Valid()
      ensures (dataAccess.State(), r) == CreateGameOn(old(dataAccess.State()), authToken, gameName, idHash)
    {
      if dataAccess.GetAuth(authToken).None? {
        return Failure(Unauthorized);
      }
      if !Present(gameName) {
        return Failure(BadRequest);
      }
      var gameID := Abs(idHash);
      var newGame := NewGameData(gameID, None, None, gameName.value, NewGame);
      var added := dataAccess.AddGame(newGame);
      if added.Fail? {
        return Failure(added.error);
      }
      return Success(gameID);
    }

    method JoinGame(authToken: string, gameID: int32, playerColor: Option<TeamColor>) returns (r: Outcome<DataAccessException>)
      requires dataAccess.Valid()
      modifies dataAccess
      ensures dataAccess.Valid()
      ensures (dataAccess.State(), r) == JoinGameOn(old(dataAccess.State()), authToken, gameID, playerColor)
    {
      var auth := dataAccess.GetAuth(authToken);
      if auth.None? {
        return Fail(Unauthorized);
      }
      var game := dataAccess.GetGame(gameID);
      if game.None? {
        return Fail(BadRequest);
      }
      var g := game.value;
      var username := auth.value.username;
      var updated: GameData;
      if playerColor == Some(WHITE) {
        if g.whiteUsername.Some? {
          return Fail(AlreadyTaken);
        }
        updated := NewGameData(g.gameID, Some(username), g.blackUsername, g.gameName, g.game);
      } else if playerColor == Some(BLACK) {
        if g.blackUsername.Some? {
          return Fail(AlreadyTaken);
        }
        updated := NewGameData(g.gameID, g.whiteUsername, Some(username), g.gameName, g.game);
      } else {
        return Fail(BadRequest);
      }
      r := dataAccess.UpdateGame(updated);
    }

    method MakeMove(authToken: string, gameID: int32, move: Option<ChessMove>) returns (r: Outcome<MoveFailure>)
      requires dataAccess.Valid()
      modifies dataAccess
      ensures dataAccess.Valid()
      ensures (dataAccess.State(), r) == MakeMoveOn(gen, old(dataAccess.State()), authToken, gameID, move)
    {
      var auth := dataAccess.GetAuth(authToken);
      if auth.None? {
        return Fail(Rejected(DataAccessException("unauthorized")));
      }
      var game := dataAccess.GetGame(gameID);
      if game.None? {
        return Fail(Rejected(DataAccessException("game not found")));
      }
      var g := game.value;
      var currentPlayer := if g.game.teamTurn == WHITE then g.whiteUsername else g.blackUsername;
      if currentPlayer.None? {
        return Fail(NullPointerException(NoSeatHolder));
      }
      if currentPlayer.value != auth.value.username {
        return Fail(Rejected(DataAccessException("not your turn")));
      }
      if move.None? {
        return Fail(NullPointerException(NullMove));
      }
      var (after, outcome) := ApplyMove(gen, g.game, move.value);
      if outcome.Fail? {
        // the stored record refers to the game object the engine changed
        dataAccess.games := dataAccess.games[gameID := g.(game := after)];
        return Fail(Rejected(DataAccessException("invalid move: " + outcome.error.Message())));
      }
      var updatedGame := NewGameData(g.gameID, g.whiteUsername, g.blackUsername, g.gameName, after);
      // cannot fail: the game was just read from the store
      var _ := dataAccess.UpdateGame(updatedGame);
      return Pass;
    }

    method GetGameState(authToken: string, gameID: int32) returns (r: Result<GameData, DataAccessException>)
      requires dataAccess.Valid()
      ensures r == GetGameStateOn(dataAccess.State(), authToken, gameID)
    {
      if dataAccess.GetAuth(authToken).None? {
        return Failure(DataAccessException("unauthorized"));
      }
      var game := dataAccess.GetGame(gameID);
      if game.None? {
        return Failure(DataAccessException("game not found"));
      }
      return Success(game.value);
    }
  }
}
