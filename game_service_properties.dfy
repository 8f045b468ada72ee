/** What GameService.java and UserService.java promise together about the store. */
module GameServiceProperties {
  import opened Wrappers
  import opened JavaInts
  import opened ChessPieces
  import opened ChessMoves
  import opened PieceMoves
  import opened ChessGames
  import opened ChessGameProperties
  import opened Records
  import opened MemoryStore
  import opened UserServices
  import opened GameServices

  /** Every occupied seat names a registered user. */
  predicate SeatsReferToUsers(s: StoreState)
  {
    forall id | id in s.games ::
      (s.games[id].whiteUsername.Some? ==> s.games[id].whiteUsername.value in s.users) &&
      (s.games[id].blackUsername.Some? ==> s.games[id].blackUsername.value in s.users)
  }

  /** What every service operation keeps. */
  predicate ServerInvariant(s: StoreState)
  {
    WellKeyed(s) && TokensReferToUsers(s) && SeatsReferToUsers(s)
  }

  /** The user operations keep the invariant: users are only ever added. */
  lemma {:induction false} UserOperationsKeepServerInvariant(
    s: StoreState, authToken: string, username: Option<string>, password: Option<string>, email: Option<string>)
    requires ServerInvariant(s)
    ensures ServerInvariant(EmptyStore)
    ensures ServerInvariant(RegisterOn(s, username, password, email, authToken).0)
    ensures ServerInvariant(LoginOn(s, username, password, authToken).0)
    ensures ServerInvariant(LogoutOn(s, authToken).0)
  {
    UserOperationsKeepInvariants(s, username, password, email, authToken);
    var s1 := RegisterOn(s, username, password, email, authToken).0;
    assert s.users.Keys <= s1.users.Keys && s1.games == s.games;
  }

  /** createGame keeps the invariant: a new game has no players. */
  lemma CreateGameKeepsServerInvariant(s: StoreState, authToken: string, gameName: Option<string>, idHash: int32)
    requires ServerInvariant(s)
    ensures ServerInvariant(CreateGameOn(s, authToken, gameName, idHash).0)
  {
  }

  /** joinGame keeps the invariant: a seat is only ever filled with the name on an auth record. */
  lemma {:induction false} JoinGameKeepsServerInvariant(s: StoreState, authToken: string, gameID: int32, color: Option<TeamColor>)
    requires ServerInvariant(s)
    ensures ServerInvariant(JoinGameOn(s, authToken, gameID, color).0)
  {
    var auth := AuthOf(s, authToken);
    if auth.Some? {
      assert auth.value.username in s.users;
    }
  }

  /** makeMove keeps the invariant: the stored record keeps its seats whatever the engine does. */
  lemma {:induction false} MakeMoveKeepsServerInvariant(gen: MoveGenerator, s: StoreState, authToken: string, gameID: int32, move: Option<ChessMove>)
    requires ServerInvariant(s)
    ensures ServerInvariant(MakeMoveOn(gen, s, authToken, gameID, move).0)
  {
    var s' := MakeMoveOn(gen, s, authToken, gameID, move).0;
    if s' != s {
      var g := s.games[gameID];
      assert s' == s.(games := s.games[gameID := s'.games[gameID]]);
      ReseatlessUpdateKeepsInvariant(s, s'.games[gameID]);
    }
  }

  /** Replacing a stored game by a record with the same id and the same seats keeps the invariant. */
  lemma ReseatlessUpdateKeepsInvariant(s: StoreState, g: GameData)
    requires ServerInvariant(s) && g.gameID in s.games
    requires g.whiteUsername == s.games[g.gameID].whiteUsername && g.blackUsername == s.games[g.gameID].blackUsername
    ensures ServerInvariant(s.(games := s.games[g.gameID := g]))
  {
  }

  /** listGames: "unauthorized" exactly for an unknown token, otherwise it may list. */
  lemma ListGamesOutcomes(s: StoreState, authToken: string)
    ensures ListGamesOn(s, authToken) == if authToken in s.auths then Pass else Fail(Unauthorized)
  {
  }

  /**
   * getGameState: "unauthorized" exactly for an unknown token, then "game not found" exactly for an
   * unknown game; otherwise the record filed under the id.
   */
  lemma GetGameStateOutcomes(s: StoreState, authToken: string, gameID: int32)
    ensures var r := GetGameStateOn(s, authToken, gameID);
      (r == Failure(DataAccessException("unauthorized")) <==> authToken !in s.auths) &&
      (r == Failure(DataAccessException("game not found")) <==> authToken in s.auths && gameID !in s.games) &&
      (r.Success? <==> authToken in s.auths && gameID in s.games) &&
      (r.Success? ==> r.value == s.games[gameID])
  {
  }

  /**
   * createGame: "unauthorized" for an unknown token, then "bad request" for a null or empty name, then the
   * store's "Game ID already exists" when |hash| is taken; otherwise a new game is stored under |hash| with
   * no players and a new board. A failure stores nothing.
   */
  lemma {:induction false} CreateGameOutcomes(s: StoreState, authToken: string, gameName: Option<string>, idHash: int32)
    ensures var (s', r) := CreateGameOn(s, authToken, gameName, idHash);
      (r == Failure(Unauthorized) <==> authToken !in s.auths) &&
      (r == Failure(BadRequest) <==> authToken in s.auths && !Present(gameName)) &&
      (r == Failure(DataAccessException("Game ID already exists")) <==>
         authToken in s.auths && Present(gameName) && Abs(idHash) in s.games) &&
      (r.Success? <==> authToken in s.auths && Present(gameName) && Abs(idHash) !in s.games) &&
      (r.Failure? ==> s' == s) &&
      (r.Success? ==>
         r.value == Abs(idHash) &&
         (idHash != MIN_INT ==> r.value >= 0) &&
         GetGameStateOn(s', authToken, r.value) == Success(GameData(r.value, None, None, gameName.value, NewGame, None)) &&
         (forall id | id != r.value :: Lookup(s'.games, id) == Lookup(s.games, id)) &&
         s'.users == s.users && s'.auths == s.auths)
  {
    var (s', r) := CreateGameOn(s, authToken, gameName, idHash);
    if r.Success? {
      assert authToken in s'.auths;
      assert Lookup(s'.games, r.value) == Some(GameData(r.value, None, None, gameName.value, NewGame, None));
    }
  }

  /**
   * joinGame's errors, in the source's order: "unauthorized" for an unknown token, "bad request" for an
   * unknown game or no colour, "already taken" when the requested seat is filled. None stores anything.
   */
  lemma {:induction false} JoinGameErrors(s: StoreState, authToken: string, gameID: int32, color: Option<TeamColor>)
    requires WellKeyed(s)
    ensures var (s', r) := JoinGameOn(s, authToken, gameID, color);
      (r == Fail(Unauthorized) <==> authToken !in s.auths) &&
      (r == Fail(BadRequest) <==> authToken in s.auths && (gameID !in s.games || color.None?)) &&
      (r == Fail(AlreadyTaken) <==>
         authToken in s.auths && gameID in s.games && color.Some? &&
         (if color.value == WHITE then s.games[gameID].whiteUsername else s.games[gameID].blackUsername).Some?) &&
      (r.Fail? ==> s' == s)
  {
    assert Unauthorized.message[7] == 'u' && BadRequest.message[7] == 'b' && AlreadyTaken.message[7] == 'a';
    var (s', r) := JoinGameOn(s, authToken, gameID, color);
    if authToken in s.auths && gameID in s.games && color.Some? {
      var g := s.games[gameID];
      assert g.gameID == gameID;
      if color.value == WHITE && g.whiteUsername.None? {
        assert UpdateGameOn(s, NewGameData(g.gameID, Some(s.auths[authToken].username), g.blackUsername, g.gameName, g.game)).1 == Pass;
      }
    }
  }

  /** joinGame succeeds exactly when the token is known, the game exists and the requested seat is empty; only that seat changes (and the winner is cleared). */
  lemma {:induction false} JoinGameOutcomes(s: StoreState, authToken: string, gameID: int32, color: Option<TeamColor>)
    requires WellKeyed(s)
    ensures var (s', r) := JoinGameOn(s, authToken, gameID, color);
      (r.Pass? <==>
         authToken in s.auths && gameID in s.games && color.Some? &&
         (if color.value == WHITE then s.games[gameID].whiteUsername else s.games[gameID].blackUsername).None?) &&
      (r.Pass? ==>
         var g := s.games[gameID];
         var name := s.auths[authToken].username;
         Lookup(s'.games, gameID) == Some(
           if color.value == WHITE then GameData(gameID, Some(name), g.blackUsername, g.gameName, g.game, None)
           else GameData(gameID, g.whiteUsername, Some(name), g.gameName, g.game, None)) &&
         (forall id | id != gameID :: Lookup(s'.games, id) == Lookup(s.games, id)) &&
         s'.users == s.users && s'.auths == s.auths)
  {
    var (s', r) := JoinGameOn(s, authToken, gameID, color);
    if gameID in s.games {
      assert s.games[gameID].gameID == gameID;
    }
  }

  /** Joining the same colour of a game a second time fails with "already taken", whoever asks. */
  lemma {:induction false} JoinTwiceFails(s: StoreState, t1: string, t2: string, gameID: int32, color: TeamColor)
    requires WellKeyed(s)
    requires JoinGameOn(s, t1, gameID, Some(color)).1.Pass?
    requires t2 in s.auths
    ensures JoinGameOn(JoinGameOn(s, t1, gameID, Some(color)).0, t2, gameID, Some(color)) ==
      (JoinGameOn(s, t1, gameID, Some(color)).0, Fail(AlreadyTaken))
  {
    JoinGameOutcomes(s, t1, gameID, Some(color));
    var s1 := JoinGameOn(s, t1, gameID, Some(color)).0;
    assert t2 in s1.auths;
    assert Lookup(s1.games, gameID).Some?;
  }

  /**
   * makeMove's checks before the engine is consulted, in the source's order: "unauthorized" for an unknown
   * token, "game not found" for an unknown game, a NullPointerException for an empty seat on the side to
   * move, "not your turn" when that seat holds someone else, and a NullPointerException for a null move.
   * Each leaves the store as it was.
   */
  lemma {:induction false} MakeMoveChecksBeforeTheEngine(gen: MoveGenerator, s: StoreState, authToken: string, gameID: int32, move: Option<ChessMove>)
    ensures var (s', r) := MakeMoveOn(gen, s, authToken, gameID, move);
      (r == Fail(Rejected(DataAccessException("unauthorized"))) <==> authToken !in s.auths) &&
      (r == Fail(Rejected(DataAccessException("game not found"))) <==> authToken in s.auths && gameID !in s.games) &&
      (r == Fail(NullPointerException(NoSeatHolder)) <==>
         authToken in s.auths && gameID in s.games && CurrentPlayer(s.games[gameID]).None?) &&
      (r == Fail(NullPointerException(NullMove)) <==>
         authToken in s.auths && gameID in s.games &&
         CurrentPlayer(s.games[gameID]) == Some(s.auths[authToken].username) && move.None?) &&
      (r.Fail? && r.error.NullPointerException? ==> r.error.site in {NoSeatHolder, NullMove}) &&
      (r == Fail(Rejected(DataAccessException("not your turn"))) <==>
         authToken in s.auths && gameID in s.games &&
         CurrentPlayer(s.games[gameID]).Some? && CurrentPlayer(s.games[gameID]).value != s.auths[authToken].username) &&
      ((r in {Fail(Rejected(DataAccessException("unauthorized"))), Fail(Rejected(DataAccessException("game not found"))),
              Fail(NullPointerException(NoSeatHolder)), Fail(NullPointerException(NullMove)),
              Fail(Rejected(DataAccessException("not your turn")))}) ==> s' == s)
  {
    var (s', r) := MakeMoveOn(gen, s, authToken, gameID, move);
    if authToken in s.auths && gameID in s.games && move.Some? &&
       CurrentPlayer(s.games[gameID]) == Some(s.auths[authToken].username) {
      var msg := ApplyMove(gen, s.games[gameID].game, move.value).1;
      if msg.Fail? {
        var text := "invalid move: " + msg.error.Message();
        assert text[0] == 'i';
        assert text != "unauthorized" && text != "game not found" && text != "not your turn";
      }
    }
  }

  /** makeMove once the mover is the player to move: what a rejection by the engine stores, and what a success stores. */
  lemma {:induction false} MakeMoveOutcomes(gen: MoveGenerator, s: StoreState, authToken: string, gameID: int32, move: Option<ChessMove>)
    requires WellKeyed(s)
    ensures var (s', r) := MakeMoveOn(gen, s, authToken, gameID, move);
      (r.Pass? ==>
         authToken in s.auths && gameID in s.games && move.Some? &&
         CurrentPlayer(s.games[gameID]) == Some(s.auths[authToken].username) &&
         var g := s.games[gameID];
         var (after, outcome) := ApplyMove(gen, g.game, move.value);
         outcome == Pass &&
         Lookup(s'.games, gameID) == Some(GameData(gameID, g.whiteUsername, g.blackUsername, g.gameName, after, None))) &&
      (gameID in s.games && authToken in s.auths && move.Some? &&
       CurrentPlayer(s.games[gameID]) == Some(s.auths[authToken].username) &&
       ApplyMove(gen, s.games[gameID].game, move.value).1.Fail? ==>
         var g := s.games[gameID];
         var (after, outcome) := ApplyMove(gen, g.game, move.value);
         r == Fail(Rejected(DataAccessException("invalid move: " + outcome.error.Message()))) &&
         Lookup(s'.games, gameID) == Some(g.(game := after))) &&
      (forall id | id != gameID :: Lookup(s'.games, id) == Lookup(s.games, id)) &&
      s'.users == s.users && s'.auths == s.auths
  {
    var (s', r) := MakeMoveOn(gen, s, authToken, gameID, move);
    if authToken in s.auths && gameID in s.games && move.Some? &&
       CurrentPlayer(s.games[gameID]) == Some(s.auths[authToken].username) {
      var g := s.games[gameID];
      assert g.gameID == gameID;
      var (after, outcome) := ApplyMove(gen, g.game, move.value);
      if outcome.Fail? {
        assert s' == s.(games := s.games[gameID := g.(game := after)]);
      } else {
        assert s' == s.(games := s.games[gameID := GameData(gameID, g.whiteUsername, g.blackUsername, g.gameName, after, None)]);
      }
    } else {
      assert s' == s;
    }
  }

  /** With the generator of this snapshot no move is ever accepted, and the store never changes. */
  lemma {:induction false} NoMoveAcceptedWithoutMoves(s: StoreState, authToken: string, gameID: int32, move: Option<ChessMove>)
    ensures MakeMoveOn(PieceMoves.PieceMoves, s, authToken, gameID, move).1.Fail?
    ensures MakeMoveOn(PieceMoves.PieceMoves, s, authToken, gameID, move).0 == s
  {
    var game := Lookup(s.games, gameID);
    if game.Some? && move.Some? {
      EveryMoveRejectedWithoutMoves(game.value.game, move.value);
      assert s.games[gameID := game.value] == s.games;
    }
  }
}
