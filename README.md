# Chess server and engine core, modelled in Dafny

This project models the core of a Java chess application: the engine (`ChessGame`, `ChessBoard`,
`ChessPiece`, `ChessMove`), the server's in-memory store (`MemoryDataAccess`), its user and game services
(`UserService`, `GameService`), the WebSocket handler that relays game commands between players
(`WebSocketHandler`), the two sets of Gson adapters that turn boards, pieces, positions, moves and games
into JSON and back (`ChessAdapters`, `ChessTypeAdapters`), and the client's parser for typed moves such as
`e2 e4` (`UIUtils`, `GamePlayUI`).

Each source file keeps its own form:

- Objects whose methods change their fields are classes with the same fields:
  - `ChessBoard`, `ChessGame` and `MemoryDataAccess`.
  - The two services, which wrap the store.
  - `WebSocketHandler`, whose session registry and sent messages are fields.
- Each of their methods is proved against a function of the old state. These functions are
  `ApplyMove`, `AddUserOn`, `RegisterOn`, `MakeMoveOn`, `ConnectOn` and so on. The lemmas state what
  the source promises about them.
- The adapters' loops are methods with loop invariants (`SerializeBoard`, `DeserializeBoard`). They are
  proved against encode/decode functions whose round trips are lemmas.
- The string parsers are functions.

Modules:

- `Wrappers` and `JavaInts`: Java `null` as `Option`, exceptions as `Result`/`Outcome`. Also 32-bit
  wrap-around (`Wrap`) and `Math.abs` (`Abs`).
- `ChessPieces`, `ChessMoves` and `PieceMoves`: pieces and moves as values. `equals` is proved to be value
  equality, and `hashCode` agrees with it. The snapshot's move generator never produces a move.
- `ChessBoards`: the board's map as an insertion-ordered association list with distinct keys.
  - `HashMap.put` replaces a key in place or appends it.
  - `equals` compares the induced maps.
  - `hashCode` is the sum of entry hashes and is proved order-independent.
- `ChessGames` and `ChessGameProperties`: `validMoves`, `makeMove`, check, checkmate and stalemate.
  - All of them are stated for an arbitrary move generator.
  - The execution step takes an en-passant rule. `ApplyMove` and the `ChessGame` class run the test
    as the source writes it. `ApplyMoveCorrected` runs the corrected test (see "## Findings").
- `Records`, `MemoryStore`, `UserServices`, `GameServices` and `GameServiceProperties`: the store as three
  maps, and the services' outcomes.
  - The invariant kept by every service operation: records are filed under their keys, and tokens and
    seats name registered users.
- `WebSocketServer` and `WebSocketProperties`: the registry `game id -> (session -> auth token)` and
  every handler.
  - The handlers' effects are stated as a new registry plus the events appended to an outbox. An event
    is a delivery or a failed send.
- `JavaStrings` and `Json`:
  - The Java library behaviour the adapters and parsers rely on: `String.split`, `Integer.parseInt`,
    `Integer.toString`, `Character.getNumericValue` and `Boolean.parseBoolean`.
  - Gson's `JsonObject`, an insertion-ordered member list whose `add` replaces a member in place.
- `ChessTexts`, `ChessAdapters` and `ChessTypeAdapters`: the JSON shapes each adapter writes and reads.

Inputs the source draws from the outside world are parameters:

- the auth token of `register`/`login`, a random UUID;
- the hash behind `createGame`'s id;
- whether a WebSocket send fails, and the exception text it then carries;
- the iteration order of every hash map. This order is a ghost out-parameter that visits each entry
  exactly once.

`ChessPosition.java` is not part of this model. A position is a pair of 32-bit integers. The text
`toString` gives it is a parameter, `PositionFormat`:

- `Braced` is `ChessPosition{row=R, col=C}`, the shape `ChessAdapters`' position decoder expects.
- `Comma` is `R,C`, the shape `ChessTypeAdapters`' decoder expects.

The lemmas state which adapters round-trip under which format.

## Model

| member | source | states |
|---|---|---|
| JavaInts.Wrap | shared/src/main/java/chess/ChessPiece.java:95-98 | Java int arithmetic: the result is congruent to the exact value modulo 2^32 and equals it when it fits in 32 bits |
| JavaInts.Abs | server/src/main/java/service/GameService.java:32 | Math.abs on int: non-negative and equal to x or -x, except for Integer.MIN_VALUE, which stays negative |
| ChessPieces.EqualsIsValueEquality | shared/src/main/java/chess/ChessPiece.java:87-93 | two pieces are equal exactly when their colours and kinds are equal |
| ChessPieces.EqualPiecesHaveEqualHashes | shared/src/main/java/chess/ChessPiece.java:95-98 | equal pieces have equal hash codes |
| PieceMoves.PieceMovesIsEmpty | shared/src/main/java/chess/ChessPiece.java:38-85 | this snapshot's pieceMoves returns no move for any piece, board or position |
| ChessMoves.EqualsIsValueEquality | shared/src/main/java/chess/ChessMove.java:26-38 | moves are equal exactly when start, end and promotion piece are equal; equals is reflexive and symmetric |
| ChessMoves.NullPromotionEqualsOnlyNull | shared/src/main/java/chess/ChessMove.java:37 | a move without promotion never equals one with a promotion piece |
| ChessMoves.EqualMovesHaveEqualHashes | shared/src/main/java/chess/ChessMove.java:40-46 | equal moves have equal hash codes |
| ChessMoves.NullPromotionHashesAsZero | shared/src/main/java/chess/ChessMove.java:44 | a null promotion hashes as 0, so it collides with a promotion piece whose hash is 0 |
| ChessBoards.IndexOf | shared/src/main/java/chess/ChessBoard.java:20 | the index of the first entry with the key, or none when no entry has it |
| ChessBoards.GetAt | shared/src/main/java/chess/ChessBoard.java:23-25 | with distinct keys, get at an entry's key returns that entry's value |
| ChessBoards.PutGet | shared/src/main/java/chess/ChessBoard.java:19-25 | after put(p, v), get(p) is v, every other key reads as before, and the key set gains exactly p |
| ChessBoards.PutAppends | shared/src/main/java/chess/ChessBoard.java:19-21 | putting a new key appends an entry with the put-get laws |
| ChessBoards.PutReplaces | shared/src/main/java/chess/ChessBoard.java:19-21 | putting a present key replaces its entry in place with the put-get laws |
| ChessBoards.PutDistinct | shared/src/main/java/chess/ChessBoard.java:19-21 | put keeps the keys distinct |
| ChessBoards.PutToMap | shared/src/main/java/chess/ChessBoard.java:19-21 | put updates the induced map at exactly p |
| ChessBoards.MapEqualityIsPointwise | shared/src/main/java/chess/ChessBoard.java:31-37 | two boards' maps are equal exactly when their key sets are equal and get agrees everywhere |
| ChessBoards.NullEntryIsObservable | shared/src/main/java/chess/ChessBoard.java:19-21 | addPiece(p, null) on an absent key leaves get(p) null but changes the map, which now holds p |
| ChessBoards.HashSumAppend | shared/src/main/java/chess/ChessBoard.java:39-42 | the entry-hash sum of a concatenation is the sum of the parts' sums |
| ChessBoards.HashSumRemoveAt | shared/src/main/java/chess/ChessBoard.java:39-42 | the entry-hash sum is one entry's hash plus the sum of the rest |
| ChessBoards.RemoveAtToMap | shared/src/main/java/chess/ChessBoard.java:31-42 | dropping an entry keeps the keys distinct and removes exactly its key from the map |
| ChessBoards.FirstEntryOccurs | shared/src/main/java/chess/ChessBoard.java:31-42 | in two boards with equal maps, the first entry of one occurs in the other |
| ChessBoards.EmptyMapHasNoEntries | shared/src/main/java/chess/ChessBoard.java:31-37 | a board's map is empty exactly when it has no entries |
| ChessBoards.EqualMapsHaveEqualHashSums | shared/src/main/java/chess/ChessBoard.java:39-42 | boards with equal maps have equal entry-hash sums, whatever the entry order |
| ChessBoards.DropMatchingEntries | shared/src/main/java/chess/ChessBoard.java:39-42 | removing a shared first entry from both boards keeps the maps equal and splits off the same hash |
| ChessBoards.DropMatchingKeys | shared/src/main/java/chess/ChessBoard.java:31-37 | removing the same key from two boards with equal maps keeps them equal |
| ChessBoards.ChessBoard.constructor | shared/src/main/java/chess/ChessBoard.java:15-17 | a new board is empty |
| ChessBoards.ChessBoard.AddPiece | shared/src/main/java/chess/ChessBoard.java:19-21 | addPiece is put on the entry list; the board's map is updated at exactly that position |
| ChessBoards.ChessBoard.ResetBoard | shared/src/main/java/chess/ChessBoard.java:27-29 | resetBoard leaves the board as it was |
| ChessBoards.ChessBoard.Clone | shared/src/main/java/chess/ChessGame.java:64 | clone yields a fresh board with the same entries |
| ChessBoards.EqualBoardsHaveEqualHashes | shared/src/main/java/chess/ChessBoard.java:31-42 | equal boards have equal hash codes |
| ChessGames.FindKingPosition | shared/src/main/java/chess/ChessGame.java:224-233 | none exactly when no entry holds the colour's king; otherwise a position holding that king |
| ChessGames.LegalMoves | shared/src/main/java/chess/ChessGame.java:63-70 | keeps exactly the candidate moves after which the mover is not in check |
| ChessGames.LegalMovesStep | shared/src/main/java/chess/ChessGame.java:63-70 | testing one more candidate appends it exactly when its simulation leaves the mover out of check |
| ChessGames.ValidMovesOn | shared/src/main/java/chess/ChessGame.java:55-73 | null exactly when the square is empty; otherwise exactly the generated moves that do not leave the mover in check |
| ChessGames.ChessGame.constructor | shared/src/main/java/chess/ChessGame.java:18-22 | a new game has an empty board, white to move and no last move |
| ChessGames.ChessGame.SetTeamTurn | shared/src/main/java/chess/ChessGame.java:36-38 | sets the side to move and nothing else |
| ChessGames.ChessGame.SetBoard | shared/src/main/java/chess/ChessGame.java:211-213 | replaces the board object and nothing else |
| ChessGames.ChessGame.ValidMoves | shared/src/main/java/chess/ChessGame.java:55-73 | the loop over generated moves computes ValidMovesOn |
| ChessGames.ChessGame.MakeMove | shared/src/main/java/chess/ChessGame.java:81-127 | the new state and the exception are ApplyMove (the en-passant test as written) of the old state |
| ChessGames.ChessGame.Execute | shared/src/main/java/chess/ChessGame.java:93-126 | the steps after validation are ExecuteMove of the old state, with the en-passant test as written |
| ChessGames.ChessGame.EnPassant | shared/src/main/java/chess/ChessGame.java:102-113 | the en-passant step nulls (start row, end column) exactly when the test as written holds: a pawn ending on row 5 (white) or 4 (black), an enemy pawn on that square, and a last move from row 7 (white) or 2 (black) to that row in the end column |
| ChessGameProperties.PromotedLookup | shared/src/main/java/chess/ChessGame.java:94-100 | after moving and promoting, the end square holds the moved or promoted piece, the start square is null, the rest is unchanged |
| ChessGameProperties.AfterLookup | shared/src/main/java/chess/ChessGame.java:94-113 | the board after move, promotion and en passant, square by square, for the test as written and for the corrected one |
| ChessGameProperties.PromoteDistinct | shared/src/main/java/chess/ChessGame.java:94-100 | moving and promoting keep the board's keys distinct |
| ChessGameProperties.ApplyMoveKeepsDistinctKeys | shared/src/main/java/chess/ChessGame.java:81-127 | makeMove keeps the board's keys distinct on every path |
| ChessGameProperties.FindKingPositionIsAKingSquare | shared/src/main/java/chess/ChessGame.java:224-233 | the found position holds the king; none exactly when no square holds it |
| ChessGameProperties.NoKingNoCheck | shared/src/main/java/chess/ChessGame.java:139-141 | a side without a king is never in check |
| ChessGameProperties.CheckIsAttackOnTheKing | shared/src/main/java/chess/ChessGame.java:139-152 | with a single king, check holds exactly when an enemy piece's move ends on the king |
| ChessGameProperties.GameOverCases | shared/src/main/java/chess/ChessGame.java:160-204 | checkmate and stalemate exclude each other, and one of them holds exactly when no move escapes |
| ChessGameProperties.RejectionsChangeNothing | shared/src/main/java/chess/ChessGame.java:81-91 | each of the three validation failures happens exactly under its condition and leaves the game unchanged |
| ChessGameProperties.AcceptedMoveEffects | shared/src/main/java/chess/ChessGame.java:81-127 | an accepted move was the mover's own generated move; it empties the start, places the (promoted) piece, records the move, passes the turn and leaves the mover out of check |
| ChessGameProperties.OnlyEnPassantClearsAnotherSquare | shared/src/main/java/chess/ChessGame.java:93-113 | besides start and end, an accepted move changes only (start row, end column), exactly when the test as written holds, and only by removing an enemy pawn: the mover is a pawn ending on row 5 (white) or 4 (black) after an enemy pawn's two-row advance into the end column |
| ChessGameProperties.SelfCheckIsTakenBack | shared/src/main/java/chess/ChessGame.java:93-123 | a self-checking move keeps the turn, records the move, puts the piece back and nulls the end square; every other square is as before, except (start row, end column), which stays null when the en-passant test as written fired |
| ChessGameProperties.NoCheckWithoutMoves | shared/src/main/java/chess/ChessGame.java:135-152 | with this snapshot's generator no side is ever in check and no move escapes |
| ChessGameProperties.AlwaysStalemateWithoutMoves | shared/src/main/java/chess/ChessGame.java:160-204 | with this snapshot's generator every side is in stalemate and none in checkmate |
| ChessGameProperties.EveryMoveRejectedWithoutMoves | shared/src/main/java/chess/ChessGame.java:81-91 | with this snapshot's generator makeMove always throws, with the first failing check's message, and changes nothing |
| ChessGameProperties.AsWrittenEnPassantMissesTheAdvancedPawn | shared/src/main/java/chess/ChessGame.java:103-109 | when the test as written fires on a diagonal move, the square it clears is not the square the enemy pawn advanced to |
| ChessGameProperties.EnPassantCounterexample | shared/src/main/java/chess/ChessGame.java:103-110 | on any king-free board with a black pawn just advanced (7,5)->(5,5), white's en-passant capture (5,4)->(6,5) is accepted; as written it leaves that pawn, corrected it removes it |
| ChessGameProperties.AsWrittenClearsAnUninvolvedPawn | shared/src/main/java/chess/ChessGame.java:103-110 | after black's (7,5)->(5,5), white's ordinary capture (4,4)->(5,5) also clears a black pawn on (4,5) as written, and leaves it corrected |
| ChessGameProperties.EnPassantRemovesTheAdvancedPawn | shared/src/main/java/chess/ChessGame.java:102-113 | with the corrected test (ApplyMoveCorrected), an accepted en-passant capture removes the pawn that just advanced two rows |
| Records.NewGameData | shared/src/main/java/model/GameData.java:15-17 | the five-argument constructor leaves the winner null |
| MemoryStore.Lookup | server/src/main/java/dataaccess/MemoryDataAccess.java:27-29 | Map.get returns the stored value exactly when the key is present |
| MemoryStore.OperationsKeepWellKeyed | server/src/main/java/dataaccess/MemoryDataAccess.java:11-70 | every store operation keeps each record filed under its own key |
| MemoryStore.LookupAfterUpdate | server/src/main/java/dataaccess/MemoryDataAccess.java:18-70 | each add/update fails exactly on its duplicate or missing key, changes nothing on failure, stores the record on success and leaves other keys and maps alone; deleteAuth removes exactly its token |
| MemoryStore.MemoryDataAccess.constructor | server/src/main/java/dataaccess/MemoryDataAccess.java:7-9 | a new store is empty |
| MemoryStore.MemoryDataAccess.Clear | server/src/main/java/dataaccess/MemoryDataAccess.java:11-16 | clear empties all three maps |
| MemoryStore.MemoryDataAccess.AddUser | server/src/main/java/dataaccess/MemoryDataAccess.java:18-24 | the new state and outcome are AddUserOn of the old state |
| MemoryStore.MemoryDataAccess.AddGame | server/src/main/java/dataaccess/MemoryDataAccess.java:31-37 | the new state and outcome are AddGameOn of the old state |
| MemoryStore.MemoryDataAccess.ListGames | server/src/main/java/dataaccess/MemoryDataAccess.java:44-47 | the list holds every stored game exactly once |
| MemoryStore.MemoryDataAccess.UpdateGame | server/src/main/java/dataaccess/MemoryDataAccess.java:49-55 | the new state and outcome are UpdateGameOn of the old state |
| MemoryStore.MemoryDataAccess.AddAuth | server/src/main/java/dataaccess/MemoryDataAccess.java:57-60 | the new state is AddAuthOn of the old state |
| MemoryStore.MemoryDataAccess.DeleteAuth | server/src/main/java/dataaccess/MemoryDataAccess.java:67-70 | the new state is DeleteAuthOn of the old state |
| UserServices.RegisterOutcomes | server/src/main/java/service/UserService.java:14-31 | bad request exactly when a field is null or empty; already taken exactly when the name is registered; on success the user and the token are stored and games are untouched |
| UserServices.RegisterThenLogin | server/src/main/java/service/UserService.java:14-44 | after a successful register, login with the same name and password succeeds |
| UserServices.LoginOutcomes | server/src/main/java/service/UserService.java:33-44 | unauthorized exactly when the user is unknown or the password differs; success adds only the new token |
| UserServices.LogoutTwiceFails | server/src/main/java/service/UserService.java:46-52 | logout fails exactly for an unknown token, so a second logout with the same token fails |
| UserServices.UserOperationsKeepInvariants | server/src/main/java/service/UserService.java:14-52 | register, login and logout keep records well keyed and every token pointing at a registered user |
| UserServices.UserService.constructor | server/src/main/java/service/UserService.java:10-12 | the service wraps the given store |
| UserServices.UserService.Register | server/src/main/java/service/UserService.java:14-31 | the new store and result are RegisterOn of the old store |
| UserServices.UserService.Login | server/src/main/java/service/UserService.java:33-44 | the new store and result are LoginOn of the old store |
| UserServices.UserService.Logout | server/src/main/java/service/UserService.java:46-52 | the new store and result are LogoutOn of the old store |
| GameServices.GameService.constructor | server/src/main/java/service/GameService.java:14-16 | the service wraps the given store and move generator |
| GameServices.GameService.ListGames | server/src/main/java/service/GameService.java:18-23 | unauthorized exactly for an unknown token; otherwise every stored game exactly once |
| GameServices.GameService.CreateGame | server/src/main/java/service/GameService.java:25-37 | the new store and result are CreateGameOn of the old store |
| GameServices.GameService.JoinGame | server/src/main/java/service/GameService.java:39-66 | the new store and result are JoinGameOn of the old store |
| GameServices.GameService.MakeMove | server/src/main/java/service/GameService.java:68-101 | the new store and result are MakeMoveOn of the old store |
| GameServices.GameService.GetGameState | server/src/main/java/service/GameService.java:103-115 | the result is GetGameStateOn of the store, which it leaves unchanged |
| GameServiceProperties.UserOperationsKeepServerInvariant | server/src/main/java/service/UserService.java:14-52 | clear, register, login and logout keep the server invariant (keys, tokens and seats name users) |
| GameServiceProperties.CreateGameKeepsServerInvariant | server/src/main/java/service/GameService.java:25-37 | createGame keeps the server invariant |
| GameServiceProperties.JoinGameKeepsServerInvariant | server/src/main/java/service/GameService.java:39-66 | joinGame keeps the server invariant |
| GameServiceProperties.MakeMoveKeepsServerInvariant | server/src/main/java/service/GameService.java:68-101 | makeMove keeps the server invariant |
| GameServiceProperties.ReseatlessUpdateKeepsInvariant | server/src/main/java/service/GameService.java:97 | replacing a game by a record with the same id and seats keeps the server invariant |
| GameServiceProperties.ListGamesOutcomes | server/src/main/java/service/GameService.java:18-23 | listGames fails with unauthorized exactly for an unknown token |
| GameServiceProperties.GetGameStateOutcomes | server/src/main/java/service/GameService.java:103-115 | getGameState fails with "unauthorized" exactly for an unknown token, then with "game not found" exactly for an unknown game, and otherwise returns the stored record |
| GameServiceProperties.CreateGameOutcomes | server/src/main/java/service/GameService.java:25-37 | unauthorized exactly for an unknown token; then bad request exactly for a null or empty name; then "Game ID already exists" exactly when abs of the hash is taken; a failure stores nothing; the id is abs of the hash (negative only for Integer.MIN_VALUE); on success the new game is readable with empty seats and a new engine |
| GameServiceProperties.JoinGameErrors | server/src/main/java/service/GameService.java:39-63 | unauthorized exactly for an unknown token; bad request exactly for a known token with an unknown game or no colour; already taken exactly when the requested seat is filled; a failure stores nothing |
| GameServiceProperties.JoinGameOutcomes | server/src/main/java/service/GameService.java:39-66 | join succeeds exactly for a known token and game, a colour, and a free seat; it then fills that seat with the token's user and clears the winner (the five-argument record constructor), and changes nothing else |
| GameServiceProperties.JoinTwiceFails | server/src/main/java/service/GameService.java:52-61 | a seat once taken cannot be joined again |
| GameServiceProperties.MakeMoveChecksBeforeTheEngine | server/src/main/java/service/GameService.java:68-86 | "unauthorized" exactly for an unknown token; "game not found" exactly for a known token and an unknown game; a NullPointerException at the empty-seat site exactly when the seat to move is empty, and at the null-move site exactly when it is the caller's and the move is null; "not your turn" exactly when that seat is someone else's; each leaves the store unchanged |
| GameServiceProperties.MakeMoveOutcomes | server/src/main/java/service/GameService.java:81-101 | success stores the engine's new state; an engine rejection becomes "invalid move: " + its message and keeps the engine's post-state; other games, users and tokens are unchanged |
| GameServiceProperties.NoMoveAcceptedWithoutMoves | server/src/main/java/service/GameService.java:68-101 | with this snapshot's generator makeMove always fails and leaves the store unchanged |
| WebSocketServer.AnEnumeration | server/src/main/java/server/WebSocketHandler.java:167 | every finite set of sessions has an order that visits each exactly once |
| WebSocketServer.WebSocketHandler.constructor | server/src/main/java/server/WebSocketHandler.java:25-28 | a handler starts with an empty registry and nothing sent |
| WebSocketServer.WebSocketHandler.Send | server/src/main/java/server/WebSocketHandler.java:157 | sendString succeeds exactly for a working session and appends one event |
| WebSocketServer.WebSocketHandler.SendErrorMessage | server/src/main/java/server/WebSocketHandler.java:196-200 | appends one ERROR message to the session and throws exactly when the send fails |
| WebSocketServer.WebSocketHandler.Fanout | server/src/main/java/server/WebSocketHandler.java:186-192 | sends the message once to each recipient, in some order, and swallows send failures |
| WebSocketServer.WebSocketHandler.NotifyOtherPlayers | server/src/main/java/server/WebSocketHandler.java:160-177 | sends the notification once to every session of the game except the excluded one; nothing when the game has no map |
| WebSocketServer.WebSocketHandler.NotifyAllPlayers | server/src/main/java/server/WebSocketHandler.java:179-194 | sends the notification once to every session of the game |
| WebSocketServer.WebSocketHandler.SendGameState | server/src/main/java/server/WebSocketHandler.java:153-158 | when the game state can be read, sends it to the session (throwing on a failed send); otherwise throws the service's message and sends nothing |
| WebSocketServer.WebSocketHandler.SendGameStateToAll | server/src/main/java/server/WebSocketHandler.java:143-151 | throws the NullPointerException of its own site for an unknown game; otherwise sends each session its game state, swallowing failures |
| WebSocketServer.WebSocketHandler.HandleConnect | server/src/main/java/server/WebSocketHandler.java:88-104 | registry and sent messages are ConnectOn of the old registry |
| WebSocketServer.WebSocketHandler.SendStateOrError | server/src/main/java/server/WebSocketHandler.java:96-103 | the game state or the "Error connecting to game" message, as ConnectTail states |
| WebSocketServer.WebSocketHandler.ReportMove | server/src/main/java/server/WebSocketHandler.java:112-118 | what handleMakeMove sends after the service call, as MakeMoveEffectOn states |
| WebSocketServer.WebSocketHandler.HandleMakeMove | server/src/main/java/server/WebSocketHandler.java:106-119 | the store changes as GameService.makeMove; registry and messages are MakeMoveEffectOn of its outcome |
| WebSocketServer.WebSocketHandler.HandleLeave | server/src/main/java/server/WebSocketHandler.java:121-127 | registry and messages are LeaveOn of the old registry |
| WebSocketServer.WebSocketHandler.HandleResign | server/src/main/java/server/WebSocketHandler.java:129-141 | registry and messages are ResignOn of the old registry |
| WebSocketServer.WebSocketHandler.Dispatch | server/src/main/java/server/WebSocketHandler.java:66-81 | each command goes to its handler: registry, messages and store follow CommandOn |
| WebSocketServer.WebSocketHandler.OnMessage | server/src/main/java/server/WebSocketHandler.java:52-86 | registry, messages and store follow OnMessageOn: whatever a handler throws is reported to the sender |
| WebSocketServer.WebSocketHandler.OnClose | server/src/main/java/server/WebSocketHandler.java:35-45 | when a game holds the session it is removed from the first such game and the others there are told; otherwise nothing changes |
| WebSocketProperties.EnumerationSize | server/src/main/java/server/WebSocketHandler.java:167 | an order visiting each session once has as many elements as the set |
| WebSocketProperties.BroadcastRecipients | server/src/main/java/server/WebSocketHandler.java:167-175 | one event per recipient, in order; delivered exactly to working sessions and failed exactly for broken ones |
| WebSocketProperties.NotifyOthersRecipients | server/src/main/java/server/WebSocketHandler.java:160-177 | the notification reaches every working session of the game except the excluded one, and no one else |
| WebSocketProperties.NotifyAllRecipients | server/src/main/java/server/WebSocketHandler.java:179-194 | the notification reaches every working session of the game and no one else |
| WebSocketProperties.LoadGameRecipients | server/src/main/java/server/WebSocketHandler.java:143-158 | every LOAD_GAME goes to a registered session with the game state its token can read, and every working session whose read succeeds gets one |
| WebSocketProperties.ConnectOutcomes | server/src/main/java/server/WebSocketHandler.java:88-104 | an accepted connect registers the session, notifies the others, then sends the state to the session; a refused one only sends the error to the session |
| WebSocketProperties.MoveOutcomes | server/src/main/java/server/WebSocketHandler.java:106-119 | the registry never changes; a failed move sends only the error to the mover; a made move notifies the others and sends each registered session its game state |
| WebSocketProperties.LeaveOutcomes | server/src/main/java/server/WebSocketHandler.java:121-127 | leave on an unknown game throws the NullPointerException of its own site; otherwise it removes exactly the session and notifies only the sessions still registered |
| WebSocketProperties.CloseOutcomes | server/src/main/java/server/WebSocketHandler.java:35-45 | close removes exactly the session from its game and tells every remaining session there that its token has left |
| WebSocketProperties.MalformedOnlyTellsSender | server/src/main/java/server/WebSocketHandler.java:82-85 | an unreadable message leaves registry and store alone and sends only "Error processing message: ..." to the sender |
| UIUtils.ParsePositionOutcomes | client/src/main/java/ui/UIUtils.java:17-24 | fails exactly when the text is not two characters; otherwise col is the letter's offset from 'a' plus 1 and row the digit's numeric value |
| UIUtils.SquareNameRoundTrip | client/src/main/java/ui/UIUtils.java:17-24 | parsing a square's name gives the square back, and every square name is the name of its parse |
| UIUtils.NoRangeCheck | client/src/main/java/ui/UIUtils.java:17-24 | off-board names such as "z9" and "a0" parse without error |
| UIUtils.ParseMoveOutcomes | client/src/main/java/ui/UIUtils.java:7-15 | fails when the input does not split into two tokens; a parsed move is the two tokens' positions with no promotion |
| UIUtils.LeadingSpaceRefused | client/src/main/java/ui/UIUtils.java:8-11 | a leading space yields an empty first token, so " e2 e4" is refused |
| UIUtils.TrailingSpaceAccepted | client/src/main/java/ui/UIUtils.java:8-14 | trailing empty tokens are dropped, so "e2 e4 " parses |
| UIUtils.ParseMoveRoundTrip | client/src/main/java/ui/UIUtils.java:7-24 | "<from> <to>" for two on-board squares parses to that move |
| GamePlayUI.AgreesWithUIUtils | client/src/main/java/ui/GamePlayUI.java:39-56 | the private copies of parseMove and parsePosition agree with UIUtils on every input |
| JavaStrings.StripTrailingEmpty | client/src/main/java/ui/UIUtils.java:8 | split drops exactly the trailing empty strings |
| JavaStrings.FindFrom | shared/src/main/java/shared/ChessAdapters.java:67 | the first occurrence of the separator at or after the start, or the end |
| JavaStrings.FirstSpaceFrom | client/src/main/java/ui/UIUtils.java:8 | the first whitespace at or after the start, or the end |
| JavaStrings.SpaceRunEnd | client/src/main/java/ui/UIUtils.java:8 | the end of the whitespace run starting there |
| JavaStrings.SplitOnTwoFields | shared/src/main/java/shared/ChessAdapters.java:67-72 | splitting "x<sep>y" gives [x, y] when neither contains the separator |
| JavaStrings.SplitOnWhitespaceTwoTokens | client/src/main/java/ui/UIUtils.java:8 | splitting "x y" on whitespace runs gives [x, y] |
| JavaStrings.NatToDigitsRoundTrip | shared/src/main/java/shared/ChessAdapters.java:68-73 | decimal digits of n read back as n |
| JavaStrings.IntToStringRoundTrip | shared/src/main/java/shared/ChessAdapters.java:59-73 | Integer.parseInt reads back every int's Integer.toString, which has only digits and '-' |
| Json.MemberFound | shared/src/main/java/shared/ChessAdapters.java:49 | JsonObject.get finds a member exactly when one has the name, and returns that member's value |
| Json.MemberAbsent | shared/src/main/java/shared/ChessAdapters.java:96 | get returns null when no member has the name |
| Json.MemberAt | shared/src/main/java/shared/ChessAdapters.java:49-52 | get returns the first member with the name |
| Json.Add | shared/src/main/java/shared/ChessAdapters.java:16 | after add, get of the name is the new value and every other name reads as before |
| ChessTexts.EnumNamesRoundTrip | shared/src/main/java/shared/ChessAdapters.java:40-50 | valueOf inverts toString for both enums, and every name valueOf accepts is a toString |
| ChessAdapters.FieldValueOf | shared/src/main/java/shared/ChessAdapters.java:68-69 | "name=<int>" splits at '=' and parses back to the int |
| ChessAdapters.BracedDecode | shared/src/main/java/shared/ChessAdapters.java:66-70 | a "ChessPosition{" text decodes from the two ", "-separated fields |
| ChessAdapters.BracedRoundTrip | shared/src/main/java/shared/ChessAdapters.java:59-70 | a braced position text decodes to the position |
| ChessAdapters.CommaRoundTrip | shared/src/main/java/shared/ChessAdapters.java:71-74 | a "row,col" text decodes to the position |
| ChessAdapters.PositionRoundTrip | shared/src/main/java/shared/ChessAdapters.java:57-76 | in either text format the position decoder inverts the encoder |
| ChessAdapters.PositionTextInjective | shared/src/main/java/shared/ChessAdapters.java:59-61 | distinct positions get distinct texts, so board keys stay distinct |
| ChessAdapters.PieceRoundTrip | shared/src/main/java/shared/ChessAdapters.java:36-55 | decoding an encoded piece gives back its colour, kind and hasMoved flag |
| ChessAdapters.SerializeBoard | shared/src/main/java/shared/ChessAdapters.java:12-20 | the loop builds EncodeBoard of the board's entries |
| ChessAdapters.DecodeFailurePersists | shared/src/main/java/shared/ChessAdapters.java:27-31 | once an entry fails to decode, the whole board fails |
| ChessAdapters.DeserializeBoard | shared/src/main/java/shared/ChessAdapters.java:23-33 | fails exactly when DecodeBoard fails; otherwise a fresh board holding the decoded entries |
| ChessAdapters.EncodeEntriesShape | shared/src/main/java/shared/ChessAdapters.java:15-17 | one member per entry, in entry order, named by the position's text |
| ChessAdapters.PieceValueRoundTrip | shared/src/main/java/shared/ChessAdapters.java:16-29 | a square's value, piece or null, survives encoding and decoding |
| ChessAdapters.DecodeEntriesStep | shared/src/main/java/shared/ChessAdapters.java:27-31 | decoding one more member puts its position and piece into the board decoded so far |
| ChessAdapters.DecodeEncodedEntries | shared/src/main/java/shared/ChessAdapters.java:12-33 | decoding the encoded members gives back the entries, in order |
| ChessAdapters.BoardRoundTrip | shared/src/main/java/shared/ChessAdapters.java:10-34 | a board with distinct keys survives serialize then deserialize, in either position format |
| ChessAdapters.EncodedMoveMembers | shared/src/main/java/shared/ChessAdapters.java:80-88 | an encoded move holds the two position texts, and promotionPiece only when there is one |
| ChessAdapters.PositionFieldOf | shared/src/main/java/shared/ChessAdapters.java:93-94 | a member holding a position text decodes to that position |
| ChessAdapters.PromotionRoundTrip | shared/src/main/java/shared/ChessAdapters.java:84-98 | the promotion piece, or its absence, survives encoding |
| ChessAdapters.DecodeMoveOf | shared/src/main/java/shared/ChessAdapters.java:91-100 | a move object whose fields decode decodes to the move they make |
| ChessAdapters.MoveRoundTrip | shared/src/main/java/shared/ChessAdapters.java:78-101 | promotionPiece is written exactly when present, and every move survives encoding and decoding |
| ChessAdapters.EncodedGameMembers | shared/src/main/java/shared/ChessAdapters.java:105-112 | an encoded game holds the board, the turn's name, the last move (or null) and the game-over flag |
| ChessAdapters.LastMoveRoundTrip | shared/src/main/java/shared/ChessAdapters.java:109-123 | the last move, or its absence, survives encoding |
| ChessAdapters.BoardFieldOf | shared/src/main/java/shared/ChessAdapters.java:118 | an encoded board member decodes to the board |
| ChessAdapters.TurnFieldOf | shared/src/main/java/shared/ChessAdapters.java:119 | the teamTurn name decodes to the colour |
| ChessAdapters.DecodeGameOf | shared/src/main/java/shared/ChessAdapters.java:115-128 | a game object whose fields decode decodes to that game |
| ChessAdapters.GameRoundTrip | shared/src/main/java/shared/ChessAdapters.java:103-129 | board, turn, last move and game-over flag survive encoding and decoding |
| ChessAdapters.GameOptionalMembers | shared/src/main/java/shared/ChessAdapters.java:120-126 | a missing or null lastMove leaves none, and a missing isGameOver leaves the flag unset |
| ChessTypeAdapters.AgreesWithChessAdapters | shared/src/main/java/shared/ChessTypeAdapters.java:89-93 | on texts not starting "ChessPosition{" the position decoder agrees with the other adapter's |
| ChessTypeAdapters.CommaRoundTrip | shared/src/main/java/shared/ChessTypeAdapters.java:84-93 | a "row,col" text decodes to the position |
| ChessTypeAdapters.ParseIntRejectsLetter | shared/src/main/java/shared/ChessTypeAdapters.java:92 | parseInt refuses text starting with a letter |
| ChessTypeAdapters.BracedRejected | shared/src/main/java/shared/ChessTypeAdapters.java:89-93 | a braced position text never decodes |
| ChessTypeAdapters.PieceRoundTrip | shared/src/main/java/shared/ChessTypeAdapters.java:39-55 | decoding an encoded piece gives it back |
| ChessTypeAdapters.SerializeBoard | shared/src/main/java/shared/ChessTypeAdapters.java:12-24 | the nested loops over rows and columns 1 to 8 build EncodeBoard |
| ChessTypeAdapters.EncodeUpToMembers | shared/src/main/java/shared/ChessTypeAdapters.java:14-22 | after the squares visited so far, a square's name holds its piece exactly when it was visited and occupied |
| ChessTypeAdapters.EncodeBoardContents | shared/src/main/java/shared/ChessTypeAdapters.java:12-24 | the encoded board holds a member for exactly the occupied squares of rows and columns 1 to 8 |
| ChessTypeAdapters.EncodeSquareAppends | shared/src/main/java/shared/ChessTypeAdapters.java:17-19 | an occupied square appends one member named by its position |
| ChessTypeAdapters.PiecesUpToKeys | shared/src/main/java/shared/ChessTypeAdapters.java:14-22 | the board collected so far holds only visited squares |
| ChessTypeAdapters.PiecesUpToGet | shared/src/main/java/shared/ChessTypeAdapters.java:14-22 | the board collected so far agrees with the source board on visited squares and is empty elsewhere |
| ChessTypeAdapters.DecodeEntriesStep | shared/src/main/java/shared/ChessTypeAdapters.java:30-34 | decoding one more member puts its position and piece into the board decoded so far |
| ChessTypeAdapters.DecodeEncodedSquares | shared/src/main/java/shared/ChessTypeAdapters.java:12-36 | with "row,col" texts, decoding the squares encoded so far gives the pieces on them |
| ChessTypeAdapters.BoardRoundTrip | shared/src/main/java/shared/ChessTypeAdapters.java:10-37 | with "row,col" texts, a board survives the round trip restricted to the 64 squares: on-board squares read as before, others are empty |
| ChessTypeAdapters.BracedNamesRejected | shared/src/main/java/shared/ChessTypeAdapters.java:19 | with braced texts, no encoded square name decodes |
| ChessTypeAdapters.RejectedNames | shared/src/main/java/shared/ChessTypeAdapters.java:30-34 | a non-empty object whose names all fail to decode fails as a board |
| ChessTypeAdapters.BracedBoardFails | shared/src/main/java/shared/ChessTypeAdapters.java:10-37 | with braced texts, any board with a piece on the 64 squares fails to round-trip |
| ChessTypeAdapters.DeserializeBoard | shared/src/main/java/shared/ChessTypeAdapters.java:27-36 | fails exactly when DecodeBoard fails; otherwise a fresh board holding the decoded entries |
| ChessTypeAdapters.DecodeFailurePersists | shared/src/main/java/shared/ChessTypeAdapters.java:30-34 | once an entry fails to decode, the whole board fails |
| ChessTypeAdapters.DecodeGameOf | shared/src/main/java/shared/ChessTypeAdapters.java:68-79 | a game object whose fields decode decodes to that game with no last move |
| ChessTypeAdapters.GameRoundTrip | shared/src/main/java/shared/ChessTypeAdapters.java:57-80 | null round-trips to null; with "row,col" texts a game comes back with its turn and its on-board pieces, the last move dropped |
| ChessTypeAdapters.EmptyObjectIsNewGame | shared/src/main/java/shared/ChessTypeAdapters.java:71-78 | an empty object decodes to a new game |
| ChessTypeAdapters.PositionFieldOf | shared/src/main/java/shared/ChessTypeAdapters.java:111-112 | a member holding a "row,col" text decodes to that position |
| ChessTypeAdapters.DecodeMoveOf | shared/src/main/java/shared/ChessTypeAdapters.java:109-118 | a move object whose fields decode decodes to the move they make |
| ChessTypeAdapters.MoveRoundTrip | shared/src/main/java/shared/ChessTypeAdapters.java:96-119 | with "row,col" texts every move survives encoding and decoding |
| ChessTypeAdapters.BracedMoveFails | shared/src/main/java/shared/ChessTypeAdapters.java:96-119 | with braced texts no move survives encoding and decoding |

## Left out

- Concurrency: the `ConcurrentHashMap` registry, Jetty's threads and the logger are not modelled. Each handler call runs alone.
- Sending: Jetty's `sendString` is a parameter. A per-session table says whether a send fails and with which message.
- Registry: the static registry shared by all handler instances is modelled as the one handler's field.
- Hash-map iteration order (registry maps, board map, JSON objects) is not fixed by the source.
  - Fan-outs are stated for an order that visits each entry once.
  - The board and JSON objects are insertion-ordered lists.
- Gson: its reflection, `JsonSerializationContext` and the JSON text itself are not modelled.
  - Adapters work on a JSON value datatype, and the nested adapters are called directly.
  - The text the WebSocket handler reads is modelled already parsed. It is either a command or the message of the exception that parsing threw.
- Missing or mistyped members: a missing member, a mistyped one, a `null` board or a `null` position (for which Gson returns `null`) are all modelled as decode failures.
  - The model does not follow the `null` further.
- `hasMoved`, `setHasMoved`, `getLastMove`, `setLastMove`, `isGameOver` and `setGameOver` are called by `ChessAdapters` but not defined by the chess classes.
  - The pieces' `hasMoved` flags and the game-over flag are parameters of the encoders.
  - They are results of the decoders.
- Undefined board and service methods: `getBoard`, `getPieces`, `getPosition` and `clone` are used but not defined by `ChessBoard`.
  - `getBoard`, `getPieces` and `clone` are modelled as the entry list, the occupied entries and a deep copy.
  - `getPosition(piece)` is modelled as the key of the entry being visited (in `Attacked` and `HasEscape`), not as a lookup by piece value, which would return one square for two equal pieces.
  - `GameService.isValidGame`, `isAuthorized` and `resignGame` are not defined; they are parameters of the handler.
  - The store effect of `resignGame` is not modelled.
- `GameService.createGame` calls `dataAccess.createGame`, which neither `DataAccess` nor `MemoryDataAccess` declares. It is modelled as `addGame`.
- `ChessPosition.java` is not part of this model. The format of `toString` is a parameter, and `hashCode` is a parameter of the hashing lemmas.
- Enum `hashCode` values are parameters, since they are identity hashes in Java.
- The `default` branch of the command switch ("Unknown command type") is unreachable: the command type is an enum value. It is not modelled.
- `onMessage`'s last error send: when the send that reports an exception itself fails, the exception escapes `onMessage`. The model records only the failed send.
- `undo` in `makeMove` does not restore a captured piece or a promotion; the model keeps exactly this behaviour.
  - That includes the in-place change the engine leaves on the stored `ChessGame` when the service reports an invalid move.
- PieceMoves.PieceMoves: the move-generation methods of this snapshot are empty, so every `pieceMoves` is empty.
  - The engine is stated for any generator.
  - The lemmas about the empty generator show what the snapshot does.
- `Character.getNumericValue` is modelled on ASCII digits and letters; every other character gives -1, unlike Java for Unicode numerals.
- JavaStrings.IntToStringRoundTrip: `Character.getNumericValue`, `Integer.parseInt` and `Integer.toString` cover ASCII digits and signs only.
  - Other Unicode digits are not modelled.
  - Strings are sequences of characters, not of UTF-16 code units.
- The text of a NullPointerException is a parameter, a function of the site that throws it. There are four sites: an empty seat in `makeMove`, a null move reaching the engine, `handleLeave` on an unknown game, and `sendGameStateToAll` on an unknown game. Each site has its own text, and the model fixes none of them and does not assume any two are equal.
- The HTTP handlers, the SQL store (`MySqlDataAccess`) and the client's terminal UI and server facade are not modelled.
- ChessTypeAdapters.MoveRoundTrip: `ChessTypeAdapters`' move encoder is the same code as `ChessAdapters`', so both use `ChessAdapters.EncodeMove`.
- `ChessAdapters.PositionTextInjective` is stated for the two position formats. The true `toString` of `ChessPosition` is not part of this model.

## Findings

| source | as written | input that shows it | evidently intended | confidence | as-written member | corrected member |
|---|---|---|---|---|---|---|
| shared/src/main/java/chess/ChessGame.java:104 | the en-passant capture fires only when the moving pawn ENDS on the row where the enemy pawn stands after its two-row advance (row 5 for white, 4 for black), and then clears the square (start row, end column) | black pawn just moved (7,5)->(5,5). White pawn (5,4) captures en passant to (6,5): the test does not fire and the black pawn stays. White pawn (4,4) instead takes (5,5) directly: the test fires and clears a black pawn on (4,5) | the capturing pawn lands one row beyond (row 6 for white, 3 for black), and the pawn on (start row, end column) is removed | not executed | ChessGameProperties.EnPassantCounterexample | ChessGameProperties.EnPassantRemovesTheAdvancedPawn |

The engine, the `ChessGame` class and the services run the test as written (`ApplyMove`). The corrected
step is `ApplyMoveCorrected`, which differs only in the en-passant rule.
`ChessGameProperties.AsWrittenClearsAnUninvolvedPawn` shows the second effect of the same line.
