/**
 * WebSocketHandler.java: the registry of sessions per game and what each command sends to whom.
 *
 * A send either reaches its session or fails with an IOException; `broken` maps each session whose
 * sends fail to that exception's message. Sends are recorded in `outbox`, in order. The iteration
 * order of the registry's maps is not fixed by the source: every fan-out is stated for SOME order
 * that visits each registered session exactly once.
 */
module WebSocketServer {
  import opened Wrappers
  import opened JavaInts
  import opened ChessMoves
  import opened PieceMoves
  import opened ChessGames
  import opened Records
  import opened MemoryStore
  import opened GameServices

  /** A client connection; only its identity matters. */
  type Session = nat

  /** gameSessions: game id -> (session -> auth token). */
  type Registry = map<int32, map<Session, string>>

  datatype ServerMessage = LoadGame(game: GameState) | ErrorMessage(errorMessage: string) | Notification(message: string)

  datatype Event = Delivered(to: Session, message: ServerMessage) | SendFailed(to: Session)

  /** An exception escaping a handler: only its message is observable. */
  datatype Thrown = Thrown(message: string)

  datatype CommandType = CONNECT | MAKE_MOVE | LEAVE | RESIGN

  /**
   * An incoming text as the JSON layer leaves it: either it could not be read as a command (the
   * exception message is kept), or a command whose "move" member (if any) decodes to a move or to
   * null, or fails to decode.
   */
  datatype Inbound =
    | Malformed(reason: string)
    | Command(commandType: CommandType, authToken: string, gameID: int32, move: Result<Option<ChessMove>, string>)

  /** What the handler relies on besides the store: the game checks and resign that GameService does not define, and the text of a NullPointerException at each site. */
  datatype Env = Env(
    gen: MoveGenerator,
    isValidGame: (StoreState, int32) -> bool,
    isAuthorized: (StoreState, string) -> bool,
    resignGame: (StoreState, string, int32) -> Outcome<string>,
    nullPointerMessage: NullSite -> string)

  /** `order` visits each session of `sessions` exactly once. */
  ghost predicate IsEnumeration(order: seq<Session>, sessions: set<Session>)
  {
    (forall i, j | 0 <= i < j < |order| :: order[i] != order[j]) &&
    (forall s :: s in order <==> s in sessions)
  }

  lemma {:induction false} AnEnumeration(sessions: set<Session>) returns (order: seq<Session>)
    ensures IsEnumeration(order, sessions)
    decreases |sessions|
  {
    if sessions == {} {
      order := [];
    } else {
      var s :| s in sessions;
      var rest := AnEnumeration(sessions - {s});
      order := [s] + rest;
      assert forall i | 1 <= i < |order| :: order[i] == rest[i - 1];
    }
  }

  /** The sessions registered for a game (none when the game has no entry). */
  function SessionsOf(reg: Registry, gameId: int32): map<Session, string>
  {
    if gameId in reg then reg[gameId] else map[]
  }

  function Deliver(to: Session, broken: map<Session, string>, message: ServerMessage): Event
  {
    if to in broken then SendFailed(to) else Delivered(to, message)
  }

  /** One send per session of `order`, in that order. */
  function Broadcast(order: seq<Session>, broken: map<Session, string>, message: ServerMessage): seq<Event>
  {
    seq(|order|, i requires 0 <= i < |order| => Deliver(order[i], broken, message))
  }

  /** sendErrorMessage: the error reaches the session, or the send fails and its IOException escapes. */
  function ErrorTo(session: Session, broken: map<Session, string>, text: string): (seq<Event>, Outcome<Thrown>)
  {
    if session in broken then ([SendFailed(session)], Fail(Thrown(broken[session])))
    else ([Delivered(session, ErrorMessage(text))], Pass)
  }

  /** sendGameStateToAll's sends: LOAD_GAME to each session whose token can read the game; the others are skipped. */
  function LoadGameEvents(order: seq<Session>, tokens: map<Session, string>, store: StoreState, gameId: int32, broken: map<Session, string>)
    : seq<Event>
    requires forall s | s in order :: s in tokens
  {
    if order == [] then []
    else
      var s := order[|order| - 1];
      LoadGameEvents(order[..|order| - 1], tokens, store, gameId, broken) +
      match GetGameStateOn(store, tokens[s], gameId)
      case Failure(_) => []
      case Success(g) => [Deliver(s, broken, LoadGame(g.game))]
  }

  /** A handler's effect: the new registry, the sends in order, and whether an exception escapes. */
  type Effect = (Registry, seq<Event>, Outcome<Thrown>)

  /** The registry and outbox after an effect's sends are appended, and what escaped. */
  function Appended(outbox: seq<Event>, e: Effect): (Registry, seq<Event>, Outcome<Thrown>)
  {
    (e.0, outbox + e.1, e.2)
  }

  /** The end of an accepted handleConnect: the game state to the new session, or the error about it. */
  function ConnectTail(broken: map<Session, string>, store: StoreState, session: Session, authToken: string, gameId: int32)
    : (seq<Event>, Outcome<Thrown>)
  {
    match GetGameStateOn(store, authToken, gameId)
    case Failure(e) => ErrorTo(session, broken, "Error connecting to game: " + e.message)
    case Success(g) =>
      if session in broken then
        var (ev, r) := ErrorTo(session, broken, "Error connecting to game: " + broken[session]);
        ([SendFailed(session)] + ev, r)
      else ([Delivered(session, LoadGame(g.game))], Pass)
  }

  /** handleConnect; `others` is the order in which the other registered sessions are notified. */
  function ConnectOn(reg: Registry, broken: map<Session, string>, store: StoreState, accepted: bool,
                     session: Session, authToken: string, gameId: int32, others: seq<Session>): Effect
  {
    if accepted then
      var reg' := reg[gameId := SessionsOf(reg, gameId)[session := authToken]];
      var notes := Broadcast(others, broken, Notification(authToken + " has joined the game."));
      var (tail, r) := ConnectTail(broken, store, session, authToken, gameId);
      (reg', notes + tail, r)
    else
      var (ev, r) := ErrorTo(session, broken, "Invalid game ID or unauthorized");
      if r.Pass? then (reg, ev, Pass)
      else
        var (ev2, r2) := ErrorTo(session, broken, "Error connecting to game: " + r.error.message);
        (reg, ev + ev2, r2)
  }

  /** The message of an exception from GameService.makeMove. */
  function FailureMessage(f: MoveFailure, nullPointerMessage: NullSite -> string): string
  {
    match f
    case Rejected(e) => e.message
    case NullPointerException(site) => nullPointerMessage(site)
  }

  /** handleMakeMove after the service call, given its outcome and the store it left. */
  function MakeMoveEffectOn(reg: Registry, broken: map<Session, string>, store': StoreState, result: Outcome<MoveFailure>,
                            nullPointerMessage: NullSite -> string, session: Session, authToken: string, gameId: int32,
                            others: seq<Session>, everyone: seq<Session>): Effect
    requires gameId in reg ==> forall s | s in everyone :: s in reg[gameId]
  {
    if result.Fail? then
      var (ev, r) := ErrorTo(session, broken, "Error making move: " + FailureMessage(result.error, nullPointerMessage));
      (reg, ev, r)
    else
      var notes := Broadcast(others, broken, Notification(authToken + " made a move."));
      if gameId !in reg then
        var (ev, r) := ErrorTo(session, broken, "Error making move: " + nullPointerMessage(BroadcastUnknownGame));
        (reg, notes + ev, r)
      else (reg, notes + LoadGameEvents(everyone, reg[gameId], store', gameId, broken), Pass)
  }

  /** handleLeave: a game without an entry throws NullPointerException. */
  function LeaveOn(reg: Registry, broken: map<Session, string>, nullPointerMessage: NullSite -> string,
                   session: Session, authToken: string, gameId: int32, others: seq<Session>): Effect
  {
    if gameId !in reg then (reg, [], Fail(Thrown(nullPointerMessage(LeaveUnknownGame))))
    else (reg[gameId := reg[gameId] - {session}],
          Broadcast(others, broken, Notification(authToken + " has left the game.")), Pass)
  }

  /** handleResign, given whether resignGame threw. */
  function ResignOn(reg: Registry, broken: map<Session, string>, resigned: Outcome<string>,
                    session: Session, authToken: string, gameId: int32, everyone: seq<Session>): Effect
  {
    if resigned.Fail? then
      var (ev, r) := ErrorTo(session, broken, "Error resigning game: " + resigned.error);
      (reg, ev, r)
    else (reg, Broadcast(everyone, broken, Notification(authToken + " has resigned from the game.")), Pass)
  }

  /** onMessage's dispatch of a well-formed command. */
  function CommandOn(env: Env, reg: Registry, broken: map<Session, string>, store: StoreState,
                     session: Session, cmd: Inbound, others: seq<Session>, everyone: seq<Session>): Effect
    requires cmd.Command?
    requires IsEnumeration(everyone, SessionsOf(reg, cmd.gameID).Keys)
  {
    var token := cmd.authToken;
    var id := cmd.gameID;
    match cmd.commandType
    case CONNECT =>
      ConnectOn(reg, broken, store, env.isValidGame(store, id) && env.isAuthorized(store, token), session, token, id, others)
    case MAKE_MOVE =>
      if cmd.move.Failure? then (reg, [], Fail(Thrown(cmd.move.error)))
      else
        var (store', result) := MakeMoveOn(env.gen, store, token, id, cmd.move.value);
        MakeMoveEffectOn(reg, broken, store', result, env.nullPointerMessage, session, token, id, others, everyone)
    case LEAVE => LeaveOn(reg, broken, env.nullPointerMessage, session, token, id, others)
    case RESIGN => ResignOn(reg, broken, env.resignGame(store, token, id), session, token, id, everyone)
  }

  /** The store after a command: only a move with a readable "move" member reaches GameService.makeMove. */
  function StoreAfter(env: Env, store: StoreState, cmd: Inbound): StoreState
  {
    if cmd.Command? && cmd.commandType == MAKE_MOVE && cmd.move.Success?
    then MakeMoveOn(env.gen, store, cmd.authToken, cmd.gameID, cmd.move.value).0
    else store
  }

  /** onMessage: whatever escapes a handler is reported to the sender as "Error processing message: ...". */
  function OnMessageOn(env: Env, reg: Registry, broken: map<Session, string>, store: StoreState,
                       session: Session, inbound: Inbound, others: seq<Session>, everyone: seq<Session>): (Registry, seq<Event>)
    requires inbound.Command? ==> IsEnumeration(everyone, SessionsOf(reg, inbound.gameID).Keys)
  {
    var (reg', ev, r) :=
      if inbound.Malformed? then (reg, [], Fail(Thrown(inbound.reason)))
      else CommandOn(env, reg, broken, store, session, inbound, others, everyone);
    (reg', ev + if r.Fail? then ErrorTo(session, broken, "Error processing message: " + r.error.message).0 else [])
  }

  /** onClose, for the game `gameId` whose map the iteration finds holding the session first. */
  function CloseOn(reg: Registry, broken: map<Session, string>, session: Session, gameId: int32, others: seq<Session>)
    : (Registry, seq<Event>)
    requires gameId in reg && session in reg[gameId]
  {
    (reg[gameId := reg[gameId] - {session}],
     Broadcast(others, broken, Notification(reg[gameId][session] + " has left the game.")))
  }

  class WebSocketHandler {
    const gameService: GameService
    const isValidGame: (StoreState, int32) -> bool
    const isAuthorized: (StoreState, string) -> bool
    const resignGame: (StoreState, string, int32) -> Outcome<string>
    const nullPointerMessage: NullSite -> string
    var gameSessions: Registry
    var broken: map<Session, string>
    var outbox: seq<Event>

    ghost predicate Valid()
      reads gameService.dataAccess
    {
      gameService.dataAccess.Valid()
    }

    function Environment(): Env
    {
      Env(gameService.gen, isValidGame, isAuthorized, resignGame, nullPointerMessage)
    }

    function Store(): StoreState
      reads gameService.dataAccess
    {
      gameService.dataAccess.State()
    }

    constructor(gameService: GameService, isValidGame: (StoreState, int32) -> bool, isAuthorized: (StoreState, string) -> bool,
                resignGame: (StoreState, string, int32) -> Outcome<string>, nullPointerMessage: NullSite -> string, broken: map<Session, string>)
      ensures this.gameService == gameService && this.isValidGame == isValidGame && this.isAuthorized == isAuthorized
      ensures this.resignGame == resignGame && this.nullPointerMessage == nullPointerMessage
      ensures gameSessions == map[] && this.broken == broken && outbox == []
    {
      this.gameService := gameService;
      this.isValidGame := isValidGame;
      this.isAuthorized := isAuthorized;
      this.resignGame := resignGame;
      this.nullPointerMessage := nullPointerMessage;
      gameSessions := map[];
      this.broken := broken;
      outbox := [];
    }

    /** session.getRemote().sendString: delivered, or an IOException for a broken session. */
    method Send(to: Session, message: ServerMessage) returns (ok: bool)
      modifies this
      ensures ok <==> to !in broken
      ensures outbox == old(outbox) + [Deliver(to, broken, message)]
      ensures gameSessions == old(gameSessions) && broken == old(broken)
    {
      ok := to !in broken;
      outbox := outbox + [Deliver(to, broken, message)];
    }

    method SendErrorMessage(session: Session, errorMessage: string) returns (r: Outcome<Thrown>)
      modifies this
      ensures (outbox, r) == (old(outbox) + ErrorTo(session, broken, errorMessage).0, ErrorTo(session, broken, errorMessage).1)
      ensures gameSessions == old(gameSessions) && broken == old(broken)
    {
      var ok := Send(session, ErrorMessage(errorMessage));
      r := if ok then Pass else Fail(Thrown(broken[session]));
    }

    /** The loop shared by notifyOtherPlayers and notifyAllPlayers: one send per recipient, failures logged and skipped. */
    method Fanout(recipients: set<Session>, message: ServerMessage) returns (order: seq<Session>)
      modifies this
      ensures IsEnumeration(order, recipients)
      ensures outbox == old(outbox) + Broadcast(order, broken, message)
      ensures gameSessions == old(gameSessions) && broken == old(broken)
    {
      order := [];
      var remaining := recipients;
      while remaining != {}
        invariant remaining <= recipients
        invariant IsEnumeration(order, recipients - remaining)
        invariant outbox == old(outbox) + Broadcast(order, broken, message)
        invariant gameSessions == old(gameSessions) && broken == old(broken)
        decreases |remaining|
      {
        var s :| s in remaining;
        var _ := Send(s, message);
        assert Broadcast(order + [s], broken, message) == Broadcast(order, broken, message) + [Deliver(s, broken, message)];
        order := order + [s];
        remaining := remaining - {s};
      }
    }

    method NotifyOtherPlayers(gameId: int32, excludeSession: Session, notificationMessage: string) returns (order: seq<Session>)
      modifies this
      ensures IsEnumeration(order, SessionsOf(gameSessions, gameId).Keys - {excludeSession})
      ensures outbox == old(outbox) + Broadcast(order, broken, Notification(notificationMessage))
      ensures gameSessions == old(gameSessions) && broken == old(broken)
    {
      var sessions := SessionsOf(gameSessions, gameId);
      order := Fanout(sessions.Keys - {excludeSession}, Notification(notificationMessage));
    }

    method NotifyAllPlayers(gameId: int32, notificationMessage: string) returns (order: seq<Session>)
      modifies this
      ensures IsEnumeration(order, SessionsOf(gameSessions, gameId).Keys)
      ensures outbox == old(outbox) + Broadcast(order, broken, Notification(notificationMessage))
      ensures gameSessions == old(gameSessions) && broken == old(broken)
    {
      var sessions := SessionsOf(gameSessions, gameId);
      order := Fanout(sessions.Keys, Notification(notificationMessage));
    }

    /** sendGameState: LOAD_GAME with the stored game; getGameState's exception escapes. */
    method SendGameState(session: Session, authToken: string, gameId: int32) returns (r: Outcome<Thrown>)
      requires Valid()
      modifies this
      ensures gameSessions == old(gameSessions) && broken == old(broken)
      ensures match GetGameStateOn(Store(), authToken, gameId)
        case Failure(e) => r == Fail(Thrown(e.message)) && outbox == old(outbox)
        case Success(g) =>
          outbox == old(outbox) + [Deliver(session, broken, LoadGame(g.game))] &&
          r == (if session in broken then Fail(Thrown(broken[session])) else Pass)
    {
      var gameData := gameService.GetGameState(authToken, gameId);
      if gameData.Failure? {
        return Fail(Thrown(gameData.error.message));
      }
      var ok := Send(session, LoadGame(gameData.value.game));
      r := if ok then Pass else Fail(Thrown(broken[session]));
    }

    /** sendGameStateToAll: a game without an entry throws NullPointerException; otherwise every failure is logged and skipped. */
    method SendGameStateToAll(gameId: int32) returns (r: Outcome<Thrown>, order: seq<Session>)
      requires Valid()
      modifies this
      ensures gameSessions == old(gameSessions) && broken == old(broken)
      ensures gameId !in gameSessions ==> r == Fail(Thrown(nullPointerMessage(BroadcastUnknownGame))) && outbox == old(outbox)
      ensures gameId in gameSessions ==>
        r == Pass && IsEnumeration(order, gameSessions[gameId].Keys) &&
        outbox == old(outbox) + LoadGameEvents(order, gameSessions[gameId], Store(), gameId, broken)
    {
      order := [];
      if gameId !in gameSessions {
        return Fail(Thrown(nullPointerMessage(BroadcastUnknownGame))), order;
      }
      var tokens := gameSessions[gameId];
      var remaining := tokens.Keys;
      while remaining != {}
        invariant remaining <= tokens.Keys
        invariant IsEnumeration(order, tokens.Keys - remaining)
        invariant outbox == old(outbox) + LoadGameEvents(order, tokens, Store(), gameId, broken)
        invariant gameSessions == old(gameSessions) && broken == old(broken)
        decreases |remaining|
      {
        var s :| s in remaining;
        var _ := SendGameState(s, tokens[s], gameId);
        assert (order + [s])[..|order|] == order;
        order := order + [s];
        remaining := remaining - {s};
      }
      return Pass, order;
    }

    method HandleConnect(session: Session, authToken: string, gameId: int32) returns (r: Outcome<Thrown>, ghost others: seq<Session>)
      requires Valid()
      modifies this
      ensures broken == old(broken)
      ensures IsEnumeration(others, SessionsOf(old(gameSessions), gameId).Keys - {session})
      ensures (gameSessions, outbox, r) == Appended(old(outbox), ConnectOn(old(gameSessions), broken, Store(),
        isValidGame(Store(), gameId) && isAuthorized(Store(), authToken), session, authToken, gameId, others))
    {
      if isValidGame(Store(), gameId) && isAuthorized(Store(), authToken) {
        ghost var reg := gameSessions;
        gameSessions := gameSessions[gameId := SessionsOf(gameSessions, gameId)[session := authToken]];
        assert SessionsOf(gameSessions, gameId).Keys - {session} == SessionsOf(reg, gameId).Keys - {session};
        others := NotifyOtherPlayers(gameId, session, authToken + " has joined the game.");
        ghost var notes := outbox;
        r := SendStateOrError(session, authToken, gameId);
        ghost var tail := ConnectTail(broken, Store(), session, authToken, gameId);
        ghost var effect := ConnectOn(reg, broken, Store(), true, session, authToken, gameId, others);
        assert effect.1 == Broadcast(others, broken, Notification(authToken + " has joined the game.")) + tail.0;
        assert outbox == old(outbox) + effect.1;
        assert (gameSessions, outbox, r) == Appended(old(outbox), effect);
      } else {
        others := AnEnumeration(SessionsOf(gameSessions, gameId).Keys - {session});
        var e := SendErrorMessage(session, "Invalid game ID or unauthorized");
        ghost var first := outbox;
        if e.Fail? {
          r := SendErrorMessage(session, "Error connecting to game: " + e.error.message);
        } else {
          r := Pass;
        }
        assert outbox == old(outbox) + (first[|old(outbox)|..] + outbox[|first|..]);
        assert (gameSessions, outbox, r) == Appended(old(outbox), ConnectOn(old(gameSessions), broken, Store(), false, session, authToken, gameId, others));
      }
    }

    /** The end of handleConnect: sendGameState, and the error message when it throws. */
    method SendStateOrError(session: Session, authToken: string, gameId: int32) returns (r: Outcome<Thrown>)
      requires Valid()
      modifies this
      ensures gameSessions == old(gameSessions) && broken == old(broken)
      ensures (outbox, r) == (old(outbox) + ConnectTail(broken, Store(), session, authToken, gameId).0,
                              ConnectTail(broken, Store(), session, authToken, gameId).1)
    {
      var sent := SendGameState(session, authToken, gameId);
      ghost var loaded := outbox;
      if sent.Fail? {
        r := SendErrorMessage(session, "Error connecting to game: " + sent.error.message);
      } else {
        r := Pass;
      }
      assert outbox == old(outbox) + (loaded[|old(outbox)|..] + outbox[|loaded|..]);
    }

    /** handleMakeMove once GameService.makeMove has returned: the error to the mover, or the notifications and the new state to all. */
    method ReportMove(session: Session, authToken: string, gameId: int32, result: Outcome<MoveFailure>)
      returns (r: Outcome<Thrown>, ghost others: seq<Session>, ghost everyone: seq<Session>)
      requires Valid()
      modifies this
      ensures broken == old(broken)
      ensures IsEnumeration(others, SessionsOf(old(gameSessions), gameId).Keys - {session})
      ensures IsEnumeration(everyone, SessionsOf(old(gameSessions), gameId).Keys)
      ensures (gameSessions, outbox, r) == Appended(old(outbox), MakeMoveEffectOn(old(gameSessions), broken, Store(), result,
        nullPointerMessage, session, authToken, gameId, others, everyone))
    {
      if result.Fail? {
        others := AnEnumeration(SessionsOf(gameSessions, gameId).Keys - {session});
        everyone := AnEnumeration(SessionsOf(gameSessions, gameId).Keys);
        r := SendErrorMessage(session, "Error making move: " + FailureMessage(result.error, nullPointerMessage));
        return;
      }
      var notified := NotifyOtherPlayers(gameId, session, authToken + " made a move.");
      others := notified;
      var all, order := SendGameStateToAll(gameId);
      everyone := order;
      if all.Fail? {
        everyone := AnEnumeration(SessionsOf(gameSessions, gameId).Keys);
        ghost var sent := outbox;
        r := SendErrorMessage(session, "Error making move: " + all.error.message);
        assert outbox == old(outbox) + (sent[|old(outbox)|..] + outbox[|sent|..]);
        return;
      }
      r := Pass;
      assert gameId in gameSessions;
      assert outbox == old(outbox) + Broadcast(others, broken, Notification(authToken + " made a move.")) + LoadGameEvents(everyone, gameSessions[gameId], Store(), gameId, broken);
      assert outbox == old(outbox) + (Broadcast(others, broken, Notification(authToken + " made a move.")) + LoadGameEvents(everyone, gameSessions[gameId], Store(), gameId, broken));
      assert MakeMoveEffectOn(old(gameSessions), broken, Store(), result, nullPointerMessage, session, authToken, gameId, others, everyone).1 == Broadcast(others, broken, Notification(authToken + " made a move.")) + LoadGameEvents(everyone, gameSessions[gameId], Store(), gameId, broken);
    }

    method HandleMakeMove(session: Session, authToken: string, gameId: int32, move: Option<ChessMove>)
      returns (r: Outcome<Thrown>, ghost others: seq<Session>, ghost everyone: seq<Session>)
      requires Valid()
      modifies this, gameService.dataAccess
      ensures Valid() && broken == old(broken)
      ensures Store() == MakeMoveOn(gameService.gen, old(Store()), authToken, gameId, move).0
      ensures IsEnumeration(others, SessionsOf(old(gameSessions), gameId).Keys - {session})
      ensures IsEnumeration(everyone, SessionsOf(old(gameSessions), gameId).Keys)
      ensures (gameSessions, outbox, r) == Appended(old(outbox), MakeMoveEffectOn(old(gameSessions), broken, Store(),
        MakeMoveOn(gameService.gen, old(Store()), authToken, gameId, move).1,
        nullPointerMessage, session, authToken, gameId, others, everyone))
    {
      var result := gameService.MakeMove(authToken, gameId, move);
      r, others, everyone := ReportMove(session, authToken, gameId, result);
    }

    method HandleLeave(session: Session, authToken: string, gameId: int32) returns (r: Outcome<Thrown>, ghost others: seq<Session>)
      modifies this
      ensures broken == old(broken)
      ensures IsEnumeration(others, SessionsOf(old(gameSessions), gameId).Keys - {session})
      ensures (gameSessions, outbox, r) == Appended(old(outbox),
        LeaveOn(old(gameSessions), broken, nullPointerMessage, session, authToken, gameId, others))
    {
      if gameId !in gameSessions {
        others := AnEnumeration({});
        assert outbox == old(outbox) + [];
        return Fail(Thrown(nullPointerMessage(LeaveUnknownGame))), others;
      }
      ghost var reg := gameSessions;
      gameSessions := gameSessions[gameId := gameSessions[gameId] - {session}];
      assert SessionsOf(gameSessions, gameId).Keys - {session} == SessionsOf(reg, gameId).Keys - {session};
      var notified := NotifyOtherPlayers(gameId, session, authToken + " has left the game.");
      others := notified;
      r := Pass;
    }

    method HandleResign(session: Session, authToken: string, gameId: int32) returns (r: Outcome<Thrown>, ghost everyone: seq<Session>)
      requires Valid()
      modifies this
      ensures broken == old(broken)
      ensures IsEnumeration(everyone, SessionsOf(old(gameSessions), gameId).Keys)
      ensures (gameSessions, outbox, r) == Appended(old(outbox), ResignOn(old(gameSessions), broken,
        resignGame(Store(), authToken, gameId), session, authToken, gameId, everyone))
    {
      var resigned := resignGame(Store(), authToken, gameId);
      if resigned.Fail? {
        everyone := AnEnumeration(SessionsOf(gameSessions, gameId).Keys);
        r := SendErrorMessage(session, "Error resigning game: " + resigned.error);
        return;
      }
      var notified := NotifyAllPlayers(gameId, authToken + " has resigned from the game.");
      everyone := notified;
      r := Pass;
    }

    /** onMessage: dispatch on the command type; whatever escapes is reported to the sender. */
    method OnMessage(session: Session, inbound: Inbound) returns (ghost others: seq<Session>, ghost everyone: seq<Session>)
      requires Valid()
      modifies this, gameService.dataAccess
      ensures Valid() && broken == old(broken)
      ensures Store() == StoreAfter(Environment(), old(Store()), inbound)
      ensures inbound.Command? ==>
        IsEnumeration(others, SessionsOf(old(gameSessions), inbound.gameID).Keys - {session}) &&
        IsEnumeration(everyone, SessionsOf(old(gameSessions), inbound.gameID).Keys)
      ensures (gameSessions, outbox) ==
        (OnMessageOn(Environment(), old(gameSessions), broken, old(Store()), session, inbound, others, everyone).0,
         old(outbox) + OnMessageOn(Environment(), old(gameSessions), broken, old(Store()), session, inbound, others, everyone).1)
    {
      var r: Outcome<Thrown>;
      others, everyone := [], [];
      if inbound.Malformed? {
        r := Fail(Thrown(inbound.reason));
      } else {
        r, others, everyone := Dispatch(session, inbound);
      }
      ghost var handled := outbox;
      if r.Fail? {
        var _ := SendErrorMessage(session, "Error processing message: " + r.error.message);
      }
      assert outbox == old(outbox) + (handled[|old(outbox)|..] + outbox[|handled|..]);
    }

    /** onMessage's switch on the command type. */
    method Dispatch(session: Session, cmd: Inbound) returns (r: Outcome<Thrown>, ghost others: seq<Session>, ghost everyone: seq<Session>)
      requires Valid() && cmd.Command?
      modifies this, gameService.dataAccess
      ensures Valid() && broken == old(broken)
      ensures Store() == StoreAfter(Environment(), old(Store()), cmd)
      ensures IsEnumeration(others, SessionsOf(old(gameSessions), cmd.gameID).Keys - {session})
      ensures IsEnumeration(everyone, SessionsOf(old(gameSessions), cmd.gameID).Keys)
      ensures (gameSessions, outbox, r) ==
        Appended(old(outbox), CommandOn(Environment(), old(gameSessions), broken, old(Store()), session, cmd, others, everyone))
    {
      var authToken, gameId, move := cmd.authToken, cmd.gameID, cmd.move;
      others := AnEnumeration(SessionsOf(gameSessions, gameId).Keys - {session});
      everyone := AnEnumeration(SessionsOf(gameSessions, gameId).Keys);
      match cmd.commandType {
        case CONNECT =>
          r, others := HandleConnect(session, authToken, gameId);
        case MAKE_MOVE =>
          if move.Failure? {
            r := Fail(Thrown(move.error));
            assert outbox == old(outbox) + [];
          } else {
            r, others, everyone := HandleMakeMove(session, authToken, gameId, move.value);
          }
        case LEAVE =>
          r, others := HandleLeave(session, authToken, gameId);
        case RESIGN =>
          r, everyone := HandleResign(session, authToken, gameId);
      }
    }

    /** onClose: the session leaves the first game found holding it, and that game's other players are told. */
    method OnClose(session: Session) returns (ghost closed: Option<int32>, ghost others: seq<Session>)
      modifies this
      ensures broken == old(broken)
      ensures closed.None? <==> forall g | g in old(gameSessions) :: session !in old(gameSessions)[g]
      ensures closed.None? ==> gameSessions == old(gameSessions) && outbox == old(outbox)
      ensures closed.Some? ==>
        closed.value in old(gameSessions) && session in old(gameSessions)[closed.value] &&
        IsEnumeration(others, old(gameSessions)[closed.value].Keys - {session}) &&
        (gameSessions, outbox) ==
          (CloseOn(old(gameSessions), broken, session, closed.value, others).0,
           old(outbox) + CloseOn(old(gameSessions), broken, session, closed.value, others).1)
    {
      if g :| g in gameSessions && session in gameSessions[g] {
        var authToken := gameSessions[g][session];
        ghost var reg := gameSessions;
        gameSessions := gameSessions[g := gameSessions[g] - {session}];
        assert SessionsOf(gameSessions, g).Keys - {session} == reg[g].Keys - {session};
        var notified := NotifyOtherPlayers(g, session, authToken + " has left the game.");
        return Some(g), notified;
      }
      return None, [];
    }
  }
}
