/** Who receives what: the recipient properties of the WebSocket handler's effects. */
module WebSocketProperties {
  import opened Wrappers
  import opened JavaInts
  import opened ChessGames
  import opened Records
  import opened MemoryStore
  import opened GameServices
  import opened WebSocketServer

  /** An enumeration of a set has exactly as many elements as the set. */
  lemma {:induction false} EnumerationSize(order: seq<Session>, sessions: set<Session>)
    requires IsEnumeration(order, sessions)
    ensures |order| == |sessions|
    decreases |order|
  {
    if order != [] {
      var s := order[0];
      var rest := order[1..];
      assert forall i, j | 0 <= i < j < |rest| :: rest[i] == order[i + 1] && rest[j] == order[j + 1];
      forall x
        ensures x in rest <==> x in sessions - {s}
      {
        if x in rest {
          var k :| 0 <= k < |rest| && rest[k] == x;
          assert order[k + 1] == x;
        }
        if x in sessions - {s} {
          assert x in order;
          var k :| 0 <= k < |order| && order[k] == x;
          assert k != 0;
          assert rest[k - 1] == x;
        }
      }
      EnumerationSize(rest, sessions - {s});
    }
  }

  /**
   * A broadcast makes one attempt per session of the order, in order; a session receives the
   * message exactly when it is in the order and its send does not fail, so a failed send does
   * not stop the others.
   */
  lemma BroadcastRecipients(order: seq<Session>, broken: map<Session, string>, message: ServerMessage)
    ensures |Broadcast(order, broken, message)| == |order|
    ensures forall i | 0 <= i < |order| :: Broadcast(order, broken, message)[i].to == order[i]
    ensures forall s :: Delivered(s, message) in Broadcast(order, broken, message) <==> s in order && s !in broken
    ensures forall s :: SendFailed(s) in Broadcast(order, broken, message) <==> s in order && s in broken
  {
    var b := Broadcast(order, broken, message);
    forall s
      ensures Delivered(s, message) in b <==> s in order && s !in broken
      ensures SendFailed(s) in b <==> s in order && s in broken
    {
      if s in order {
        var k :| 0 <= k < |order| && order[k] == s;
        assert b[k] == Deliver(s, broken, message);
      }
      if Delivered(s, message) in b {
        var k :| 0 <= k < |b| && b[k] == Delivered(s, message);
        assert order[k] == s;
      }
      if SendFailed(s) in b {
        var k :| 0 <= k < |b| && b[k] == SendFailed(s);
        assert order[k] == s;
      }
    }
  }

  /**
   * notifyOtherPlayers: one attempt for each session registered for the game except the excluded
   * one, and none at all when the game has no entry.
   */
  lemma NotifyOthersRecipients(reg: Registry, gameId: int32, excluded: Session, others: seq<Session>,
                               broken: map<Session, string>, message: ServerMessage)
    requires IsEnumeration(others, SessionsOf(reg, gameId).Keys - {excluded})
    ensures |Broadcast(others, broken, message)| == |SessionsOf(reg, gameId).Keys - {excluded}|
    ensures gameId !in reg ==> Broadcast(others, broken, message) == []
    ensures forall e | e in Broadcast(others, broken, message) :: e.to in SessionsOf(reg, gameId) && e.to != excluded
    ensures forall s | s in SessionsOf(reg, gameId) && s != excluded && s !in broken ::
      Delivered(s, message) in Broadcast(others, broken, message)
  {
    EnumerationSize(others, SessionsOf(reg, gameId).Keys - {excluded});
    BroadcastRecipients(others, broken, message);
    var b := Broadcast(others, broken, message);
    forall e | e in b
      ensures e.to in SessionsOf(reg, gameId) && e.to != excluded
    {
      var k :| 0 <= k < |b| && b[k] == e;
      assert e.to == others[k];
    }
  }

  /** notifyAllPlayers: one attempt for each session registered for the game. */
  lemma NotifyAllRecipients(reg: Registry, gameId: int32, everyone: seq<Session>,
                            broken: map<Session, string>, message: ServerMessage)
    requires IsEnumeration(everyone, SessionsOf(reg, gameId).Keys)
    ensures |Broadcast(everyone, broken, message)| == |SessionsOf(reg, gameId).Keys|
    ensures forall e | e in Broadcast(everyone, broken, message) :: e.to in SessionsOf(reg, gameId)
    ensures forall s | s in SessionsOf(reg, gameId) && s !in broken ::
      Delivered(s, message) in Broadcast(everyone, broken, message)
  {
    EnumerationSize(everyone, SessionsOf(reg, gameId).Keys);
    BroadcastRecipients(everyone, broken, message);
    var b := Broadcast(everyone, broken, message);
    forall e | e in b
      ensures e.to in SessionsOf(reg, gameId)
    {
      var k :| 0 <= k < |b| && b[k] == e;
      assert e.to == everyone[k];
    }
  }

  /**
   * sendGameStateToAll: every send is a LOAD_GAME of the stored game to a session of the order
   * whose token can read it, and every such session that is not broken receives it.
   */
  lemma {:induction false} LoadGameRecipients(order: seq<Session>, tokens: map<Session, string>, store: StoreState,
                                              gameId: int32, broken: map<Session, string>)
    requires forall s | s in order :: s in tokens
    ensures forall e | e in LoadGameEvents(order, tokens, store, gameId, broken) ::
      e.to in order && GetGameStateOn(store, tokens[e.to], gameId).Success? &&
      e == Deliver(e.to, broken, LoadGame(GetGameStateOn(store, tokens[e.to], gameId).value.game))
    ensures forall s | s in order && s !in broken && GetGameStateOn(store, tokens[s], gameId).Success? ::
      Delivered(s, LoadGame(GetGameStateOn(store, tokens[s], gameId).value.game)) in LoadGameEvents(order, tokens, store, gameId, broken)
    decreases |order|
  {
    if order != [] {
      var init := order[..|order| - 1];
      var last := order[|order| - 1];
      assert forall s | s in init :: s in order;
      LoadGameRecipients(init, tokens, store, gameId, broken);
      forall s | s in order
        ensures s in init || s == last
      {
        var k :| 0 <= k < |order| && order[k] == s;
        if k < |order| - 1 {
          assert init[k] == s;
        }
      }
    }
  }

  /**
   * handleConnect: an accepted connect registers the joiner's token under the game, notifies the
   * others first and then sends only to the joiner (LOAD_GAME when it can read the game); a
   * refused one leaves the registry alone and sends only to the joiner, starting with the ERROR.
   */
  lemma ConnectOutcomes(reg: Registry, broken: map<Session, string>, store: StoreState, accepted: bool,
                        session: Session, authToken: string, gameId: int32, others: seq<Session>)
    requires IsEnumeration(others, SessionsOf(reg, gameId).Keys - {session})
    ensures var (reg', ev, _) := ConnectOn(reg, broken, store, accepted, session, authToken, gameId, others);
      accepted ==>
        reg' == reg[gameId := SessionsOf(reg, gameId)[session := authToken]] &&
        |others| < |ev| &&
        ev[..|others|] == Broadcast(others, broken, Notification(authToken + " has joined the game.")) &&
        (forall i | |others| <= i < |ev| :: ev[i].to == session)
    ensures var (reg', ev, r) := ConnectOn(reg, broken, store, accepted, session, authToken, gameId, others);
      accepted && session !in broken && GetGameStateOn(store, authToken, gameId).Success? ==>
        ev[|others|..] == [Delivered(session, LoadGame(GetGameStateOn(store, authToken, gameId).value.game))] && r == Pass
    ensures var (reg', ev, r) := ConnectOn(reg, broken, store, accepted, session, authToken, gameId, others);
      !accepted ==>
        reg' == reg && 0 < |ev| && (forall e | e in ev :: e.to == session) &&
        ev[0] == Deliver(session, broken, ErrorMessage("Invalid game ID or unauthorized")) &&
        (session !in broken ==> |ev| == 1 && r == Pass)
  {
    var (reg', ev, r) := ConnectOn(reg, broken, store, accepted, session, authToken, gameId, others);
    var notes := Broadcast(others, broken, Notification(authToken + " has joined the game."));
    if accepted {
      var tail := ev[|notes|..];
      assert ev == notes + tail;
      assert ev[..|others|] == notes;
      forall i | |others| <= i < |ev|
        ensures ev[i].to == session
      {
        assert ev[i] == tail[i - |notes|];
      }
    }
  }

  /**
   * handleMakeMove: a rejected move leaves the registry alone and sends one message, to the mover
   * only; an accepted one notifies the others and then sends LOAD_GAME of the new state to every
   * registered session that can read the game.
   */
  lemma MoveOutcomes(reg: Registry, broken: map<Session, string>, store': StoreState, result: Outcome<MoveFailure>,
                     nullPointerMessage: NullSite -> string, session: Session, authToken: string, gameId: int32,
                     others: seq<Session>, everyone: seq<Session>)
    requires IsEnumeration(others, SessionsOf(reg, gameId).Keys - {session})
    requires IsEnumeration(everyone, SessionsOf(reg, gameId).Keys)
    ensures var (reg', ev, _) := MakeMoveEffectOn(reg, broken, store', result, nullPointerMessage, session, authToken, gameId, others, everyone);
      reg' == reg
    ensures var (_, ev, _) := MakeMoveEffectOn(reg, broken, store', result, nullPointerMessage, session, authToken, gameId, others, everyone);
      result.Fail? ==>
        ev == [Deliver(session, broken, ErrorMessage("Error making move: " + FailureMessage(result.error, nullPointerMessage)))]
    ensures var (_, ev, r) := MakeMoveEffectOn(reg, broken, store', result, nullPointerMessage, session, authToken, gameId, others, everyone);
      result.Pass? && gameId in reg ==>
        r == Pass &&
        ev[..|others|] == Broadcast(others, broken, Notification(authToken + " made a move.")) &&
        (forall e | e in ev[|others|..] :: e.to in reg[gameId] && (e.Delivered? ==> e.message.LoadGame?)) &&
        (forall s | s in reg[gameId] && s !in broken && GetGameStateOn(store', reg[gameId][s], gameId).Success? ::
          Delivered(s, LoadGame(GetGameStateOn(store', reg[gameId][s], gameId).value.game)) in ev[|others|..])
  {
    if result.Pass? && gameId in reg {
      var notes := Broadcast(others, broken, Notification(authToken + " made a move."));
      var loads := LoadGameEvents(everyone, reg[gameId], store', gameId, broken);
      var ev := MakeMoveEffectOn(reg, broken, store', result, nullPointerMessage, session, authToken, gameId, others, everyone).1;
      assert ev == notes + loads;
      assert ev[..|others|] == notes && ev[|others|..] == loads;
      LoadGameRecipients(everyone, reg[gameId], store', gameId, broken);
      forall e | e in loads
        ensures e.to in reg[gameId] && (e.Delivered? ==> e.message.LoadGame?)
      {
      }
    }
  }

  /**
   * handleLeave: the session leaves that game's map only and is not among the recipients; a game
   * without an entry throws and sends nothing itself.
   */
  lemma LeaveOutcomes(reg: Registry, broken: map<Session, string>, nullPointerMessage: NullSite -> string,
                      session: Session, authToken: string, gameId: int32, others: seq<Session>)
    requires IsEnumeration(others, SessionsOf(reg, gameId).Keys - {session})
    ensures var (reg', ev, r) := LeaveOn(reg, broken, nullPointerMessage, session, authToken, gameId, others);
      gameId !in reg ==> reg' == reg && ev == [] && r == Fail(Thrown(nullPointerMessage(LeaveUnknownGame)))
    ensures var (reg', ev, r) := LeaveOn(reg, broken, nullPointerMessage, session, authToken, gameId, others);
      gameId in reg ==>
        r == Pass && reg'.Keys == reg.Keys && session !in reg'[gameId] &&
        (forall g | g in reg && g != gameId :: reg'[g] == reg[g]) &&
        (forall s | s in reg[gameId] && s != session :: s in reg'[gameId] && reg'[gameId][s] == reg[gameId][s]) &&
        (forall e | e in ev :: e.to in reg'[gameId])
  {
    if gameId in reg {
      NotifyOthersRecipients(reg, gameId, session, others, broken, Notification(authToken + " has left the game."));
    }
  }

  /** onClose: the session leaves the one game chosen and no other, and is not among the recipients. */
  lemma CloseOutcomes(reg: Registry, broken: map<Session, string>, session: Session, gameId: int32, others: seq<Session>)
    requires gameId in reg && session in reg[gameId]
    requires IsEnumeration(others, reg[gameId].Keys - {session})
    ensures var (reg', ev) := CloseOn(reg, broken, session, gameId, others);
      reg'.Keys == reg.Keys && reg'[gameId].Keys == reg[gameId].Keys - {session} &&
      (forall g | g in reg && g != gameId :: reg'[g] == reg[g]) &&
      |ev| == |reg'[gameId]| &&
      (forall e | e in ev :: e.to in reg'[gameId] && (e.Delivered? ==> e.message == Notification(reg[gameId][session] + " has left the game.")))
  {
    var message := Notification(reg[gameId][session] + " has left the game.");
    NotifyOthersRecipients(reg, gameId, session, others, broken, message);
    var ev := Broadcast(others, broken, message);
    forall e | e in ev
      ensures e.Delivered? ==> e.message == message
    {
      var k :| 0 <= k < |ev| && ev[k] == e;
    }
  }

  /** onMessage: a text that is not a command, or names no known command type, gets one ERROR back to its sender and nothing else. */
  lemma MalformedOnlyTellsSender(env: Env, reg: Registry, broken: map<Session, string>, store: StoreState,
                                 session: Session, reason: string, others: seq<Session>, everyone: seq<Session>)
    ensures OnMessageOn(env, reg, broken, store, session, Malformed(reason), others, everyone) ==
      (reg, [Deliver(session, broken, ErrorMessage("Error processing message: " + reason))])
    ensures StoreAfter(env, store, Malformed(reason)) == store
  {
    var ev := ErrorTo(session, broken, "Error processing message: " + reason).0;
    assert [] + ev == ev;
  }
}
