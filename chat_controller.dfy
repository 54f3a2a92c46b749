/** The HTTP chat endpoints (src/controllers/chatController.ts) over the
    session store and the answer pipeline. Each handler returns the response
    it writes and the ordered steps it takes against the store and the
    answer pipeline. */
module ChatController {
  import opened Base
  import opened Messages
  import opened Redis
  import opened ChatService
  import opened RagQuery

  /** The fields of the JSON request body; each may be missing. A handler
      receives `None` when `req.body` itself is undefined, as the JSON body
      parser leaves it for a request without a JSON body. */
  datatype Body = Body(sessionId: Option<string>, message: Option<string>)

  /** The answer of every handler's catch clause. */
  const SERVER_ERROR := Response(500, Error("Server error"))

  datatype Payload =
    | Error(error: string)
    | Reply(reply: string, sessionId: string, history: seq<Message>)
    | Cleared
    | SessionHistory(echoedId: Option<string>, history: seq<Message>)

  datatype Response = Response(status: int, payload: Payload)

  /** What a handler does against the session store and the answer pipeline, in order. */
  datatype Action = Append(sid: string, msg: Message) | Ask(question: string) | ReadHistory(sid: string) | Clear(sid: string)

  /** Which Redis call fails in each store operation of one turn. */
  datatype TurnFaults = TurnFaults(userAppend: Fault, botAppend: Fault, read: Fault)

  const NoFaults := TurnFaults(NoFault, NoFault, NoFault)

  /** The store after the two appends of one turn. */
  function AfterTurn(db: Db, sid: string, user: Message, bot: Message, now: int, ttl: int, faults: TurnFaults): Db
  {
    HandleMessageSpec(HandleMessageSpec(db, sid, user, now, ttl, faults.userAppend), sid, bot, now, ttl, faults.botAppend)
  }

  /** With no failure, the history read at the end of a turn is the earlier
      live history followed by the user message and then the bot message. */
  lemma TurnHistory(db: Db, sid: string, user: Message, bot: Message, now: int, ttl: int)
    requires ttl > 0
    ensures HistorySpec(AfterTurn(db, sid, user, bot, now, ttl, NoFaults), sid, now, NoFault) == ListAt(db, sid, now) + [user, bot]
  {
    var db1 := HandleMessageSpec(db, sid, user, now, ttl, NoFault);
    HandleMessageAppends(db, sid, user, now, ttl);
    HandleMessageAppends(db1, sid, bot, now, ttl);
  }

  /** sendMessage: validate, store the user message, compute the reply, store
      the bot message, read the history, respond. */
  method SendMessage(chat: Service, request: Option<Body>, now: int, svc: Services, faults: TurnFaults)
    returns (res: Response, steps: seq<Action>)
    modifies chat.store
    ensures request.None? ==> res == SERVER_ERROR && steps == [] && chat.store.State() == old(chat.store.State())
    ensures request.Some? ==> var body := request.value;
      Falsy(body.sessionId) || Falsy(body.message) ==>
      res == Response(400, Error("sessionId and message are required")) && steps == [] &&
      chat.store.State() == old(chat.store.State())
    ensures request.Some? && !Falsy(request.value.sessionId) && !Falsy(request.value.message) ==>
      var sid, text := request.value.sessionId.value, request.value.message.value;
      var reply := QueryArticles(text, DEFAULT_TOP_K, svc);
      var user, bot := Message(User, text), Message(Bot, reply);
      var db' := AfterTurn(old(chat.store.State()), sid, user, bot, now, chat.ttlSeconds, faults);
      steps == [Append(sid, user), Ask(text), Append(sid, bot), ReadHistory(sid)] &&
      chat.store.State() == db' &&
      res == Response(200, Reply(reply, sid, HistorySpec(db', sid, now, faults.read)))
    ensures request.Some? && !Falsy(request.value.sessionId) && !Falsy(request.value.message) &&
            faults == NoFaults && chat.ttlSeconds > 0 ==>
      res.payload.history == ListAt(old(chat.store.State()), request.value.sessionId.value, now) +
        [Message(User, request.value.message.value), Message(Bot, QueryArticles(request.value.message.value, DEFAULT_TOP_K, svc))]
  {
    if request.None? {
      return SERVER_ERROR, [];
    }
    var body := request.value;
    if Falsy(body.sessionId) || Falsy(body.message) {
      return Response(400, Error("sessionId and message are required")), [];
    }
    var sid, text := body.sessionId.value, body.message.value;
    var user := Message(User, text);
    chat.HandleMessage(sid, user, now, faults.userAppend);
    steps := [Append(sid, user)];
    var reply := QueryArticles(text, DEFAULT_TOP_K, svc);
    steps := steps + [Ask(text)];
    var bot := Message(Bot, if reply != "" then reply else "");
    chat.HandleMessage(sid, bot, now, faults.botAppend);
    steps := steps + [Append(sid, bot)];
    var history := chat.GetHistory(sid, now, faults.read);
    steps := steps + [ReadHistory(sid)];
    if faults == NoFaults && chat.ttlSeconds > 0 {
      TurnHistory(old(chat.store.State()), sid, user, bot, now, chat.ttlSeconds);
    }
    res := Response(200, Reply(reply, sid, history));
  }

  /** clearSession: validate, clear, acknowledge. */
  method ClearSession(chat: Service, request: Option<Body>, fault: Fault) returns (res: Response, steps: seq<Action>)
    modifies chat.store
    ensures request.None? ==> res == SERVER_ERROR && steps == [] && chat.store.State() == old(chat.store.State())
    ensures request.Some? && Falsy(request.value.sessionId) ==>
      res == Response(400, Error("sessionId is required")) && steps == [] &&
      chat.store.State() == old(chat.store.State())
    ensures request.Some? && !Falsy(request.value.sessionId) ==>
      res == Response(200, Cleared) && steps == [Clear(request.value.sessionId.value)] &&
      chat.store.State() == ClearSpec(old(chat.store.State()), request.value.sessionId.value, fault)
  {
    if request.None? {
      return SERVER_ERROR, [];
    }
    var body := request.value;
    if Falsy(body.sessionId) {
      return Response(400, Error("sessionId is required")), [];
    }
    chat.ClearSession(body.sessionId.value, fault);
    res, steps := Response(200, Cleared), [Clear(body.sessionId.value)];
  }

  /** The session whose list `chat:${sessionId}` names: a missing id is
      interpolated as the text "undefined". */
  function InterpolatedId(sessionId: Option<string>): (sid: string)
    ensures sessionId.Some? ==> sid == sessionId.value
    ensures sessionId.None? ==> sid == "undefined"
  {
    if sessionId.Some? then sessionId.value else "undefined"
  }

  /** getSessionHistory: no validation; responds with the stored history. */
  method GetSessionHistory(chat: Service, request: Option<Body>, now: int, fault: Fault) returns (res: Response)
    ensures request.None? ==> res == SERVER_ERROR
    ensures request.Some? ==>
      res.status == 200 && res.payload.SessionHistory? && res.payload.echoedId == request.value.sessionId &&
      res.payload.history == HistorySpec(chat.store.State(), InterpolatedId(request.value.sessionId), now, fault)
  {
    if request.None? {
      return SERVER_ERROR;
    }
    var body := request.value;
    var history := chat.GetHistory(InterpolatedId(body.sessionId), now, fault);
    return Response(200, SessionHistory(body.sessionId, history));
  }
}
