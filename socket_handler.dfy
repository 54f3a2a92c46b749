/** The real-time chat channel (src/sockets/socketHandler.ts): the
    send_message, get_history and clear_session handlers of one connection.
    Each handler returns the ordered steps it takes, including every event it
    emits. The reply is streamed one UTF-16 code unit per event, as
    `split("")` splits it, so a character outside the Basic Multilingual Plane
    takes two events. The 20 ms pause between events is not modelled. */
module SocketHandler {
  import opened Base
  import opened Strings
  import opened Messages
  import opened ChatService
  import opened RagQuery
  import opened ChatController

  datatype Event =
    | BotTyping(sessionId: string, status: bool)
    | BotReply(sessionId: string, ch: CodeUnit)
    | ChatHistory(sessionId: string, history: seq<Message>)
    | BotDone(sessionId: string, status: bool)
    | ChatCleared(sessionId: string)

  /** A store or pipeline action, shared with the HTTP handlers, or an emitted event. */
  datatype Step = Do(action: Action) | Emit(event: Event)

  /** The events among the steps, in order. */
  function Emitted(steps: seq<Step>): (events: seq<Event>)
    ensures |events| <= |steps|
    decreases |steps|
  {
    if |steps| == 0 then []
    else (if steps[0].Emit? then [steps[0].event] else []) + Emitted(steps[1..])
  }

  lemma {:induction false} EmittedAppend(a: seq<Step>, b: seq<Step>)
    ensures Emitted(a + b) == Emitted(a) + Emitted(b)
    decreases |a|
  {
    if |a| == 0 {
      assert a + b == b;
    } else {
      assert (a + b)[0] == a[0];
      assert (a + b)[1..] == a[1..] + b;
      EmittedAppend(a[1..], b);
    }
  }

  lemma EmittedCons(s: Step, rest: seq<Step>)
    ensures Emitted([s] + rest) == (if s.Emit? then [s.event] else []) + Emitted(rest)
  {
    assert ([s] + rest)[1..] == rest;
  }

  /** The code units carried by the bot_reply events, concatenated. */
  function StreamedUnits(events: seq<Event>): seq<CodeUnit>
    decreases |events|
  {
    if |events| == 0 then []
    else (if events[0].BotReply? then [events[0].ch] else []) + StreamedUnits(events[1..])
  }

  /** One bot_reply step per code unit, in order. */
  function ReplySteps(sid: string, units: seq<CodeUnit>): (steps: seq<Step>)
    ensures |steps| == |units| && forall i :: 0 <= i < |units| ==> steps[i] == Emit(BotReply(sid, units[i]))
  {
    seq(|units|, i requires 0 <= i < |units| => Emit(BotReply(sid, units[i])))
  }

  /** The bot_reply events for a run of code units, in order. */
  function ReplyEvents(sid: string, units: seq<CodeUnit>): (events: seq<Event>)
    ensures |events| == |units| && forall i :: 0 <= i < |units| ==> events[i] == BotReply(sid, units[i])
  {
    seq(|units|, i requires 0 <= i < |units| => BotReply(sid, units[i]))
  }

  /** Streaming emits nothing but the bot_reply events. */
  lemma {:induction false} EmittedReplies(sid: string, units: seq<CodeUnit>)
    ensures Emitted(ReplySteps(sid, units)) == ReplyEvents(sid, units)
    decreases |units|
  {
    var steps := ReplySteps(sid, units);
    if |units| == 0 {
      assert steps == [];
    } else {
      EmittedReplies(sid, units[1..]);
      assert steps[0] == Emit(BotReply(sid, units[0]));
      assert steps[1..] == ReplySteps(sid, units[1..]);
      assert ReplyEvents(sid, units) == [BotReply(sid, units[0])] + ReplyEvents(sid, units[1..]);
    }
  }

  /** The code units of the bot_reply events, concatenated, are the units streamed. */
  lemma {:induction false} StreamedReplies(sid: string, units: seq<CodeUnit>)
    ensures StreamedUnits(ReplyEvents(sid, units)) == units
    decreases |units|
  {
    if |units| > 0 {
      StreamedReplies(sid, units[1..]);
      assert ReplyEvents(sid, units)[1..] == ReplyEvents(sid, units[1..]);
      assert [units[0]] + units[1..] == units;
    }
  }

  /** A client that concatenates the streamed pieces of a reply gets the reply back. */
  lemma StreamedReplyReassembles(sid: string, reply: string)
    ensures FromUtf16(StreamedUnits(Emitted(ReplySteps(sid, Utf16(reply))))) == Some(reply)
  {
    EmittedReplies(sid, Utf16(reply));
    StreamedReplies(sid, Utf16(reply));
    Utf16RoundTrip(reply);
  }

  /** The `for` loop over `replyText.split("")`. */
  method StreamReply(sid: string, text: string) returns (steps: seq<Step>)
    ensures steps == ReplySteps(sid, Utf16(text))
  {
    var units := Utf16(text);
    steps := [];
    var i := 0;
    while i < |units|
      invariant 0 <= i <= |units|
      invariant steps == ReplySteps(sid, units[..i])
    {
      steps := steps + [Emit(BotReply(sid, units[i]))];
      i := i + 1;
    }
    assert units[..i] == units;
  }

  /** The steps of a send_message turn that gets past validation. */
  function TurnSteps(sid: string, text: string, reply: string, history: seq<Message>): (steps: seq<Step>)
    ensures |steps| == |Utf16(reply)| + 7
    ensures steps[0] == Do(Append(sid, Message(User, text))) && steps[2] == Do(Ask(text))
    ensures steps[3..3 + |Utf16(reply)|] == ReplySteps(sid, Utf16(reply))
    ensures steps[|steps| - 1] == Emit(BotDone(sid, false))
  {
    [Do(Append(sid, Message(User, text))), Emit(BotTyping(sid, true)), Do(Ask(text))] +
    ReplySteps(sid, Utf16(reply)) +
    [Do(Append(sid, Message(Bot, reply))), Do(ReadHistory(sid)), Emit(ChatHistory(sid, history)), Emit(BotDone(sid, false))]
  }

  /** The turn's steps, in the order the handler takes them. */
  lemma TurnStepsShape(sid: string, text: string, reply: string, history: seq<Message>)
    ensures [Do(Append(sid, Message(User, text))), Emit(BotTyping(sid, true))] + [Do(Ask(text))] +
      ReplySteps(sid, Utf16(reply)) +
      [Do(Append(sid, Message(Bot, reply))), Do(ReadHistory(sid)), Emit(ChatHistory(sid, history)), Emit(BotDone(sid, false))]
      == TurnSteps(sid, text, reply, history)
  {
  }

  /** A turn emits bot_typing, one bot_reply per reply code unit, chat_history
      and bot_done, in that order, and the bot_reply events carry exactly the
      code units of the reply. */
  lemma TurnOrder(sid: string, text: string, reply: string, history: seq<Message>)
    ensures Emitted(TurnSteps(sid, text, reply, history)) ==
      [BotTyping(sid, true)] + Emitted(ReplySteps(sid, Utf16(reply))) + [ChatHistory(sid, history), BotDone(sid, false)]
    ensures StreamedUnits(Emitted(ReplySteps(sid, Utf16(reply)))) == Utf16(reply)
  {
    var replies := ReplySteps(sid, Utf16(reply));
    var head := [Do(Append(sid, Message(User, text))), Emit(BotTyping(sid, true)), Do(Ask(text))];
    var tail := [Do(Append(sid, Message(Bot, reply))), Do(ReadHistory(sid)), Emit(ChatHistory(sid, history)), Emit(BotDone(sid, false))];
    assert TurnSteps(sid, text, reply, history) == head + replies + tail;
    EmittedAppend(head + replies, tail);
    EmittedAppend(head, replies);
    assert Emitted(head) == [BotTyping(sid, true)] by {
      EmittedCons(Do(Ask(text)), []);
      EmittedCons(Emit(BotTyping(sid, true)), [Do(Ask(text))]);
      EmittedCons(Do(Append(sid, Message(User, text))), [Emit(BotTyping(sid, true)), Do(Ask(text))]);
    }
    assert Emitted(tail) == [ChatHistory(sid, history), BotDone(sid, false)] by {
      EmittedCons(Emit(BotDone(sid, false)), []);
      EmittedCons(Emit(ChatHistory(sid, history)), [Emit(BotDone(sid, false))]);
      EmittedCons(Do(ReadHistory(sid)), [Emit(ChatHistory(sid, history)), Emit(BotDone(sid, false))]);
      EmittedCons(Do(Append(sid, Message(Bot, reply))), [Do(ReadHistory(sid)), Emit(ChatHistory(sid, history)), Emit(BotDone(sid, false))]);
    }
    EmittedReplies(sid, Utf16(reply));
    StreamedReplies(sid, Utf16(reply));
  }

  /** The user message is stored first, before anything is emitted; the bot
      message is stored right after the last reply code unit, and no other
      message is stored; only the history read and events follow it. */
  lemma TurnStoreOrder(sid: string, text: string, reply: string, history: seq<Message>)
    ensures var steps, n := TurnSteps(sid, text, reply, history), |Utf16(reply)|;
      steps[0] == Do(Append(sid, Message(User, text))) &&
      steps[n + 3] == Do(Append(sid, Message(Bot, reply))) &&
      (forall i :: 0 < i < n + 3 ==> !(steps[i].Do? && steps[i].action.Append?)) &&
      (forall i :: n + 3 < i < |steps| ==> steps[i].Emit? || steps[i] == Do(ReadHistory(sid)))
  {
    var steps, n := TurnSteps(sid, text, reply, history), |Utf16(reply)|;
    var replies := ReplySteps(sid, Utf16(reply));
    forall i | 3 <= i < n + 3 ensures steps[i] == replies[i - 3] {
      assert steps[3..3 + n][i - 3] == steps[i];
    }
  }

  /** The send_message payload; its fields may be missing. */
  datatype SendPayload = SendPayload(sessionId: Option<string>, message: Option<string>)

  /** send_message: a missing payload (`undefined` or `null`) makes the
      destructuring before the `try` throw, so the listener's promise is
      rejected with nothing emitted and nothing stored; `rejected` reports it.
      Otherwise ignore a missing or empty id or message; else store the user
      message, signal typing, compute the reply, stream it, store the bot
      message, read and send the history, signal done. */
  method SendMessage(chat: Service, data: Option<SendPayload>, now: int, svc: Services,
                     userFault: Fault, botFault: Fault, readFault: Fault)
    returns (steps: seq<Step>, rejected: bool)
    modifies chat.store
    ensures rejected <==> data.None?
    ensures data.None? || Falsy(data.value.sessionId) || Falsy(data.value.message) ==>
      steps == [] && chat.store.State() == old(chat.store.State())
    ensures data.Some? && !Falsy(data.value.sessionId) && !Falsy(data.value.message) ==>
      var sid, text := data.value.sessionId.value, data.value.message.value;
      var reply := QueryArticles(text, DEFAULT_TOP_K, svc);
      var db1 := HandleMessageSpec(old(chat.store.State()), sid, Message(User, text), now, chat.ttlSeconds, userFault);
      var db2 := HandleMessageSpec(db1, sid, Message(Bot, reply), now, chat.ttlSeconds, botFault);
      chat.store.State() == db2 &&
      steps == TurnSteps(sid, text, reply, HistorySpec(db2, sid, now, readFault))
  {
    if data.None? {
      return [], true;
    }
    rejected := false;
    var sessionId, message := data.value.sessionId, data.value.message;
    if Falsy(sessionId) || Falsy(message) {
      return [], false;
    }
    var sid, text := sessionId.value, message.value;
    chat.HandleMessage(sid, Message(User, text), now, userFault);
    var opening := [Do(Append(sid, Message(User, text))), Emit(BotTyping(sid, true))];
    var reply := QueryArticles(text, DEFAULT_TOP_K, svc);
    var streamed := StreamReply(sid, reply);
    chat.HandleMessage(sid, Message(Bot, reply), now, botFault);
    var history := chat.GetHistory(sid, now, readFault);
    steps := opening + [Do(Ask(text))] + streamed +
      [Do(Append(sid, Message(Bot, reply))), Do(ReadHistory(sid)), Emit(ChatHistory(sid, history)), Emit(BotDone(sid, false))];
    TurnStepsShape(sid, text, reply, history);
  }

  /** get_history: ignore an empty id; otherwise read and send the history. */
  method GetHistory(chat: Service, sessionId: Option<string>, now: int, fault: Fault) returns (steps: seq<Step>)
    ensures Falsy(sessionId) ==> steps == []
    ensures !Falsy(sessionId) ==>
      steps == [Do(ReadHistory(sessionId.value)),
                Emit(ChatHistory(sessionId.value, HistorySpec(chat.store.State(), sessionId.value, now, fault)))]
  {
    if Falsy(sessionId) {
      return [];
    }
    var history := chat.GetHistory(sessionId.value, now, fault);
    steps := [Do(ReadHistory(sessionId.value)), Emit(ChatHistory(sessionId.value, history))];
  }

  /** clear_session: ignore an empty id; otherwise clear, then send
      chat_cleared (also when the clear failed inside the store, whose
      errors clearSession swallows). */
  method ClearSession(chat: Service, sessionId: Option<string>, fault: Fault) returns (steps: seq<Step>)
    modifies chat.store
    ensures Falsy(sessionId) ==> steps == [] && chat.store.State() == old(chat.store.State())
    ensures !Falsy(sessionId) ==>
      steps == [Do(Clear(sessionId.value)), Emit(ChatCleared(sessionId.value))] &&
      chat.store.State() == ClearSpec(old(chat.store.State()), sessionId.value, fault)
  {
    if Falsy(sessionId) {
      return [];
    }
    chat.ClearSession(sessionId.value, fault);
    steps := [Do(Clear(sessionId.value)), Emit(ChatCleared(sessionId.value))];
  }
}
