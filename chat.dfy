/**
 * The chat half of the recommendation service: the context window sent to the
 * completion endpoint, and what `CreateChatSession`, `SendChatMessage` and
 * `GetChatMessages` do to the session store, the message store and the
 * in-memory cache of working sets.
 */
module Chat {
  import opened Wrappers
  import opened Uuids
  import opened Models
  import opened Completion

  /** At most this many stored turns go into a request. */
  const ContextLimit: nat := 10

  const ChatTitle := "Разговор о растениях"
  const SystemPrompt: string :=
    "Ты - эксперт по растениям. " + "Помогай пользователям с "
    + "вопросами о выращивании, уходе " + "и выборе растений. "
    + "Отвечай на русском языке."
  const SystemMessage := Message(SystemRole, SystemPrompt)

  const CreateSessionError := "failed to create chat session"
  const GetSessionError := "failed to get chat session"
  const NotOwnerError := "user does not own this chat session"
  const SaveUserMessageError := "failed to save user message"
  const GetMessagesError := "failed to get chat messages"
  const CallError := "failed to call Yandex GPT API"
  const SaveAssistantMessageError := "failed to save assistant message"
  const TouchSessionError := "failed to update chat session last used"

  /**
   * The state the chat operations touch: the persisted sessions and messages
   * (messages in the order they were saved) and the `chatSessions` cache.
   */
  datatype ChatStore = ChatStore(
    sessions: map<Uuid, ChatSession>,
    messages: seq<ChatMessage>,
    cache: map<Uuid, seq<Message>>)

  /** Which repository calls fail during one `SendChatMessage`. */
  datatype ChatFaults = ChatFaults(
    sessionRead: bool,
    saveUser: bool,
    messagesRead: bool,
    saveAssistant: bool,
    touch: bool)

  /** The stored messages of one session, in the order they were saved. */
  function OfSession(msgs: seq<ChatMessage>, sid: Uuid): (r: seq<ChatMessage>)
    ensures |r| <= |msgs|
    ensures forall m :: m in r <==> m in msgs && m.sessionId == sid
    decreases |msgs|
  {
    if msgs == [] then []
    else
      var init := msgs[..|msgs| - 1];
      var last := msgs[|msgs| - 1];
      assert msgs == init + [last];
      OfSession(init, sid) + (if last.sessionId == sid then [last] else [])
  }

  /** Saving a message extends its session's history by that message and leaves the others alone. */
  lemma OfSessionAppend(msgs: seq<ChatMessage>, m: ChatMessage, sid: Uuid)
    ensures OfSession(msgs + [m], sid) == OfSession(msgs, sid) + (if m.sessionId == sid then [m] else [])
  {
    assert (msgs + [m])[..|msgs|] == msgs;
  }

  /** The last at most `ContextLimit` stored turns. */
  function Window(db: seq<ChatMessage>): (w: seq<ChatMessage>)
    ensures |w| == if |db| > ContextLimit then ContextLimit else |db|
    ensures w == db[|db| - |w|..]
  {
    if |db| > ContextLimit then db[|db| - ContextLimit..] else db
  }

  function AsMessage(m: ChatMessage): Message
  {
    Message(m.role, m.content)
  }

  /** The cached working set, or a fresh system message when the session has none. */
  function Base(cached: Option<seq<Message>>): seq<Message>
  {
    if cached.Some? then cached.value else [SystemMessage]
  }

  function CachedFor(cache: map<Uuid, seq<Message>>, sid: Uuid): Option<seq<Message>>
  {
    if sid in cache then Some(cache[sid]) else None
  }

  /** The messages sent for a turn: the base, the stored window, then the new user text. */
  function Context(cached: Option<seq<Message>>, db: seq<ChatMessage>, text: string): seq<Message>
  {
    var w := Window(db);
    Base(cached) + seq(|w|, i requires 0 <= i < |w| => AsMessage(w[i])) + [Message(UserRole, text)]
  }

  /** The list-building loop of `SendChatMessage`. */
  method BuildContext(cached: Option<seq<Message>>, db: seq<ChatMessage>, text: string) returns (messages: seq<Message>)
    ensures messages == Context(cached, db, text)
  {
    if cached.Some? {
      messages := cached.value;
    } else {
      messages := [SystemMessage];
    }
    var startIdx := 0;
    if |db| > ContextLimit {
      startIdx := |db| - ContextLimit;
    }
    ghost var w := Window(db);
    var i := startIdx;
    while i < |db|
      invariant startIdx <= i <= |db|
      invariant messages == Base(cached) + seq(i - startIdx, k requires 0 <= k < i - startIdx => AsMessage(w[k]))
    {
      messages := messages + [AsMessage(db[i])];
      i := i + 1;
    }
    messages := messages + [Message(UserRole, text)];
  }

  /** The shape of the context: base first, then the window in order, then the user text. */
  lemma ContextShape(cached: Option<seq<Message>>, db: seq<ChatMessage>, text: string)
    ensures var c := Context(cached, db, text);
            var b := |Base(cached)|;
            var n := if |db| > ContextLimit then ContextLimit else |db|;
            |c| == b + n + 1
            && c[..b] == Base(cached)
            && (forall j :: b <= j < b + n ==> c[j] == AsMessage(db[|db| - n + (j - b)]))
            && c[|c| - 1] == Message(UserRole, text)
  {
    var c := Context(cached, db, text);
    var b := |Base(cached)|;
    var w := Window(db);
    var middle := seq(|w|, i requires 0 <= i < |w| => AsMessage(w[i]));
    assert c == Base(cached) + middle + [Message(UserRole, text)];
    assert c[..b] == Base(cached);
    forall j | b <= j < b + |w|
      ensures c[j] == AsMessage(db[|db| - |w| + (j - b)])
    {
      assert c[j] == middle[j - b];
    }
  }

  /** The user message after a save and before the reply. */
  function UserMessage(sid: Uuid, userId: Uuid, text: string, id: Uuid, now: int): ChatMessage
  {
    ChatMessage(id, sid, userId, UserRole, text, now)
  }

  /** The context `SendChatMessage` sends: the history is read after the new user message is saved. */
  function SentContext(st: ChatStore, sid: Uuid, userId: Uuid, text: string, userMessageId: Uuid, now: int): seq<Message>
  {
    var history := OfSession(st.messages + [UserMessage(sid, userId, text, userMessageId, now)], sid);
    Context(CachedFor(st.cache, sid), history, text)
  }

  /** The outcome of one operation: the new store and the result. */
  datatype Outcome<T> = Outcome(store: ChatStore, result: Result<T, string>)

  /** `CreateChatSession`: a new session with the fixed title, its cache seeded with the system message. */
  function Create(st: ChatStore, userId: Uuid, id: Uuid, now: int, fails: bool): (o: Outcome<ChatSession>)
    ensures o.result.Ok? <==> !fails
    ensures o.result.Err? ==> o.store == st
    ensures o.result.Ok? ==> o.result.value.userId == userId && o.result.value.title == ChatTitle
                             && o.store.sessions == st.sessions[id := o.result.value] && o.store.messages == st.messages
  {
    if fails then Outcome(st, Err(CreateSessionError))
    else
      var session := ChatSession(id, userId, ChatTitle, now, now);
      Outcome(st.(sessions := st.sessions[id := session], cache := st.cache[id := [SystemMessage]]), Ok(session))
  }

  /** `SendChatMessage`, step by step, with the repository failures given by `faults`. */
  function Send(st: ChatStore, endpoint: Endpoint, apiKey: string, model: string,
                sid: Uuid, userId: Uuid, text: string,
                userMessageId: Uuid, assistantMessageId: Uuid, now: int, faults: ChatFaults): (o: Outcome<ChatMessage>)
    ensures st.messages <= o.store.messages && |o.store.messages| <= |st.messages| + 2
    ensures o.store.sessions.Keys == st.sessions.Keys
    ensures o.result.Ok? ==> o.result.value.role == AssistantRole && o.result.value.sessionId == sid
                             && o.store.messages == st.messages + [UserMessage(sid, userId, text, userMessageId, now), o.result.value]
  {
    if sid !in st.sessions || faults.sessionRead then Outcome(st, Err(GetSessionError))
    else if st.sessions[sid].userId != userId then Outcome(st, Err(NotOwnerError))
    else if faults.saveUser then Outcome(st, Err(SaveUserMessageError))
    else
      var saved := st.(messages := st.messages + [UserMessage(sid, userId, text, userMessageId, now)]);
      if faults.messagesRead then Outcome(saved, Err(GetMessagesError))
      else
        var context := SentContext(st, sid, userId, text, userMessageId, now);
        match Call(endpoint, apiKey, model, "", context)
        case Err(_) => Outcome(saved, Err(CallError))
        case Ok(answer) =>
          if faults.saveAssistant then Outcome(saved, Err(SaveAssistantMessageError))
          else
            var reply := ChatMessage(assistantMessageId, sid, userId, AssistantRole, answer, now);
            var replied := saved.(messages := saved.messages + [reply],
                                  cache := st.cache[sid := context + [Message(AssistantRole, answer)]]);
            if faults.touch then Outcome(replied, Err(TouchSessionError))
            else Outcome(replied.(sessions := st.sessions[sid := st.sessions[sid].(lastUsed := now)]), Ok(reply))
  }

  /**
   * `GetChatMessages`: the session's history, for its owner only.
   * `messagesReadError` is the message repository's error when its read
   * fails, which is returned as it is, without a prefix.
   */
  function History(st: ChatStore, sid: Uuid, userId: Uuid, sessionReadFails: bool, messagesReadError: Option<string>)
    : (r: Result<seq<ChatMessage>, string>)
    ensures r.Err? ==> r.error == GetSessionError || r.error == NotOwnerError || Some(r.error) == messagesReadError
    ensures r.Ok? ==> r.value == OfSession(st.messages, sid)
  {
    if sid !in st.sessions || sessionReadFails then Err(GetSessionError)
    else if st.sessions[sid].userId != userId then Err(NotOwnerError)
    else if messagesReadError.Some? then Err(messagesReadError.value)
    else Ok(OfSession(st.messages, sid))
  }

  // What the chat operations promise.

  /** A freshly created session starts its first context exactly as a session without a cache entry. */
  lemma CreateSeedsSystemMessage(st: ChatStore, userId: Uuid, id: Uuid, now: int, fails: bool)
    ensures var o := Create(st, userId, id, now, fails);
            o.result.Ok? <==> !fails
    ensures var o := Create(st, userId, id, now, fails);
            o.result.Ok? ==>
            o.result.value.userId == userId && o.result.value.title == ChatTitle
            && Base(CachedFor(o.store.cache, id)) == [SystemMessage] == Base(None)
            && o.store.messages == st.messages
  {
  }

  /** Only the owner gets past the session check, and a refused turn changes nothing. */
  lemma SendChecksOwnerFirst(st: ChatStore, endpoint: Endpoint, apiKey: string, model: string,
                             sid: Uuid, userId: Uuid, text: string,
                             userMessageId: Uuid, assistantMessageId: Uuid, now: int, faults: ChatFaults)
    ensures var o := Send(st, endpoint, apiKey, model, sid, userId, text, userMessageId, assistantMessageId, now, faults);
            o.store != st ==> sid in st.sessions && st.sessions[sid].userId == userId
    ensures var o := Send(st, endpoint, apiKey, model, sid, userId, text, userMessageId, assistantMessageId, now, faults);
            sid in st.sessions && !faults.sessionRead && st.sessions[sid].userId != userId ==>
            o == Outcome(st, Err(NotOwnerError))
  {
  }

  /**
   * The cache changes only when a reply arrived and was saved, and then the
   * session's working set becomes the sent context plus that reply.
   */
  lemma SendUpdatesCacheAfterReply(st: ChatStore, endpoint: Endpoint, apiKey: string, model: string,
                                   sid: Uuid, userId: Uuid, text: string,
                                   userMessageId: Uuid, assistantMessageId: Uuid, now: int, faults: ChatFaults)
    ensures var o := Send(st, endpoint, apiKey, model, sid, userId, text, userMessageId, assistantMessageId, now, faults);
            var context := SentContext(st, sid, userId, text, userMessageId, now);
            var answer := Call(endpoint, apiKey, model, "", context);
            o.store.cache != st.cache ==>
            answer.Ok? && !faults.saveAssistant
            && o.store.cache == st.cache[sid := context + [Message(AssistantRole, answer.value)]]
            && o.store.messages == st.messages + [UserMessage(sid, userId, text, userMessageId, now),
                                                  ChatMessage(assistantMessageId, sid, userId, AssistantRole, answer.value, now)]
    ensures var o := Send(st, endpoint, apiKey, model, sid, userId, text, userMessageId, assistantMessageId, now, faults);
            o.result == Err(CallError) || o.result == Err(SaveAssistantMessageError) ==> o.store.cache == st.cache
  {
  }

  /** A successful turn saved exactly the user message and the reply, for the owner of the session. */
  lemma SendSucceeded(st: ChatStore, endpoint: Endpoint, apiKey: string, model: string,
                      sid: Uuid, userId: Uuid, text: string,
                      userMessageId: Uuid, assistantMessageId: Uuid, now: int, faults: ChatFaults)
    ensures var o := Send(st, endpoint, apiKey, model, sid, userId, text, userMessageId, assistantMessageId, now, faults);
            var answer := Call(endpoint, apiKey, model, "", SentContext(st, sid, userId, text, userMessageId, now));
            o.result.Ok? ==>
            sid in st.sessions && st.sessions[sid].userId == userId
            && answer.Ok?
            && o.result.value == ChatMessage(assistantMessageId, sid, userId, AssistantRole, answer.value, now)
            && o.store.messages == st.messages + [UserMessage(sid, userId, text, userMessageId, now), o.result.value]
            && o.store.sessions == st.sessions[sid := st.sessions[sid].(lastUsed := now)]
  {
  }

  /** Saving two messages in a row. */
  lemma OfSessionAppendTwo(msgs: seq<ChatMessage>, a: ChatMessage, b: ChatMessage, sid: Uuid)
    ensures OfSession(msgs + [a, b], sid)
            == OfSession(msgs, sid) + (if a.sessionId == sid then [a] else []) + (if b.sessionId == sid then [b] else [])
  {
    OfSessionAppend(msgs, a, sid);
    assert msgs + [a, b] == (msgs + [a]) + [b];
    OfSessionAppend(msgs + [a], b, sid);
  }

  /** A successful turn appends the user message and the reply to the session's history. */
  lemma SendExtendsHistory(st: ChatStore, endpoint: Endpoint, apiKey: string, model: string,
                           sid: Uuid, userId: Uuid, text: string,
                           userMessageId: Uuid, assistantMessageId: Uuid, now: int, faults: ChatFaults)
    ensures var o := Send(st, endpoint, apiKey, model, sid, userId, text, userMessageId, assistantMessageId, now, faults);
            o.result.Ok? ==>
            History(o.store, sid, userId, false, None)
              == Ok(OfSession(st.messages, sid) + [UserMessage(sid, userId, text, userMessageId, now), o.result.value])
  {
    var o := Send(st, endpoint, apiKey, model, sid, userId, text, userMessageId, assistantMessageId, now, faults);
    SendSucceeded(st, endpoint, apiKey, model, sid, userId, text, userMessageId, assistantMessageId, now, faults);
    if o.result.Ok? {
      HistoryAfterTurn(st, o.store, sid, userId, UserMessage(sid, userId, text, userMessageId, now), o.result.value);
    }
  }

  lemma HistoryAfterTurn(st: ChatStore, next: ChatStore, sid: Uuid, userId: Uuid, um: ChatMessage, reply: ChatMessage)
    requires next.messages == st.messages + [um, reply]
    requires um.sessionId == sid && reply.sessionId == sid
    requires sid in next.sessions && next.sessions[sid].userId == userId
    ensures History(next, sid, userId, false, None) == Ok(OfSession(st.messages, sid) + [um, reply])
  {
    OfSessionAppendTwo(st.messages, um, reply, sid);
    assert OfSession(st.messages, sid) + [um] + [reply] == OfSession(st.messages, sid) + [um, reply];
  }

  /** A turn in one session leaves the history of every other session as it was. */
  lemma SendKeepsOtherHistories(st: ChatStore, endpoint: Endpoint, apiKey: string, model: string,
                                sid: Uuid, userId: Uuid, text: string,
                                userMessageId: Uuid, assistantMessageId: Uuid, now: int, faults: ChatFaults,
                                other: Uuid)
    requires other != sid
    ensures var o := Send(st, endpoint, apiKey, model, sid, userId, text, userMessageId, assistantMessageId, now, faults);
            OfSession(o.store.messages, other) == OfSession(st.messages, other)
  {
    var o := Send(st, endpoint, apiKey, model, sid, userId, text, userMessageId, assistantMessageId, now, faults);
    var um := UserMessage(sid, userId, text, userMessageId, now);
    SendSucceeded(st, endpoint, apiKey, model, sid, userId, text, userMessageId, assistantMessageId, now, faults);
    SendSavesUserFirst(st, endpoint, apiKey, model, sid, userId, text, userMessageId, assistantMessageId, now, faults);
    if o.result.Ok? {
      OfSessionAppendTwo(st.messages, um, o.result.value, other);
    } else if o.store.messages != st.messages {
      if o.store.messages == st.messages + [um] {
        OfSessionAppend(st.messages, um, other);
      } else {
        var reply := o.store.messages[|st.messages| + 1];
        OfSessionAppendTwo(st.messages, um, reply, other);
      }
    }
  }

  /** Whatever the outcome, the message store grows by nothing, the user message, or the user message and a reply of this session. */
  lemma SendSavesUserFirst(st: ChatStore, endpoint: Endpoint, apiKey: string, model: string,
                           sid: Uuid, userId: Uuid, text: string,
                           userMessageId: Uuid, assistantMessageId: Uuid, now: int, faults: ChatFaults)
    ensures var o := Send(st, endpoint, apiKey, model, sid, userId, text, userMessageId, assistantMessageId, now, faults);
            var um := UserMessage(sid, userId, text, userMessageId, now);
            o.store.messages == st.messages
            || o.store.messages == st.messages + [um]
            || (|o.store.messages| == |st.messages| + 2
                && o.store.messages == st.messages + [um, o.store.messages[|st.messages| + 1]]
                && o.store.messages[|st.messages| + 1].sessionId == sid
                && o.store.messages[|st.messages| + 1].role == AssistantRole)
  {
  }

  /**
   * Because the history is read after the new message is saved, the text the
   * user just sent ends the stored window and is then appended once more:
   * the request ends with the same user message twice.
   */
  lemma SentContextRepeatsUserText(st: ChatStore, sid: Uuid, userId: Uuid, text: string, userMessageId: Uuid, now: int)
    ensures var c := SentContext(st, sid, userId, text, userMessageId, now);
            |c| >= 2 && c[|c| - 2] == c[|c| - 1] == Message(UserRole, text)
  {
    var um := UserMessage(sid, userId, text, userMessageId, now);
    var history := OfSession(st.messages + [um], sid);
    OfSessionAppend(st.messages, um, sid);
    assert history[|history| - 1] == um;
    ContextShape(CachedFor(st.cache, sid), history, text);
  }

  /** Only the owner may read a session's history. */
  lemma HistoryOwnerOnly(st: ChatStore, sid: Uuid, userId: Uuid, sessionReadFails: bool, messagesReadError: Option<string>)
    ensures History(st, sid, userId, sessionReadFails, messagesReadError).Ok? <==>
            sid in st.sessions && st.sessions[sid].userId == userId && !sessionReadFails && messagesReadError.None?
    ensures History(st, sid, userId, sessionReadFails, messagesReadError).Ok? ==>
            forall m :: m in History(st, sid, userId, sessionReadFails, messagesReadError).value <==>
                        m in st.messages && m.sessionId == sid
    ensures sid in st.sessions && st.sessions[sid].userId == userId && !sessionReadFails && messagesReadError.Some? ==>
            History(st, sid, userId, sessionReadFails, messagesReadError) == Err(messagesReadError.value)
  {
  }
}
