/**
 * The chat endpoints: opening a session (reusing the user's newest open
 * one), sending a message (owner only, not into a closed session, the
 * user's message then the bot's reply, escalation when the reply says so)
 * and reading a session's messages.
 */
module ChatViews {
  import opened Wrappers
  import opened Records
  import Database
  import Seqs
  import CS = ChatServices

  function OpenFor(user: nat): ChatSession -> bool {
    (s: ChatSession) => s.user == user && s.status == Open
  }

  /** The answer to a session request: an existing session (200), a new one (201), or a server error (500). */
  datatype SessionResponse = Existing(id: nat) | CreatedNew(id: nat) | ServerError

  function StatusCode(r: SessionResponse): nat {
    match r
    case Existing(_) => 200
    case CreatedNew(_) => 201
    case ServerError => 500
  }

  // ----- creating a row ----------------------------------------------------

  /** The fields `ChatSession` declares. */
  const SessionFields: set<string> := {"id", "user", "status", "created_at", "updated_at"}

  /** `ChatSession.objects.create(**kwargs)`: a keyword that names no field raises TypeError. */
  function NewSession(kwargs: set<string>, user: nat, now: int): (r: Option<ChatSession>)
    ensures r.Some? <==> kwargs <= SessionFields
    ensures r.Some? ==> r.value == ChatSession(user, Open, now)
  {
    if kwargs <= SessionFields then Some(ChatSession(user, Open, now)) else None
  }

  /** The keywords the view passes as written: `user`, `status` and `is_anonymous`. */
  const AsWrittenKwargs: set<string> := {"user", "status", "is_anonymous"}

  /** The keywords the model declares: `user` and `status`. */
  const DeclaredKwargs: set<string> := {"user", "status"}

  /** The sessions table and the response of `ChatSessionListCreateView.create`, creating with `kwargs`. */
  function OpenSessionWith(kwargs: set<string>, sessions: seq<ChatSession>, user: nat, now: int)
    : (r: (seq<ChatSession>, SessionResponse))
  {
    match Seqs.Newest(sessions, OpenFor(user))
    case Some(id) => (sessions, Existing(id))
    case None =>
      match NewSession(kwargs, user, now)
      case Some(s) => (sessions + [s], CreatedNew(|sessions| + 1))
      case None => (sessions, ServerError)
  }

  /** As written, a user without an open session never gets one: the create raises and the table is unchanged. */
  lemma AsWrittenNeverCreates(sessions: seq<ChatSession>, user: nat, now: int)
    requires forall k :: 0 <= k < |sessions| ==> !(sessions[k].user == user && sessions[k].status == Open)
    ensures OpenSessionWith(AsWrittenKwargs, sessions, user, now) == (sessions, ServerError)
  {
    assert "is_anonymous" in AsWrittenKwargs && "is_anonymous" !in SessionFields;
    assert forall k :: 0 <= k < |sessions| ==> !OpenFor(user)(sessions[k]);
  }

  /**
   * `create` with the keywords the model declares: the user's newest open
   * session (200) if there is one, else a new open session (201). Either
   * way the id answered is an open session of the user.
   */
  function OpenSession(sessions: seq<ChatSession>, user: nat, now: int): (r: (seq<ChatSession>, SessionResponse))
    ensures r.1.Existing? <==> Seqs.Newest(sessions, OpenFor(user)).Some?
    ensures r.1.Existing? ==> r.0 == sessions && r.1.id == Seqs.Newest(sessions, OpenFor(user)).value
    ensures r.1.CreatedNew? <==> !r.1.Existing?
    ensures r.1.CreatedNew? ==> r.0 == sessions + [ChatSession(user, Open, now)] && r.1.id == |r.0|
    ensures 1 <= r.1.id <= |r.0| && r.0[r.1.id - 1].user == user && r.0[r.1.id - 1].status == Open
  {
    assert DeclaredKwargs <= SessionFields;
    OpenSessionWith(DeclaredKwargs, sessions, user, now)
  }

  /** Asking again answers the same session with 200 and creates nothing. */
  lemma OpenSessionAgain(sessions: seq<ChatSession>, user: nat, now: int, later: int)
    ensures var (after, first) := OpenSession(sessions, user, now);
      OpenSession(after, user, later) == (after, Existing(first.id))
  {
    var (after, first) := OpenSession(sessions, user, now);
    if first.CreatedNew? {
      Seqs.NewestSnoc(sessions, ChatSession(user, Open, now), OpenFor(user));
    }
  }

  /**
   * `create` on the store, passing `kwargs` to the row constructor: the
   * view as written passes `AsWrittenKwargs`, the repaired view
   * `DeclaredKwargs`, whose outcome is `OpenSession`.
   */
  method CreateSession(db: Database.Db, kwargs: set<string>, user: nat, now: int) returns (r: SessionResponse)
    modifies db`sessions
    ensures (db.sessions, r) == OpenSessionWith(kwargs, old(db.sessions), user, now)
  {
    var newest := Seqs.Newest(db.sessions, OpenFor(user));
    if newest.Some? {
      return Existing(newest.value);
    }
    var created := NewSession(kwargs, user, now);
    if created.None? {
      return ServerError;
    }
    db.sessions := db.sessions + [created.value];
    r := CreatedNew(|db.sessions|);
  }

  // ----- messages ----------------------------------------------------------

  /** `get_object_or_404(ChatSession, id=session_id, user=request.user)` finds the session. */
  predicate Owns(sessions: seq<ChatSession>, user: nat, sessionId: nat) {
    1 <= sessionId <= |sessions| && sessions[sessionId - 1].user == user
  }

  function InSession(sessionId: nat): ChatMessage -> bool {
    (m: ChatMessage) => m.session == sessionId
  }

  /** `get_messages`: the session's messages in the order they were stored, or 404 for someone else's session. */
  function GetMessages(sessions: seq<ChatSession>, messages: seq<ChatMessage>, requester: nat, sessionId: nat)
    : (r: Option<seq<ChatMessage>>)
    ensures r.Some? <==> Owns(sessions, requester, sessionId)
    ensures r.Some? ==> forall i :: 0 <= i < |r.value| ==> r.value[i].session == sessionId && r.value[i] in messages
    ensures r.Some? ==> forall k :: 0 <= k < |messages| && messages[k].session == sessionId ==> messages[k] in r.value
  {
    if Owns(sessions, requester, sessionId) then Some(Seqs.Filter(messages, InSession(sessionId))) else None
  }

  /** What `send_message` answers. */
  datatype SendOutcome =
    | NotFound
    | SessionClosed
    | Invalid
    | Sent(userMessage: nat, botMessage: nat, escalated: bool, ticket: Option<nat>)

  function SendStatus(r: SendOutcome): nat {
    match r
    case NotFound => 404
    case SessionClosed => 400
    case Invalid => 400
    case Sent(_, _, _, _) => 200
  }

  /**
   * `send_message`: 404 unless the requester owns the session, 400 for a
   * closed session (an escalated one still takes messages), 400 when the
   * content does not validate. Otherwise the user's message and the bot's
   * reply are stored, in that order, and an escalation is raised exactly
   * when the reply asks for one.
   */
  method SendMessage(db: Database.Db, requester: nat, sessionId: nat, content: Option<string>, now: int)
    returns (r: SendOutcome)
    modifies db`messages, db`tickets, db`sessions
    ensures !Owns(old(db.sessions), requester, sessionId) ==> r == NotFound
    ensures Owns(old(db.sessions), requester, sessionId) && old(db.sessions)[sessionId - 1].status == Closed ==> r == SessionClosed
    ensures (Owns(old(db.sessions), requester, sessionId) && old(db.sessions)[sessionId - 1].status != Closed
             && (content.None? || CharField(content.value, false).None?)) ==> r == Invalid
    ensures !r.Sent? ==> db.messages == old(db.messages) && db.tickets == old(db.tickets) && db.sessions == old(db.sessions)
    ensures r.Sent? ==>
      && Owns(old(db.sessions), requester, sessionId) && old(db.sessions)[sessionId - 1].status != Closed
      && content.Some? && CharField(content.value, false).Some?
      && var text := CharField(content.value, false).value;
         var reply := CS.GenerateBotResponse(text, requester, db.journals, db.sops, now);
         && r.userMessage == |old(db.messages)| + 1 && r.botMessage == |old(db.messages)| + 2
         && db.messages == old(db.messages) + [ChatMessage(sessionId, FromUser, text, now), ChatMessage(sessionId, FromBot, reply.content, now)]
         && r.escalated == reply.escalate
         && (!reply.escalate ==> r.ticket.None? && db.tickets == old(db.tickets) && db.sessions == old(db.sessions))
         && (reply.escalate ==> CS.Escalation(db.tickets, db.sessions, r.ticket)
                                 == CS.Escalate(db.professionals, old(db.tickets), old(db.sessions), sessionId, CS.DangerReason(text), now))
  {
    if !Owns(db.sessions, requester, sessionId) {
      return NotFound;
    }
    if db.sessions[sessionId - 1].status == Closed {
      return SessionClosed;
    }
    if content.None? {
      return Invalid;
    }
    var validated := CharField(content.value, false);
    if validated.None? {
      return Invalid;
    }
    r := StoreExchange(db, requester, sessionId, validated.value, now);
  }

  /**
   * The storing half of `send_message`: the user's message, the bot's
   * reply, and the escalation when the reply asks for one.
   */
  method StoreExchange(db: Database.Db, requester: nat, sessionId: nat, text: string, now: int) returns (r: SendOutcome)
    requires 1 <= sessionId <= |db.sessions|
    modifies db`messages, db`tickets, db`sessions
    ensures var reply := CS.GenerateBotResponse(text, requester, db.journals, db.sops, now);
      && r.Sent?
      && r.userMessage == |old(db.messages)| + 1 && r.botMessage == |old(db.messages)| + 2
      && db.messages == old(db.messages) + [ChatMessage(sessionId, FromUser, text, now), ChatMessage(sessionId, FromBot, reply.content, now)]
      && r.escalated == reply.escalate
      && (!reply.escalate ==> r.ticket.None? && db.tickets == old(db.tickets) && db.sessions == old(db.sessions))
      && (reply.escalate ==> CS.Escalation(db.tickets, db.sessions, r.ticket)
                              == CS.Escalate(db.professionals, old(db.tickets), old(db.sessions), sessionId, CS.DangerReason(text), now))
  {
    var mine := ChatMessage(sessionId, FromUser, text, now);
    var reply := CS.GenerateBotResponse(text, requester, db.journals, db.sops, now);
    var bot := ChatMessage(sessionId, FromBot, reply.content, now);
    ghost var before := db.messages;
    db.messages := db.messages + [mine];
    var userMessage := |db.messages|;
    db.messages := db.messages + [bot];
    var botMessage := |db.messages|;
    assert db.messages == before + [mine, bot];
    var ticket: Option<nat> := None;
    if reply.escalate {
      ticket := CS.CreateEscalationTicket(db, sessionId, CS.DangerReason(text), now);
    }
    r := Sent(userMessage, botMessage, reply.escalate, ticket);
  }

  /** After a send the session's messages are the ones before it, then the user's, then the bot's. */
  lemma SendThenRead(sessions: seq<ChatSession>, messages: seq<ChatMessage>, requester: nat, sessionId: nat,
                     mine: ChatMessage, bot: ChatMessage)
    requires Owns(sessions, requester, sessionId) && mine.session == sessionId && bot.session == sessionId
    ensures GetMessages(sessions, messages + [mine, bot], requester, sessionId).value
         == GetMessages(sessions, messages, requester, sessionId).value + [mine, bot]
  {
    assert messages + [mine, bot] == messages + [mine] + [bot];
    Seqs.FilterSnoc(messages, mine, InSession(sessionId));
    Seqs.FilterSnoc(messages + [mine], bot, InSession(sessionId));
  }

  /** Messages sent to one session do not show up in another. */
  lemma SendElsewhere(sessions: seq<ChatSession>, messages: seq<ChatMessage>, requester: nat, sessionId: nat,
                      mine: ChatMessage, bot: ChatMessage)
    requires Owns(sessions, requester, sessionId) && mine.session != sessionId && bot.session != sessionId
    ensures GetMessages(sessions, messages + [mine, bot], requester, sessionId)
         == GetMessages(sessions, messages, requester, sessionId)
  {
    assert messages + [mine, bot] == messages + [mine] + [bot];
    Seqs.FilterSnoc(messages, mine, InSession(sessionId));
    Seqs.FilterSnoc(messages + [mine], bot, InSession(sessionId));
    var before := Seqs.Filter(messages, InSession(sessionId));
    assert before + [] == before;
  }
}
