/**
 * The stored rows of the accounts, chat, consent, journal and history apps,
 * the shape of a history snapshot's JSON, and the text-field rule the
 * request serializers apply. Ids are positions in a table, counted from 1.
 */
module Records {
  import opened Wrappers
  import Strings
  import PM = ProfessionalModels

  /** An `accounts.User` row; `password` stands for the stored hash. */
  datatype User = User(
    username: string,
    password: string,
    email: string,
    displayName: string,
    isAnonymousMode: bool,
    isProfessional: bool,
    professionalType: Option<string>,
    createdAt: int)

  datatype SessionStatus = Open | Escalated | Closed

  /** A `ChatSession` row; `user` is an id. */
  datatype ChatSession = ChatSession(user: nat, status: SessionStatus, createdAt: int)

  datatype Sender = FromUser | FromBot | FromProfessional

  /** A `ChatMessage` row; `session` is an id. */
  datatype ChatMessage = ChatMessage(session: nat, sender: Sender, content: string, createdAt: int)

  /** A `ConsentGrant` row; `user` and `professional` are ids. */
  datatype ConsentGrant = ConsentGrant(user: nat, professional: nat, active: bool, createdAt: int)

  /** A journal's `risk_flags` JSON: an object, given by the truth values of its members, or any other JSON value. */
  datatype FlagsJson = FlagObject(truthy: seq<bool>) | NotAnObject

  /** `any(flags.values())` on an object. */
  predicate AnyFlagSet(f: FlagsJson)
    requires f.FlagObject?
  {
    exists k :: 0 <= k < |f.truthy| && f.truthy[k]
  }

  /** A `JournalEntry` row with the fields the backend reads; `user` is an id. */
  datatype JournalEntry = JournalEntry(
    user: nat,
    aiSummary: string,
    sentimentScore: real,
    intensityScore: real,
    keyThemes: seq<string>,
    riskFlags: FlagsJson,
    createdAt: int)

  // ----- the history JSON ---------------------------------------------------

  datatype JournalSummary = JournalSummary(
    date: int, summary: string, sentimentScore: real, intensityScore: real, keyThemes: seq<string>, riskFlags: FlagsJson)

  datatype ChatHighlight = ChatHighlight(sessionId: nat, status: SessionStatus, createdAt: int, messageCount: nat)

  datatype EscalationSummary = EscalationSummary(ticketId: nat, status: PM.TicketStatus, verdict: Option<PM.Verdict>, createdAt: int)

  datatype Trends = Trends(
    averageSentiment: real,
    averageIntensity: real,
    totalRiskFlags: nat,
    totalJournalEntries: nat,
    totalChatSessions: nat)

  datatype HistoryJson = HistoryJson(
    userId: nat,
    displayName: string,
    generatedAt: int,
    period: string,
    journalSummaries: seq<JournalSummary>,
    chatHighlights: seq<ChatHighlight>,
    escalationSummary: seq<EscalationSummary>,
    trends: Trends)

  /** A `PatientHistorySnapshot` row; `user` is an id. */
  datatype Snapshot = Snapshot(user: nat, jsonData: HistoryJson, createdAt: int)

  // ----- time ----------------------------------------------------------------

  /** Seven days, in seconds. */
  const Week: int := 7 * 24 * 60 * 60

  /** `created_at__gte=now - timedelta(days=7)`. */
  predicate Recent(createdAt: int, now: int) {
    createdAt >= now - Week
  }

  // ----- request fields -----------------------------------------------------

  /**
   * A REST framework `CharField`: the text is stripped, then refused when
   * it is blank (unless blanks are allowed) or holds a NUL character.
   */
  function CharField(s: string, allowBlank: bool): (r: Option<string>)
    ensures r.Some? ==> r.value == Strings.Strip(s) && '\0' !in r.value
    ensures r.Some? && !allowBlank ==> r.value != ""
    ensures r.None? <==> (Strings.Strip(s) == "" && !allowBlank) || '\0' in Strings.Strip(s)
  {
    var t := Strings.Strip(s);
    if t == "" then (if allowBlank then Some("") else None)
    else if '\0' in t then None
    else Some(t)
  }
}
