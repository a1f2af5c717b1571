/**
 * The rule-based chatbot: the SOP document chosen by keywords, the reply
 * chosen by danger phrases, recent journal risk flags and the SOP, the
 * least-loaded verified professional, and the escalation ticket.
 */
module ChatServices {
  import opened Wrappers
  import opened Records
  import PM = ProfessionalModels
  import Database
  import Seqs
  import Strings
  import AiServices

  /** The SOP categories and their keywords, in the order they are tried. */
  const CategoryKeywords: seq<(string, seq<string>)> := [
    ("anxiety", ["anxious", "worry", "nervous", "panic", "fear"]),
    ("depression", ["sad", "depressed", "down", "hopeless", "empty"]),
    ("self-harm-risk", ["hurt", "suicide", "kill", "end", "die"]),
    ("panic", ["panic", "attack", "breathing", "heart racing"])
  ]

  const DangerPhrases: seq<string> := [
    "kill myself", "suicide", "end it", "not worth living",
    "hurt myself", "cut myself", "die", "want to die"
  ]

  function ActiveIn(category: string): PM.SopDoc -> bool {
    (d: PM.SopDoc) => d.category == category && d.active
  }

  function Active(): PM.SopDoc -> bool {
    (d: PM.SopDoc) => d.active
  }

  /** Category `c` of the table has a keyword in the lowered message and an active SOP. */
  predicate CategoryFits(table: seq<(string, seq<string>)>, sops: seq<PM.SopDoc>, lowered: string, c: nat)
    requires c < |table|
  {
    AiServices.AnyIn(table[c].1, lowered) && Seqs.Newest(sops, ActiveIn(table[c].0)).Some?
  }

  /** The SOP of the first category from `c` on that fits. */
  function SopFrom(table: seq<(string, seq<string>)>, sops: seq<PM.SopDoc>, lowered: string, c: nat): (r: Option<nat>)
    requires c <= |table|
    ensures r.Some? ==> 1 <= r.value <= |sops| && sops[r.value - 1].active
    decreases |table| - c
  {
    if c == |table| then None
    else if CategoryFits(table, sops, lowered, c) then Seqs.Newest(sops, ActiveIn(table[c].0))
    else SopFrom(table, sops, lowered, c + 1)
  }

  /** No SOP comes from the categories from `c` on exactly when none of them fits. */
  lemma {:induction false} SopFromNone(table: seq<(string, seq<string>)>, sops: seq<PM.SopDoc>, lowered: string, c: nat)
    requires c <= |table|
    ensures SopFrom(table, sops, lowered, c).None? <==> forall i :: c <= i < |table| ==> !CategoryFits(table, sops, lowered, i)
    decreases |table| - c
  {
    if c < |table| && !CategoryFits(table, sops, lowered, c) {
      SopFromNone(table, sops, lowered, c + 1);
    }
  }

  /** An SOP from the categories from `c` on is the newest active one of the first category that fits. */
  lemma {:induction false} SopFromFirst(table: seq<(string, seq<string>)>, sops: seq<PM.SopDoc>, lowered: string, c: nat, i: nat)
    requires c <= i < |table| && CategoryFits(table, sops, lowered, i)
    requires forall j :: c <= j < i ==> !CategoryFits(table, sops, lowered, j)
    ensures SopFrom(table, sops, lowered, c) == Seqs.Newest(sops, ActiveIn(table[i].0))
    decreases i - c
  {
    if c < i {
      SopFromFirst(table, sops, lowered, c + 1, i);
    }
  }

  /** `get_relevant_sop`: the id of the SOP the bot follows, if any. */
  function GetRelevantSop(sops: seq<PM.SopDoc>, message: string): (r: Option<nat>)
    ensures r.Some? ==> 1 <= r.value <= |sops| && sops[r.value - 1].active
  {
    var fromCategory := SopFrom(CategoryKeywords, sops, Strings.Lower(message), 0);
    if fromCategory.Some? then fromCategory else Seqs.Newest(sops, Active())
  }

  /** The bot follows no SOP exactly when no SOP is active. */
  lemma NoRelevantSop(sops: seq<PM.SopDoc>, message: string)
    ensures GetRelevantSop(sops, message).None? <==> forall k :: 0 <= k < |sops| ==> !sops[k].active
  {
    var s := SopFrom(CategoryKeywords, sops, Strings.Lower(message), 0);
    if s.Some? {
      assert sops[s.value - 1].active;
    } else {
      assert GetRelevantSop(sops, message) == Seqs.Newest(sops, Active());
    }
  }

  /**
   * Categories are tried in order: the chosen SOP is the newest active one
   * of the first category with a keyword hit and an active SOP; when no
   * category fits, it is the newest active SOP of any category.
   */
  lemma RelevantSopOrder(sops: seq<PM.SopDoc>, message: string)
    ensures var lowered := Strings.Lower(message);
      (forall i :: 0 <= i < |CategoryKeywords| ==> !CategoryFits(CategoryKeywords, sops, lowered, i)) ==>
        GetRelevantSop(sops, message) == Seqs.Newest(sops, Active())
    ensures var lowered := Strings.Lower(message);
      forall i :: 0 <= i < |CategoryKeywords| && CategoryFits(CategoryKeywords, sops, lowered, i)
                  && (forall j :: 0 <= j < i ==> !CategoryFits(CategoryKeywords, sops, lowered, j))
        ==> GetRelevantSop(sops, message) == Seqs.Newest(sops, ActiveIn(CategoryKeywords[i].0))
  {
    SopFromNone(CategoryKeywords, sops, Strings.Lower(message), 0);
    forall i | 0 <= i < |CategoryKeywords| && CategoryFits(CategoryKeywords, sops, Strings.Lower(message), i)
                && (forall j :: 0 <= j < i ==> !CategoryFits(CategoryKeywords, sops, Strings.Lower(message), j))
      ensures GetRelevantSop(sops, message) == Seqs.Newest(sops, ActiveIn(CategoryKeywords[i].0))
    {
      SopFromFirst(CategoryKeywords, sops, Strings.Lower(message), 0, i);
    }
  }

  // ----- the reply ---------------------------------------------------------

  const DangerReply: string :=
    "I'm really concerned about what you're sharing. Your safety is important. "
    + "I want to make sure you get the right support. Let me connect you with a professional who can help. "
    + "Please know that you're not alone, and there are people who care about you."
  const RiskReply: string :=
    "I hear you, and I want to understand better. Can you tell me more about what you're experiencing? "
    + "I'm here to listen and help you find the right support. "
    + "What's been on your mind lately?"
  const AnxietyReply: string :=
    "I understand this feels overwhelming. Can you help me understand what's making you feel anxious? "
    + "What situations or thoughts trigger these feelings? "
    + "Remember, I'm here to listen and support you, not to provide medical advice."
  const DepressionReply: string :=
    "I hear that you're going through a difficult time. How long have you been feeling this way? "
    + "What does a typical day look like for you right now? "
    + "I'm here to listen and help you find appropriate support."
  const SopReply: string :=
    "Thank you for sharing. I want to understand your situation better. "
    + "Can you tell me more about what you're experiencing? "
    + "What would be most helpful for you right now?"
  const DefaultReply: string :=
    "I'm here to listen and support you. Can you tell me more about what's on your mind? "
    + "What's been challenging for you lately? "
    + "Remember, I'm here to gather information and help you find the right support, not to provide medical advice."

  /** `generate_bot_response`'s dict. */
  datatype BotResponse = BotResponse(content: string, escalate: bool, dangerousLevel: bool)

  /** Some danger phrase occurs in the lowered message. */
  predicate Dangerous(message: string) {
    AiServices.AnyIn(DangerPhrases, Strings.Lower(message))
  }

  /** Some journal of the user from the last seven days has a risk-flag object with a truthy member. */
  predicate HasRecentRisk(journals: seq<JournalEntry>, user: nat, now: int) {
    exists k :: 0 <= k < |journals| && journals[k].user == user && Recent(journals[k].createdAt, now)
      && journals[k].riskFlags.FlagObject? && AnyFlagSet(journals[k].riskFlags)
  }

  /** The reply an SOP of this category calls for. */
  function SopGuided(category: string): string {
    if Strings.Contains(Strings.Lower(category), "anxiety") then AnxietyReply
    else if Strings.Contains(Strings.Lower(category), "depression") then DepressionReply
    else SopReply
  }

  /** The reply when neither danger nor risk applies: what the chosen SOP calls for, else the default. */
  function Guidance(sops: seq<PM.SopDoc>, sop: Option<nat>): string
    requires sop.Some? ==> 1 <= sop.value <= |sops|
  {
    match sop
    case Some(id) => SopGuided(sops[id - 1].category)
    case None => DefaultReply
  }

  /**
   * `generate_bot_response`: danger first, then recent risk, then the SOP's
   * category, then the default; only danger escalates.
   */
  function GenerateBotResponse(message: string, user: nat, journals: seq<JournalEntry>, sops: seq<PM.SopDoc>, now: int)
    : (r: BotResponse)
    ensures r.dangerousLevel <==> Dangerous(message)
    ensures r.escalate <==> r.dangerousLevel
    ensures r.dangerousLevel ==> r.content == DangerReply
    ensures !r.dangerousLevel && HasRecentRisk(journals, user, now) ==> r.content == RiskReply
    ensures !r.dangerousLevel && !HasRecentRisk(journals, user, now) ==>
      r.content == Guidance(sops, GetRelevantSop(sops, message))
  {
    var danger := Dangerous(message);
    var content :=
      if danger then DangerReply
      else if HasRecentRisk(journals, user, now) then RiskReply
      else Guidance(sops, GetRelevantSop(sops, message));
    BotResponse(content, danger, danger)
  }

  // ----- assignment ----------------------------------------------------------

  function PendingFor(pro: nat): PM.EscalationTicket -> bool {
    (t: PM.EscalationTicket) => t.assignedProfessional == pro && t.status == PM.Pending
  }

  /** The number of pending tickets assigned to professional `pro`. */
  function PendingCount(tickets: seq<PM.EscalationTicket>, pro: nat): nat {
    Seqs.CountWhere(tickets, PendingFor(pro))
  }

  /** `b` is the verified professional among the first `n` with the fewest pending tickets, the lowest id on a tie. */
  predicate LeastLoaded(pros: seq<PM.Professional>, tickets: seq<PM.EscalationTicket>, n: nat, b: nat)
    requires n <= |pros|
  {
    1 <= b <= n && pros[b - 1].verified
    && forall k :: 0 <= k < n && pros[k].verified ==>
         PendingCount(tickets, b) < PendingCount(tickets, k + 1)
         || (PendingCount(tickets, b) == PendingCount(tickets, k + 1) && b <= k + 1)
  }

  function BestAmong(pros: seq<PM.Professional>, tickets: seq<PM.EscalationTicket>, n: nat): (r: Option<nat>)
    requires n <= |pros|
    ensures r.None? <==> forall k :: 0 <= k < n ==> !pros[k].verified
    ensures r.Some? ==> LeastLoaded(pros, tickets, n, r.value)
  {
    if n == 0 then None
    else
      var b := BestAmong(pros, tickets, n - 1);
      if !pros[n - 1].verified then b
      else if b.None? || PendingCount(tickets, n) < PendingCount(tickets, b.value) then Some(n)
      else b
  }

  /** `assign_professional`: the verified professional with the fewest pending tickets, lowest id first. */
  function AssignProfessional(pros: seq<PM.Professional>, tickets: seq<PM.EscalationTicket>): (r: Option<nat>)
    ensures r.None? <==> forall k :: 0 <= k < |pros| ==> !pros[k].verified
    ensures r.Some? ==> LeastLoaded(pros, tickets, |pros|, r.value)
  {
    BestAmong(pros, tickets, |pros|)
  }

  /** The least-loaded choice is unique: it is the one any other least-loaded candidate names. */
  lemma LeastLoadedUnique(pros: seq<PM.Professional>, tickets: seq<PM.EscalationTicket>, b: nat)
    requires LeastLoaded(pros, tickets, |pros|, b)
    ensures AssignProfessional(pros, tickets) == Some(b)
  {
    var a := AssignProfessional(pros, tickets).value;
    assert pros[a - 1].verified && pros[b - 1].verified;
  }

  /** The reason stored on a ticket the chat raises. */
  function DangerReason(content: string): string {
    "Dangerous level detected in chat message: " + Strings.FirstN(content, 100)
  }

  /** The tables after an escalation, and the id of the ticket it raised. */
  datatype Escalation = Escalation(tickets: seq<PM.EscalationTicket>, sessions: seq<ChatSession>, ticket: Option<nat>)

  /**
   * What `create_escalation_ticket` does to the tables: with no verified
   * professional nothing changes; otherwise one pending ticket for the
   * least-loaded professional is appended and the session becomes escalated.
   */
  function Escalate(pros: seq<PM.Professional>, tickets: seq<PM.EscalationTicket>, sessions: seq<ChatSession>,
                    sessionId: nat, reason: string, now: int): (r: Escalation)
    requires 1 <= sessionId <= |sessions|
    ensures r.ticket.None? <==> forall k :: 0 <= k < |pros| ==> !pros[k].verified
    ensures r.ticket.None? ==> r.tickets == tickets && r.sessions == sessions
    ensures r.ticket.Some? ==>
      && r.ticket.value == |tickets| + 1 == |r.tickets|
      && r.tickets[..|tickets|] == tickets
      && LeastLoaded(pros, tickets, |pros|, r.tickets[|tickets|].assignedProfessional)
      && r.tickets[|tickets|] == PM.EscalationTicket(sessionId, sessions[sessionId - 1].user,
           r.tickets[|tickets|].assignedProfessional, reason, PM.Pending, None, "", now, None)
      && |r.sessions| == |sessions| && r.sessions[sessionId - 1].status == Escalated
      && r.sessions[sessionId - 1] == sessions[sessionId - 1].(status := Escalated)
      && forall k :: 0 <= k < |sessions| && k != sessionId - 1 ==> r.sessions[k] == sessions[k]
  {
    match AssignProfessional(pros, tickets)
    case None => Escalation(tickets, sessions, None)
    case Some(pro) =>
      var session := sessions[sessionId - 1];
      var added := tickets + [PM.EscalationTicket(sessionId, session.user, pro, reason, PM.Pending, None, "", now, None)];
      assert added[..|tickets|] == tickets;
      Escalation(added, sessions[sessionId - 1 := session.(status := Escalated)], Some(|added|))
  }

  /** The new ticket is the only pending one its professional gained, and the load of everyone else is unchanged. */
  lemma EscalateLoad(pros: seq<PM.Professional>, tickets: seq<PM.EscalationTicket>, sessions: seq<ChatSession>,
                     sessionId: nat, reason: string, now: int, pro: nat)
    requires 1 <= sessionId <= |sessions|
    ensures var r := Escalate(pros, tickets, sessions, sessionId, reason, now);
      PendingCount(r.tickets, pro)
        == PendingCount(tickets, pro) + (if r.ticket.Some? && r.tickets[|tickets|].assignedProfessional == pro then 1 else 0)
  {
    var r := Escalate(pros, tickets, sessions, sessionId, reason, now);
    if r.ticket.Some? {
      assert r.tickets == tickets + [r.tickets[|tickets|]];
      Seqs.CountWhereSnoc(tickets, r.tickets[|tickets|], PendingFor(pro));
    }
  }

  /** `create_escalation_ticket` on the store. */
  method CreateEscalationTicket(db: Database.Db, sessionId: nat, reason: string, now: int) returns (ticket: Option<nat>)
    requires 1 <= sessionId <= |db.sessions|
    modifies db`tickets, db`sessions
    ensures Escalation(db.tickets, db.sessions, ticket) == Escalate(db.professionals, old(db.tickets), old(db.sessions), sessionId, reason, now)
  {
    var pro := AssignProfessional(db.professionals, db.tickets);
    if pro.None? {
      return None;
    }
    var session := db.sessions[sessionId - 1];
    db.tickets := db.tickets + [PM.EscalationTicket(sessionId, session.user, pro.value, reason, PM.Pending, None, "", now, None)];
    db.sessions := db.sessions[sessionId - 1 := session.(status := Escalated)];
    ticket := Some(|db.tickets|);
  }
}
