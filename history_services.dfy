/**
 * `generate_history_json`: a user's last seven days of journals and chat
 * sessions, all of their escalation tickets, and the trends over the
 * journals, as the JSON a history snapshot stores.
 */
module HistoryServices {
  import opened Wrappers
  import opened Records
  import PM = ProfessionalModels
  import Database
  import Seqs
  import CV = ChatViews
  import PV = ProfessionalViews

  predicate InRange(ids: seq<nat>, n: nat) {
    forall i :: 0 <= i < |ids| ==> 1 <= ids[i] <= n
  }

  // ----- the three queries ---------------------------------------------------

  /** `JournalEntry.objects.filter(user=user, created_at__gte=now - timedelta(days=7))` keeps the entry. */
  predicate IsRecentJournal(j: JournalEntry, user: nat, now: int) {
    j.user == user && Recent(j.createdAt, now)
  }

  function RecentJournal(user: nat, now: int): JournalEntry -> bool {
    (j: JournalEntry) => IsRecentJournal(j, user, now)
  }

  function RecentSession(user: nat, now: int): ChatSession -> bool {
    (s: ChatSession) => s.user == user && Recent(s.createdAt, now)
  }

  /** The user's journals of the last seven days, newest first. */
  function JournalIds(journals: seq<JournalEntry>, user: nat, now: int): (r: seq<nat>)
    ensures forall id :: id in r <==> 1 <= id <= |journals| && journals[id - 1].user == user && Recent(journals[id - 1].createdAt, now)
    ensures forall i, j :: 0 <= i < j < |r| ==> r[i] > r[j]
    ensures InRange(r, |journals|)
    ensures forall i :: 0 <= i < |r| ==> 1 <= r[i] <= |journals| && IsRecentJournal(journals[r[i] - 1], user, now)
  {
    var r := Seqs.IdsWhere(journals, RecentJournal(user, now));
    assert forall i :: 0 <= i < |r| ==> r[i] in r;
    r
  }

  /** The user's chat sessions of the last seven days, newest first. */
  function SessionIds(sessions: seq<ChatSession>, user: nat, now: int): (r: seq<nat>)
    ensures forall id :: id in r <==> 1 <= id <= |sessions| && sessions[id - 1].user == user && Recent(sessions[id - 1].createdAt, now)
    ensures forall i, j :: 0 <= i < j < |r| ==> r[i] > r[j]
    ensures InRange(r, |sessions|)
  {
    Seqs.IdsWhereRange(sessions, RecentSession(user, now));
    Seqs.IdsWhere(sessions, RecentSession(user, now))
  }

  /** All of the user's tickets, newest first, however old. */
  function TicketIds(tickets: seq<PM.EscalationTicket>, user: nat): (r: seq<nat>)
    ensures forall id :: id in r <==> 1 <= id <= |tickets| && tickets[id - 1].user == user
    ensures forall i, j :: 0 <= i < j < |r| ==> r[i] > r[j]
    ensures InRange(r, |tickets|)
  {
    Seqs.IdsWhereRange(tickets, PV.RaisedFor(user));
    PV.MyEscalations(tickets, user)
  }

  // ----- the entries -----------------------------------------------------------

  function Summary(j: JournalEntry): JournalSummary {
    JournalSummary(j.createdAt, j.aiSummary, j.sentimentScore, j.intensityScore, j.keyThemes, j.riskFlags)
  }

  /** `session.messages.count()`: what `get_messages` would list for the session. */
  function MessageCount(messages: seq<ChatMessage>, sessionId: nat): (r: nat)
    ensures r == |Seqs.Filter(messages, CV.InSession(sessionId))|
  {
    Seqs.CountWhereFilter(messages, CV.InSession(sessionId));
    Seqs.CountWhere(messages, CV.InSession(sessionId))
  }

  function Highlight(sessions: seq<ChatSession>, messages: seq<ChatMessage>, id: nat): ChatHighlight
    requires 1 <= id <= |sessions|
  {
    ChatHighlight(id, sessions[id - 1].status, sessions[id - 1].createdAt, MessageCount(messages, id))
  }

  function TicketLine(tickets: seq<PM.EscalationTicket>, id: nat): EscalationSummary
    requires 1 <= id <= |tickets|
  {
    EscalationSummary(id, tickets[id - 1].status, tickets[id - 1].verdict, tickets[id - 1].createdAt)
  }

  /** One summary per journal id, in the order of the ids. */
  function Summaries(journals: seq<JournalEntry>, ids: seq<nat>): (r: seq<JournalSummary>)
    requires InRange(ids, |journals|)
    ensures |r| == |ids|
    decreases |ids|
  {
    if ids == [] then [] else Summaries(journals, ids[..|ids| - 1]) + [Summary(journals[ids[|ids| - 1] - 1])]
  }

  /** One highlight per session id, in the order of the ids. */
  function Highlights(sessions: seq<ChatSession>, messages: seq<ChatMessage>, ids: seq<nat>): (r: seq<ChatHighlight>)
    requires InRange(ids, |sessions|)
    ensures |r| == |ids|
    decreases |ids|
  {
    if ids == [] then [] else Highlights(sessions, messages, ids[..|ids| - 1]) + [Highlight(sessions, messages, ids[|ids| - 1])]
  }

  /** One line per ticket id, in the order of the ids. */
  function TicketLines(tickets: seq<PM.EscalationTicket>, ids: seq<nat>): (r: seq<EscalationSummary>)
    requires InRange(ids, |tickets|)
    ensures |r| == |ids|
    decreases |ids|
  {
    if ids == [] then [] else TicketLines(tickets, ids[..|ids| - 1]) + [TicketLine(tickets, ids[|ids| - 1])]
  }

  /** The entry at position `i` of each list is built from the row its id names. */
  lemma {:induction false} EntriesAt(journals: seq<JournalEntry>, sessions: seq<ChatSession>, messages: seq<ChatMessage>,
                                    tickets: seq<PM.EscalationTicket>, jids: seq<nat>, sids: seq<nat>, tids: seq<nat>)
    requires InRange(jids, |journals|) && InRange(sids, |sessions|) && InRange(tids, |tickets|)
    ensures forall i :: 0 <= i < |jids| ==> Summaries(journals, jids)[i] == Summary(journals[jids[i] - 1])
    ensures forall i :: 0 <= i < |sids| ==> Highlights(sessions, messages, sids)[i] == Highlight(sessions, messages, sids[i])
    ensures forall i :: 0 <= i < |tids| ==> TicketLines(tickets, tids)[i] == TicketLine(tickets, tids[i])
  {
    SummariesAt(journals, jids);
    HighlightsAt(sessions, messages, sids);
    TicketLinesAt(tickets, tids);
  }

  lemma {:induction false} SummariesAt(journals: seq<JournalEntry>, ids: seq<nat>)
    requires InRange(ids, |journals|)
    ensures forall i :: 0 <= i < |ids| ==> Summaries(journals, ids)[i] == Summary(journals[ids[i] - 1])
    decreases |ids|
  {
    if ids != [] {
      SummariesAt(journals, ids[..|ids| - 1]);
    }
  }

  lemma {:induction false} HighlightsAt(sessions: seq<ChatSession>, messages: seq<ChatMessage>, ids: seq<nat>)
    requires InRange(ids, |sessions|)
    ensures forall i :: 0 <= i < |ids| ==> Highlights(sessions, messages, ids)[i] == Highlight(sessions, messages, ids[i])
    decreases |ids|
  {
    if ids != [] {
      HighlightsAt(sessions, messages, ids[..|ids| - 1]);
    }
  }

  lemma {:induction false} TicketLinesAt(tickets: seq<PM.EscalationTicket>, ids: seq<nat>)
    requires InRange(ids, |tickets|)
    ensures forall i :: 0 <= i < |ids| ==> TicketLines(tickets, ids)[i] == TicketLine(tickets, ids[i])
    decreases |ids|
  {
    if ids != [] {
      TicketLinesAt(tickets, ids[..|ids| - 1]);
    }
  }

  // ----- the loops -------------------------------------------------------------

  /** The `journal_summaries` loop. */
  method CollectSummaries(journals: seq<JournalEntry>, ids: seq<nat>) returns (r: seq<JournalSummary>)
    requires InRange(ids, |journals|)
    ensures r == Summaries(journals, ids)
  {
    r := [];
    for i := 0 to |ids|
      invariant r == Summaries(journals, ids[..i])
    {
      assert ids[..i + 1][..i] == ids[..i];
      var journal := journals[ids[i] - 1];
      r := r + [JournalSummary(journal.createdAt, journal.aiSummary, journal.sentimentScore, journal.intensityScore,
                               journal.keyThemes, journal.riskFlags)];
    }
    assert ids[..|ids|] == ids;
  }

  /** The `chat_highlights` loop. */
  method CollectHighlights(sessions: seq<ChatSession>, messages: seq<ChatMessage>, ids: seq<nat>) returns (r: seq<ChatHighlight>)
    requires InRange(ids, |sessions|)
    ensures r == Highlights(sessions, messages, ids)
  {
    r := [];
    for i := 0 to |ids|
      invariant r == Highlights(sessions, messages, ids[..i])
    {
      assert ids[..i + 1][..i] == ids[..i];
      var session := sessions[ids[i] - 1];
      r := r + [ChatHighlight(ids[i], session.status, session.createdAt, Seqs.CountWhere(messages, CV.InSession(ids[i])))];
    }
    assert ids[..|ids|] == ids;
  }

  /** The `escalation_summary` loop. */
  method CollectTicketLines(tickets: seq<PM.EscalationTicket>, ids: seq<nat>) returns (r: seq<EscalationSummary>)
    requires InRange(ids, |tickets|)
    ensures r == TicketLines(tickets, ids)
  {
    r := [];
    for i := 0 to |ids|
      invariant r == TicketLines(tickets, ids[..i])
    {
      assert ids[..i + 1][..i] == ids[..i];
      var ticket := tickets[ids[i] - 1];
      r := r + [EscalationSummary(ids[i], ticket.status, ticket.verdict, ticket.createdAt)];
    }
    assert ids[..|ids|] == ids;
  }

  // ----- the trends ----------------------------------------------------------

  function Sum(xs: seq<real>): real
    decreases |xs|
  {
    if xs == [] then 0.0 else Sum(xs[..|xs| - 1]) + xs[|xs| - 1]
  }

  /** The mean, or 0.0 for no values. */
  function Mean(xs: seq<real>): (r: real)
    ensures |xs| > 0 ==> r * (|xs| as real) == Sum(xs)
    ensures |xs| == 0 ==> r == 0.0
  {
    if |xs| == 0 then 0.0 else Sum(xs) / (|xs| as real)
  }

  /** A sum of values within `[lo, hi]` lies within `[n * lo, n * hi]`. */
  lemma {:induction false} SumBounds(xs: seq<real>, lo: real, hi: real)
    requires forall i :: 0 <= i < |xs| ==> lo <= xs[i] <= hi
    ensures (|xs| as real) * lo <= Sum(xs) <= (|xs| as real) * hi
    decreases |xs|
  {
    if xs != [] {
      SumBounds(xs[..|xs| - 1], lo, hi);
    }
  }

  /** The mean of values within `[lo, hi]` lies within `[lo, hi]`. */
  lemma MeanBounds(xs: seq<real>, lo: real, hi: real)
    requires |xs| > 0 && forall i :: 0 <= i < |xs| ==> lo <= xs[i] <= hi
    ensures lo <= Mean(xs) <= hi
  {
    SumBounds(xs, lo, hi);
  }

  function Sentiments(js: seq<JournalSummary>): (r: seq<real>)
    ensures |r| == |js|
    decreases |js|
  {
    if js == [] then [] else Sentiments(js[..|js| - 1]) + [js[|js| - 1].sentimentScore]
  }

  function Intensities(js: seq<JournalSummary>): (r: seq<real>)
    ensures |r| == |js|
    decreases |js|
  {
    if js == [] then [] else Intensities(js[..|js| - 1]) + [js[|js| - 1].intensityScore]
  }

  /** The score lists hold each summary's score at its position. */
  lemma {:induction false} ScoresAt(js: seq<JournalSummary>)
    ensures forall i :: 0 <= i < |js| ==> Sentiments(js)[i] == js[i].sentimentScore && Intensities(js)[i] == js[i].intensityScore
    decreases |js|
  {
    if js != [] {
      ScoresAt(js[..|js| - 1]);
    }
  }

  function Flagged(): JournalSummary -> bool {
    (j: JournalSummary) => j.riskFlags.FlagObject? && AnyFlagSet(j.riskFlags)
  }

  /**
   * `sum(1 for j in journal_summaries if any(j.get('risk_flags', {}).values()))`:
   * None when a journal's flags are not an object, whose `.values()` raises.
   */
  function RiskTotal(js: seq<JournalSummary>): (r: Option<nat>)
    ensures r.Some? ==> r.value <= |js|
    decreases |js|
  {
    if js == [] then Some(0)
    else
      var last := js[|js| - 1];
      match RiskTotal(js[..|js| - 1])
      case None => None
      case Some(n) =>
        if last.riskFlags.NotAnObject? then None
        else Some(n + if AnyFlagSet(last.riskFlags) then 1 else 0)
  }

  /** The total fails exactly when some journal's flags are not an object, and otherwise counts the flagged journals. */
  lemma {:induction false} RiskTotalFacts(js: seq<JournalSummary>)
    ensures RiskTotal(js).None? <==> exists k :: 0 <= k < |js| && js[k].riskFlags.NotAnObject?
    ensures RiskTotal(js).Some? ==> RiskTotal(js).value == Seqs.CountWhere(js, Flagged())
    decreases |js|
  {
    if js != [] {
      var init := js[..|js| - 1];
      RiskTotalFacts(init);
      assert forall k :: 0 <= k < |init| ==> init[k] == js[k];
      if RiskTotal(init).None? {
        var k :| 0 <= k < |init| && init[k].riskFlags.NotAnObject?;
        assert js[k].riskFlags.NotAnObject?;
      }
    }
  }

  /** The `trends` object, or None when the risk total fails. */
  function TrendsOf(js: seq<JournalSummary>, hs: seq<ChatHighlight>): Option<Trends> {
    match RiskTotal(js)
    case None => None
    case Some(n) => Some(Trends(Mean(Sentiments(js)), Mean(Intensities(js)), n, |js|, |hs|))
  }

  // ----- the JSON --------------------------------------------------------------

  /**
   * `generate_history_json(user)`: the three lists and the trends, stamped
   * `now`; None when the trends fail.
   */
  function HistoryOf(users: seq<User>, user: nat, journals: seq<JournalEntry>, sessions: seq<ChatSession>,
                     messages: seq<ChatMessage>, tickets: seq<PM.EscalationTicket>, now: int): Option<HistoryJson>
    requires 1 <= user <= |users|
  {
    var js := Summaries(journals, JournalIds(journals, user, now));
    var hs := Highlights(sessions, messages, SessionIds(sessions, user, now));
    var es := TicketLines(tickets, TicketIds(tickets, user));
    match TrendsOf(js, hs)
    case None => None
    case Some(t) => Some(HistoryJson(user, users[user - 1].displayName, now, "7_days", js, hs, es, t))
  }

  /** `generate_history_json` on the store. */
  method GenerateHistoryJson(db: Database.Db, user: nat, now: int) returns (r: Option<HistoryJson>)
    requires 1 <= user <= |db.users|
    ensures r == HistoryOf(db.users, user, db.journals, db.sessions, db.messages, db.tickets, now)
  {
    var journalSummaries := CollectSummaries(db.journals, JournalIds(db.journals, user, now));
    var chatHighlights := CollectHighlights(db.sessions, db.messages, SessionIds(db.sessions, user, now));
    var escalationSummary := CollectTicketLines(db.tickets, TicketIds(db.tickets, user));
    var total := RiskTotal(journalSummaries);
    if total.None? {
      return None;
    }
    var trends := Trends(Mean(Sentiments(journalSummaries)), Mean(Intensities(journalSummaries)), total.value,
                         |journalSummaries|, |chatHighlights|);
    r := Some(HistoryJson(user, db.users[user - 1].displayName, now, "7_days", journalSummaries, chatHighlights,
                          escalationSummary, trends));
  }

  /** One of the journals of `ids` has flags that are not an object. */
  predicate AnyNonObject(journals: seq<JournalEntry>, ids: seq<nat>)
    requires InRange(ids, |journals|)
  {
    exists i :: 0 <= i < |ids| && journals[ids[i] - 1].riskFlags.NotAnObject?
  }

  /** One of the user's journals of the last seven days has flags that are not an object. */
  predicate RecentNonObject(journals: seq<JournalEntry>, user: nat, now: int) {
    exists k :: 0 <= k < |journals| && IsRecentJournal(journals[k], user, now) && journals[k].riskFlags.NotAnObject?
  }

  /** Generation fails exactly when one of the user's journals of the last seven days has flags that are not an object. */
  lemma HistoryFails(users: seq<User>, user: nat, journals: seq<JournalEntry>, sessions: seq<ChatSession>,
                     messages: seq<ChatMessage>, tickets: seq<PM.EscalationTicket>, now: int)
    requires 1 <= user <= |users|
    ensures HistoryOf(users, user, journals, sessions, messages, tickets, now).None? <==> RecentNonObject(journals, user, now)
  {
    JournalsFail(journals, user, now);
  }

  /** The risk total over the user's journals of the last seven days fails exactly when one of them has flags that are not an object. */
  lemma JournalsFail(journals: seq<JournalEntry>, user: nat, now: int)
    ensures RiskTotal(Summaries(journals, JournalIds(journals, user, now))).None? <==> RecentNonObject(journals, user, now)
  {
    var ids := JournalIds(journals, user, now);
    SummariesFail(journals, ids);
    RecentWitness(journals, ids, user, now);
  }

  /** An id list holding the user's recent journals and only them has a non-object entry exactly when such a journal exists. */
  lemma RecentWitness(journals: seq<JournalEntry>, ids: seq<nat>, user: nat, now: int)
    requires forall k :: 0 <= k < |journals| && IsRecentJournal(journals[k], user, now) ==> k + 1 in ids
    requires forall i :: 0 <= i < |ids| ==> 1 <= ids[i] <= |journals| && IsRecentJournal(journals[ids[i] - 1], user, now)
    ensures AnyNonObject(journals, ids) <==> RecentNonObject(journals, user, now)
  {
    if exists k :: 0 <= k < |journals| && IsRecentJournal(journals[k], user, now) && journals[k].riskFlags.NotAnObject? {
      var k :| 0 <= k < |journals| && IsRecentJournal(journals[k], user, now) && journals[k].riskFlags.NotAnObject?;
      assert k + 1 in ids;
      var i :| 0 <= i < |ids| && ids[i] == k + 1;
      assert journals[ids[i] - 1].riskFlags.NotAnObject?;
    }
    if exists i :: 0 <= i < |ids| && journals[ids[i] - 1].riskFlags.NotAnObject? {
      var i :| 0 <= i < |ids| && journals[ids[i] - 1].riskFlags.NotAnObject?;
      assert IsRecentJournal(journals[ids[i] - 1], user, now);
    }
  }

  /** The risk total over the summaries of `ids` fails exactly when one of those journals has flags that are not an object. */
  lemma SummariesFail(journals: seq<JournalEntry>, ids: seq<nat>)
    requires InRange(ids, |journals|)
    ensures RiskTotal(Summaries(journals, ids)).None? <==> AnyNonObject(journals, ids)
  {
    var js := Summaries(journals, ids);
    RiskTotalFacts(js);
    SummariesAt(journals, ids);
    if RiskTotal(js).None? {
      var k :| 0 <= k < |js| && js[k].riskFlags.NotAnObject?;
      assert journals[ids[k] - 1].riskFlags.NotAnObject?;
    }
    if AnyNonObject(journals, ids) {
      var i :| 0 <= i < |ids| && journals[ids[i] - 1].riskFlags.NotAnObject?;
      assert js[i].riskFlags.NotAnObject?;
    }
  }

  /**
   * A generated history lists one summary per journal of the last seven
   * days and one highlight per session of the last seven days, newest
   * first, and every ticket of the user; each highlight counts its
   * session's messages; the totals are the list lengths; the risk total
   * counts the flagged journals and is at most the journal total; and the
   * averages are the means of the listed scores.
   */
  lemma HistoryFacts(users: seq<User>, user: nat, journals: seq<JournalEntry>, sessions: seq<ChatSession>,
                     messages: seq<ChatMessage>, tickets: seq<PM.EscalationTicket>, now: int)
    requires 1 <= user <= |users|
    ensures var h := HistoryOf(users, user, journals, sessions, messages, tickets, now);
      var jids, sids, tids := JournalIds(journals, user, now), SessionIds(sessions, user, now), TicketIds(tickets, user);
      h.Some? ==>
        && h.value.userId == user && h.value.displayName == users[user - 1].displayName && h.value.generatedAt == now
        && |h.value.journalSummaries| == |jids|
        && (forall i :: 0 <= i < |jids| ==> h.value.journalSummaries[i] == Summary(journals[jids[i] - 1]))
        && |h.value.chatHighlights| == |sids|
        && (forall i :: 0 <= i < |sids| ==>
              h.value.chatHighlights[i].sessionId == sids[i] &&
              h.value.chatHighlights[i].messageCount == |Seqs.Filter(messages, CV.InSession(sids[i]))|)
        && |h.value.escalationSummary| == |tids|
        && (forall i :: 0 <= i < |tids| ==> h.value.escalationSummary[i] == TicketLine(tickets, tids[i]))
        && h.value.trends.totalJournalEntries == |h.value.journalSummaries|
        && h.value.trends.totalChatSessions == |h.value.chatHighlights|
        && h.value.trends.totalRiskFlags == Seqs.CountWhere(h.value.journalSummaries, Flagged())
        && h.value.trends.totalRiskFlags <= h.value.trends.totalJournalEntries
        && h.value.trends.averageSentiment == Mean(Sentiments(h.value.journalSummaries))
        && h.value.trends.averageIntensity == Mean(Intensities(h.value.journalSummaries))
  {
    var jids, sids, tids := JournalIds(journals, user, now), SessionIds(sessions, user, now), TicketIds(tickets, user);
    EntriesAt(journals, sessions, messages, tickets, jids, sids, tids);
    RiskTotalFacts(Summaries(journals, jids));
  }

  /**
   * When every listed journal's scores lie in the ranges the journal model
   * documents (sentiment in [-1, 1], intensity in [0, 1]), so do the
   * averages.
   */
  lemma AveragesInRange(js: seq<JournalSummary>)
    requires forall i :: 0 <= i < |js| ==> -1.0 <= js[i].sentimentScore <= 1.0 && 0.0 <= js[i].intensityScore <= 1.0
    ensures -1.0 <= Mean(Sentiments(js)) <= 1.0 && 0.0 <= Mean(Intensities(js)) <= 1.0
  {
    if |js| > 0 {
      ScoresAt(js);
      MeanBounds(Sentiments(js), -1.0, 1.0);
      MeanBounds(Intensities(js), 0.0, 1.0);
    }
  }
}
