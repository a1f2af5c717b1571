/**
 * The OpenRouter client: the configured API keys with the empty ones
 * dropped, a rotating key index, a request loop that tries each key once
 * in turn, the JSON slice taken from the journal-analysis reply with a
 * neutral fallback, and the messages of the history chat and the patient
 * summary. Each HTTP attempt is an input function of the payload, the
 * attempt number and the key.
 */
module AiService {
  import opened Wrappers
  import Seqs
  import Strings
  import Format

  datatype Message = Message(role: string, content: string)

  /** The JSON body of one request. */
  datatype Payload = Payload(model: string, messages: seq<Message>, maxTokens: nat, temperature: real)

  /**
   * How one attempt ended: status 200 with the reply's
   * `choices[0].message.content` (None when that is JSON null), 429, another
   * status, or an exception. A 200 body without that path raises inside the
   * `try`, so it is `Raised`.
   */
  datatype Attempt = Success(content: Option<string>) | RateLimited | HttpError(status: int) | Raised

  /** The OpenRouter endpoint as a function: payload, attempt number (from 0) and key to outcome. */
  type Send = (Payload, nat, string) -> Attempt

  datatype KeyError = NoKeysConfigured

  const DefaultModel: string := "anthropic/claude-3-haiku"

  /** A Python truth test on an optional string: present and not empty. */
  predicate Truthy(s: Option<string>) {
    s.Some? && s.value != ""
  }

  // ----- keys ------------------------------------------------------------

  /** `[key for key in keys if key]`. */
  function NonEmpty(keys: seq<string>): (r: seq<string>)
    ensures |r| <= |keys|
    ensures forall k :: 0 <= k < |r| ==> r[k] != ""
    decreases |keys|
  {
    if keys == [] then []
    else NonEmpty(keys[..|keys| - 1]) + (if keys[|keys| - 1] == "" then [] else [keys[|keys| - 1]])
  }

  /** The filter keeps exactly the non-empty keys, and all of them when none is empty. */
  lemma {:induction false} NonEmptyMembers(keys: seq<string>)
    ensures forall x :: x in NonEmpty(keys) <==> x in keys && x != ""
    ensures (forall k :: 0 <= k < |keys| ==> keys[k] != "") ==> NonEmpty(keys) == keys
    decreases |keys|
  {
    if keys != [] {
      var init := keys[..|keys| - 1];
      NonEmptyMembers(init);
      assert keys == init + [keys[|keys| - 1]];
    }
  }

  /** `x % n` for `x` below `2 * n`, without the division. */
  lemma WrapMod(x: nat, n: nat)
    requires 0 < n && x < 2 * n
    ensures x % n == if x < n then x else x - n
  {
    if x >= n {
      assert x - n < n;
      assert x == (x - n) + n;
    }
  }

  /** The key tried at attempt `j` of a round that starts at index `start`. */
  function KeyAt(keys: seq<string>, start: nat, j: nat): string
    requires |keys| > 0
  {
    keys[(start + j) % |keys|]
  }

  /** A round starting anywhere tries every key: key `i` at attempt `(i - start) mod n`. */
  lemma RoundVisitsAll(keys: seq<string>, start: nat, i: nat)
    requires start < |keys| && i < |keys|
    ensures exists j :: 0 <= j < |keys| && (start + j) % |keys| == i && KeyAt(keys, start, j) == keys[i]
  {
    var n := |keys|;
    var j := if start <= i then i - start else i + n - start;
    WrapMod(start + j, n);
    assert 0 <= j < n && (start + j) % n == i && KeyAt(keys, start, j) == keys[i];
  }

  // ----- the request loop, as a function -----------------------------------

  /** Some attempt from `k` on answers with status 200. */
  predicate Answered(keys: seq<string>, start: nat, p: Payload, send: Send, k: nat)
    requires |keys| > 0
  {
    exists j :: k <= j < |keys| && send(p, j, KeyAt(keys, start, j)).Success?
  }

  /**
   * Attempts `k`, `k + 1`, ... `n - 1` of a round that starts at `start`:
   * the first status-200 attempt gives its content, which may be None, and
   * the index after its key; when no attempt answers 200 there is no
   * content and the index is back at `start`.
   */
  function Rotation(keys: seq<string>, start: nat, p: Payload, send: Send, k: nat): (r: (Option<string>, nat))
    requires keys == [] || start < |keys|
    requires k <= |keys|
    ensures keys != [] ==> r.1 < |keys|
    ensures keys == [] ==> r == (None, start)
    ensures keys != [] && !Answered(keys, start, p, send, k) ==> r == (None, start)
    decreases |keys| - k
  {
    if k == |keys| then (None, start)
    else
      match send(p, k, KeyAt(keys, start, k))
      case Success(c) => (c, (start + k + 1) % |keys|)
      case _ =>
        var r := Rotation(keys, start, p, send, k + 1);
        assert !Answered(keys, start, p, send, k) ==> !Answered(keys, start, p, send, k + 1);
        r
  }

  /** `x` brought below `n` by at most one subtraction. */
  function Wrapped(x: nat, n: nat): nat {
    if x < n then x else x - n
  }

  /** One attempt of the round: the key it uses, where the index moves, and what the rest of the round gives. */
  lemma RotationStep(keys: seq<string>, start: nat, p: Payload, send: Send, k: nat, cur: nat)
    requires start < |keys| && k < |keys| && cur == Wrapped(start + k, |keys|)
    ensures KeyAt(keys, start, k) == keys[cur]
    ensures (if cur + 1 < |keys| then cur + 1 else 0) == Wrapped(start + k + 1, |keys|) == (start + k + 1) % |keys|
    ensures send(p, k, keys[cur]).Success? ==>
      Rotation(keys, start, p, send, k) == (send(p, k, keys[cur]).content, (start + k + 1) % |keys|)
    ensures !send(p, k, keys[cur]).Success? ==> Rotation(keys, start, p, send, k) == Rotation(keys, start, p, send, k + 1)
  {
    WrapMod(start + k, |keys|);
    WrapMod(start + k + 1, |keys|);
  }

  /**
   * The round ends at the first attempt that answers 200: its content,
   * None included, is the result, the index points just past its key, and
   * no later key is tried.
   */
  lemma {:induction false} RotationFirstAnswer(keys: seq<string>, start: nat, p: Payload, send: Send, k: nat, j: nat)
    requires start < |keys| && k <= j < |keys|
    requires send(p, j, KeyAt(keys, start, j)).Success?
    requires forall i :: k <= i < j ==> !send(p, i, KeyAt(keys, start, i)).Success?
    ensures Rotation(keys, start, p, send, k) == (send(p, j, KeyAt(keys, start, j)).content, (start + j + 1) % |keys|)
    decreases j - k
  {
    if k < j {
      RotationFirstAnswer(keys, start, p, send, k + 1, j);
    }
  }

  /**
   * No content comes back exactly when no attempt answers 200, or the first
   * one that does carries a null content; in the first case the index is
   * back at `start`.
   */
  lemma {:induction false} RotationFails(keys: seq<string>, start: nat, p: Payload, send: Send, k: nat)
    requires start < |keys| && k <= |keys|
    ensures !Answered(keys, start, p, send, k) ==> Rotation(keys, start, p, send, k) == (None, start)
    ensures Rotation(keys, start, p, send, k).0.None? <==>
      !Answered(keys, start, p, send, k)
      || exists j :: k <= j < |keys| && send(p, j, KeyAt(keys, start, j)) == Success(None)
           && forall i :: k <= i < j ==> !send(p, i, KeyAt(keys, start, i)).Success?
    decreases |keys| - k
  {
    if k < |keys| {
      RotationFails(keys, start, p, send, k + 1);
      if send(p, k, KeyAt(keys, start, k)).Success? {
        assert Answered(keys, start, p, send, k);
        if send(p, k, KeyAt(keys, start, k)).content.None? {
          assert k <= k < |keys| && send(p, k, KeyAt(keys, start, k)) == Success(None);
        } else {
          forall j | k <= j < |keys| && send(p, j, KeyAt(keys, start, j)) == Success(None)
            ensures exists i :: k <= i < j && send(p, i, KeyAt(keys, start, i)).Success?
          {
            assert j != k;
          }
        }
      } else {
        assert Answered(keys, start, p, send, k) <==> Answered(keys, start, p, send, k + 1) by {
          if Answered(keys, start, p, send, k) {
            var j :| k <= j < |keys| && send(p, j, KeyAt(keys, start, j)).Success?;
            assert j != k;
          }
        }
      }
    }
  }

  /**
   * Content comes back from the first attempt that answers 200, and the
   * index then points just past that attempt's key.
   */
  lemma {:induction false} RotationSucceeds(keys: seq<string>, start: nat, p: Payload, send: Send, k: nat)
    requires start < |keys| && k <= |keys|
    ensures var r := Rotation(keys, start, p, send, k);
      r.0.Some? ==> (exists j :: k <= j < |keys| && send(p, j, KeyAt(keys, start, j)) == Success(r.0)
                      && r.1 == (start + j + 1) % |keys|
                      && forall i :: k <= i < j ==> !send(p, i, KeyAt(keys, start, i)).Success?)
    decreases |keys| - k
  {
    if k < |keys| {
      var r := Rotation(keys, start, p, send, k);
      if send(p, k, KeyAt(keys, start, k)).Success? {
        assert k <= k < |keys| && send(p, k, KeyAt(keys, start, k)) == Success(r.0)
          && r.1 == (start + k + 1) % |keys|;
      } else {
        RotationSucceeds(keys, start, p, send, k + 1);
      }
    }
  }

  // ----- replies -----------------------------------------------------------

  /** The journal-analysis result's fields. */
  datatype Insight = Insight(summary: string, sentiment: string, sentimentScore: real, keyThemes: seq<string>, recommendChat: bool)

  const FallbackInsight: Insight := Insight("Journal entry recorded successfully.", "neutral", 0.5, [], false)

  /** `c` occurs at `i` as a one-character string exactly when `s[i] == c`. */
  lemma OccursChar(s: string, c: char)
    ensures forall i :: Strings.OccursAt(s, [c], i) <==> 0 <= i < |s| && s[i] == c
  {
    forall i | 0 <= i < |s|
      ensures Strings.OccursAt(s, [c], i) <==> s[i] == c
    {
      assert s[i..i + 1] == [s[i]];
    }
  }

  /** `s.find(c)` for one character: the first position holding it. */
  lemma FindChar(s: string, c: char)
    ensures Strings.IndexOf(s, [c]).None? <==> c !in s
    ensures Strings.IndexOf(s, [c]).Some? ==> var i := Strings.IndexOf(s, [c]).value;
      i < |s| && s[i] == c && forall k :: 0 <= k < i ==> s[k] != c
  {
    OccursChar(s, c);
    if c in s {
      var k :| 0 <= k < |s| && s[k] == c;
      assert Strings.OccursAt(s, [c], k);
    }
  }

  /** `s.rfind(c)` for one character: the last position holding it. */
  lemma RFindChar(s: string, c: char)
    ensures Strings.LastIndexOf(s, [c]).None? <==> c !in s
    ensures Strings.LastIndexOf(s, [c]).Some? ==> var j := Strings.LastIndexOf(s, [c]).value;
      j < |s| && s[j] == c && forall k :: j < k < |s| ==> s[k] != c
  {
    OccursChar(s, c);
    if c in s {
      var k :| 0 <= k < |s| && s[k] == c;
      assert Strings.OccursAt(s, [c], k);
    }
  }

  /** `response[response.find('{'):response.rfind('}') + 1]`, when the end lies past the start. */
  function JsonSlice(response: string): (r: Option<string>) {
    match Strings.IndexOf(response, "{")
    case None => None
    case Some(i) =>
      match Strings.LastIndexOf(response, "}")
      case None => None
      case Some(j) => if j + 1 > i then Some(response[i..j + 1]) else None
  }

  /**
   * There is a slice exactly when some '{' comes before some '}', and then
   * it runs from the first '{' to the last '}', both included.
   */
  lemma JsonSliceFacts(s: string)
    ensures JsonSlice(s).Some? <==> exists i, j :: 0 <= i < j < |s| && s[i] == '{' && s[j] == '}'
    ensures JsonSlice(s).Some? ==>
      (exists i, j :: 0 <= i < j < |s| && JsonSlice(s).value == s[i..j + 1] && s[i] == '{' && s[j] == '}'
                      && (forall k :: 0 <= k < i ==> s[k] != '{') && (forall k :: j < k < |s| ==> s[k] != '}'))
  {
    FindChar(s, '{');
    RFindChar(s, '}');
    assert "{" == ['{'] && "}" == ['}'];
    if Strings.IndexOf(s, "{").Some? && Strings.LastIndexOf(s, "}").Some? {
      var i := Strings.IndexOf(s, "{").value;
      var j := Strings.LastIndexOf(s, "}").value;
      if j + 1 > i {
        assert s[i] != s[j];
        assert 0 <= i < j < |s| && JsonSlice(s).value == s[i..j + 1] && s[i] == '{' && s[j] == '}';
      } else {
        forall a, b | 0 <= a < b < |s| && s[a] == '{'
          ensures s[b] != '}'
        {
          assert i <= a;
        }
      }
    } else if Strings.IndexOf(s, "{").Some? {
      assert '}' !in s;
    }
  }

  /** The analysis a reply gives: the decoded slice when there is one, else the fallback. */
  function InsightFrom(response: Option<string>, decode: string -> Option<Insight>): (r: Insight)
    ensures !Truthy(response) ==> r == FallbackInsight
    ensures r == FallbackInsight || (Truthy(response) && JsonSlice(response.value).Some?
      && decode(JsonSlice(response.value).value) == Some(r))
    ensures Truthy(response) && JsonSlice(response.value).Some? && decode(JsonSlice(response.value).value).Some? ==>
      r == decode(JsonSlice(response.value).value).value
  {
    if !Truthy(response) then FallbackInsight
    else match JsonSlice(response.value)
      case None => FallbackInsight
      case Some(json) => if decode(json).Some? then decode(json).value else FallbackInsight
  }

  /** A reply that begins with a JSON object having no braces after it decodes that whole object. */
  lemma ObjectThenProse(obj: string, prose: string, decode: string -> Option<Insight>)
    requires |obj| >= 2 && obj[0] == '{' && obj[|obj| - 1] == '}' && '}' !in prose
    requires decode(obj).Some?
    ensures InsightFrom(Some(obj + prose), decode) == decode(obj).value
  {
    var s := obj + prose;
    FindChar(s, '{');
    RFindChar(s, '}');
    assert "{" == ['{'] && "}" == ['}'];
    assert s[0] == '{' && s[|obj| - 1] == '}';
    assert s[0..|obj|] == obj;
  }

  /** A reply with no '{' leaves the fallback. */
  lemma NoBraceFallback(response: string, decode: string -> Option<Insight>)
    requires '{' !in response
    ensures InsightFrom(Some(response), decode) == FallbackInsight
  {
    FindChar(response, '{');
    assert "{" == ['{'];
  }

  /** The reply when it is truthy, else the fixed fallback text. */
  function ReplyOr(response: Option<string>, fallback: string): (r: string)
    ensures Truthy(response) ==> r == response.value
    ensures !Truthy(response) ==> r == fallback
  {
    if Truthy(response) then response.value else fallback
  }

  // ----- prompts and messages ----------------------------------------------

  const JournalIntro: string := "You are analyzing a mental health journal entry to provide a brief summary and sentiment analysis.\n\nJournal Entry:\n"
  const JournalOutro: string := "\n\nProvide your analysis in the following JSON format:\n{\n    \"summary\": \"A brief 2-3 sentence summary of the journal entry\",\n    \"sentiment\": \"positive, negative, or neutral\",\n    \"sentiment_score\": 0.0 to 1.0 (where 0 is very negative, 0.5 is neutral, 1.0 is very positive),\n    \"key_themes\": [\"theme1\", \"theme2\", \"theme3\"],\n    \"recommend_chat\": true/false (recommend if sentiment is concerning or user seems to need support)\n}\n\nBe empathetic and understanding. Focus on the emotional content and mental state reflected in the entry.\nReturn ONLY the JSON object, no additional text."
  const HistorySystemPrompt: string := "You are an empathetic AI assistant helping to gather a user's mental health history for SafeSpace, a mental health support platform. Your role is strictly LIMITED to:\n\nWHAT YOU ARE:\n- A compassionate listener gathering background information\n- An empathetic conversationalist helping users feel comfortable sharing their story\n- A history-taking assistant (NOT a therapist, psychiatrist, or psychologist)\n\nWHAT YOU DO:\n- Ask gentle, open-ended questions about their mental health journey\n- Listen to their experiences and validate their feelings\n- Gather relevant history: past experiences, triggers, coping mechanisms, support systems\n- Help users feel heard and understood\n- Ask follow-up questions based on their journals and previous responses\n\nWHAT YOU NEVER DO:\n- Provide therapy, treatment, or clinical advice\n- Diagnose mental health conditions\n- Prescribe medications or treatments\n- Act as a mental health professional\n- Give clinical recommendations\n- Replace professional help\n\nBOUNDARIES:\n- If asked for therapy/treatment: \"I'm here to listen and understand your story, but I'm not a therapist. For professional support, please connect with one of our verified professionals.\"\n- If asked for diagnosis: \"I can't diagnose conditions. I'm here to help you share your experiences so professionals can better understand your journey.\"\n- Keep responses warm, brief (2-4 sentences), and focused on understanding their history\n- Ask ONE question at a time\n- Use their own words and experiences to guide follow-up questions\n\nCONVERSATION GOALS:\n1. Understand their mental health history and journey\n2. Identify patterns, triggers, and coping mechanisms\n3. Learn about their support system and past experiences\n4. Create a comprehensive background for professionals to review\n5. Make the user feel heard and validated\n\nRemember: You gather history empathetically, you do NOT provide therapy."
  const PatientIntro: string := "You are creating a clinical summary for a mental health professional reviewing a patient's journal entries and chat history. This summary will help the professional understand the patient's mental state, patterns, and concerns.\n\nPatient Journal Entries:\n"
  const PatientOutro: string := "\n\nGenerate a comprehensive clinical summary including:\n\n1. OVERVIEW: Brief summary of the patient's emotional state and main concerns\n2. KEY THEMES: Recurring themes, topics, and patterns across entries\n3. EMOTIONAL PATTERNS: Progression of emotions over time, any notable changes\n4. IDENTIFIED CONCERNS: Specific mental health concerns or risk factors noted\n5. COPING MECHANISMS: How the patient appears to be managing their challenges\n6. SUPPORT SYSTEM: Mentions of family, friends, or other support\n7. RECOMMENDATIONS: Suggested areas to explore in professional sessions\n\nFormat the summary in clear sections with bullet points. Be professional, objective, and empathetic. Focus on patterns and clinically relevant information.\n\nIMPORTANT: If you notice any immediate safety concerns (suicidal ideation, self-harm, severe distress), clearly highlight them at the beginning."

  const ContextPrefix: string := "Context: The user has been journaling. Recent themes: "
  const ChatFallback: string := "I'm here to listen and understand your story. Could you tell me a bit more about what's been on your mind lately?"
  const PatientFallback: string := "Unable to generate AI summary at this time. Please review the patient's journals directly."
  const ChatHeader: string := "\n\nChat History Summary:\n"

  /** The detected-emotions line, empty when there are none. */
  function EmotionsContext(detected: Option<string>): string {
    if Truthy(detected) then "\nDetected emotions from analysis: " + detected.value else ""
  }

  /** A prompt with `content` after `intro`, then a newline, the context and `outro`. */
  function PromptAround(intro: string, content: string, context: string, outro: string): (r: string)
    ensures Strings.OccursAt(r, content, |intro|)
    ensures context == "" ==> r == intro + content + "\n" + outro
  {
    var r := intro + content + "\n" + context + outro;
    assert r[|intro|..|intro| + |content|] == content;
    r
  }

  /** The journal-analysis prompt. */
  function JournalPrompt(content: string, detected: Option<string>): (r: string)
    ensures Strings.OccursAt(r, content, |JournalIntro|)
    ensures !Truthy(detected) ==> r == JournalIntro + content + "\n" + JournalOutro
  {
    PromptAround(JournalIntro, content, EmotionsContext(detected), JournalOutro)
  }

  function JournalMessages(content: string, detected: Option<string>): seq<Message> {
    [Message("user", JournalPrompt(content, detected))]
  }

  /** System prompt, the context message when there is a summary, the history, then the user's message. */
  function ChatMessages(userMessage: string, history: seq<Message>, journalsSummary: Option<string>): (r: seq<Message>)
    ensures |r| == |history| + (if Truthy(journalsSummary) then 3 else 2)
    ensures r[0] == Message("system", HistorySystemPrompt)
    ensures Truthy(journalsSummary) ==> r[1] == Message("system", ContextPrefix + journalsSummary.value)
    ensures r[|r| - 1 - |history|..|r| - 1] == history
    ensures r[|r| - 1] == Message("user", userMessage)
  {
    var head := [Message("system", HistorySystemPrompt)]
      + (if Truthy(journalsSummary) then [Message("system", ContextPrefix + journalsSummary.value)] else []);
    var r := head + history + [Message("user", userMessage)];
    assert r[|head|..|head| + |history|] == history;
    r
  }

  /** A journal record's fields; a missing key is `None` and takes the default. */
  datatype JournalRecord = JournalRecord(createdAt: Option<string>, content: Option<string>, detectedEmotions: Option<string>)

  /** A chat-history record's fields; a missing key is `None` and takes the default. */
  datatype ChatRecord = ChatRecord(role: Option<string>, content: Option<string>)

  function Or(s: Option<string>, default: string): string {
    if s.Some? then s.value else default
  }

  /** The block for the `idx`-th journal (from 1). */
  function EntryBlock(idx: nat, j: JournalRecord): string {
    "\n--- Entry " + Format.NatToString(idx) + " (" + Or(j.createdAt, "Unknown date") + ") ---\nEmotions: "
      + Or(j.detectedEmotions, "None detected") + "\nContent: " + Or(j.content, "") + "\n"
  }

  function EntryBlocks(journals: seq<JournalRecord>): (r: seq<string>)
    ensures |r| == |journals| && forall k :: 0 <= k < |journals| ==> r[k] == EntryBlock(k + 1, journals[k])
  {
    seq(|journals|, k requires 0 <= k < |journals| => EntryBlock(k + 1, journals[k]))
  }

  function JournalsText(journals: seq<JournalRecord>): string {
    Seqs.Concat(EntryBlocks(journals))
  }

  /** One more journal adds one block, numbered after the others, at the end. */
  lemma JournalsTextSnoc(journals: seq<JournalRecord>, j: JournalRecord)
    ensures JournalsText(journals + [j]) == JournalsText(journals) + EntryBlock(|journals| + 1, j)
  {
    var b := EntryBlocks(journals + [j]);
    assert b[..|journals|] == EntryBlocks(journals);
    assert b[..|journals| + 1] == b;
    Seqs.ConcatSnoc(b, |journals|);
  }

  function ChatLine(m: ChatRecord): string {
    Strings.Upper(Or(m.role, "unknown")) + ": " + Or(m.content, "") + "\n"
  }

  /** A record without a role is shown as "UNKNOWN", and one without content shows nothing after the colon. */
  lemma ChatLineDefaults(m: ChatRecord)
    ensures m.role.None? ==> ChatLine(m) == "UNKNOWN: " + Or(m.content, "") + "\n"
    ensures m.content.None? ==> ChatLine(m) == Strings.Upper(Or(m.role, "unknown")) + ": \n"
  {
    assert Strings.Upper("unknown") == "UNKNOWN";
  }

  function ChatLines(ms: seq<ChatRecord>): (r: seq<string>)
    ensures |r| == |ms| && forall k :: 0 <= k < |ms| ==> r[k] == ChatLine(ms[k])
  {
    seq(|ms|, k requires 0 <= k < |ms| => ChatLine(ms[k]))
  }

  /** The chat section of the patient prompt: empty without history, else the header and the last 20 messages. */
  function ChatText(chat: Option<seq<ChatRecord>>): string {
    if chat.None? || chat.value == [] then "" else ChatHeader + Seqs.Concat(ChatLines(Strings.LastN(chat.value, 20)))
  }

  /** At most twenty messages reach the prompt: anything before the last twenty makes no difference. */
  lemma ChatTextLastTwenty(older: seq<ChatRecord>, recent: seq<ChatRecord>)
    requires |recent| >= 20
    ensures Strings.LastN(older + recent, 20) == Strings.LastN(recent, 20)
    ensures |Strings.LastN(older + recent, 20)| == 20
    ensures ChatText(Some(older + recent)) == ChatText(Some(recent))
  {
    var h := older + recent;
    assert h[|h| - 20..] == recent[|recent| - 20..];
  }

  function PatientPrompt(journalsText: string, chatText: string): string {
    PatientIntro + journalsText + "\n" + chatText + PatientOutro
  }

  function PatientMessages(journals: seq<JournalRecord>, chat: Option<seq<ChatRecord>>): seq<Message> {
    [Message("user", PatientPrompt(JournalsText(journals), ChatText(chat)))]
  }

  /** The `journals_text` loop: one block per journal, numbered from 1, in order. */
  method BuildJournalsText(journals: seq<JournalRecord>) returns (text: string)
    ensures text == JournalsText(journals)
  {
    text := "";
    for i := 0 to |journals|
      invariant text == Seqs.Concat(EntryBlocks(journals)[..i])
    {
      Seqs.ConcatSnoc(EntryBlocks(journals), i);
      text := text + EntryBlock(i + 1, journals[i]);
    }
    assert EntryBlocks(journals)[..|journals|] == EntryBlocks(journals);
  }

  /** The `chat_text` loop over the last 20 messages. */
  method BuildChatText(chat: Option<seq<ChatRecord>>) returns (text: string)
    ensures text == ChatText(chat)
  {
    text := "";
    if chat.Some? && chat.value != [] {
      text := ChatHeader;
      var recent := Strings.LastN(chat.value, 20);
      ghost var lines := ChatLines(recent);
      for k := 0 to |recent|
        invariant text == ChatHeader + Seqs.Concat(lines[..k])
      {
        Seqs.ConcatSnocAfter(ChatHeader, lines, k);
        text := text + ChatLine(recent[k]);
      }
      assert lines[..|recent|] == lines;
    }
  }

  // ----- the service -------------------------------------------------------

  class OpenRouterAIService {
    var apiKeys: seq<string>
    var model: string
    var currentKeyIndex: nat

    /** The index always names a key, and is 0 when there are none. */
    predicate Valid()
      reads this
    {
      if apiKeys == [] then currentKeyIndex == 0 else currentKeyIndex < |apiKeys|
    }

    /** `__init__`: the configured keys without the empty ones, the model or its default, index 0. */
    constructor(configuredKeys: seq<string>, configuredModel: Option<string>)
      ensures Valid()
      ensures apiKeys == NonEmpty(configuredKeys) && currentKeyIndex == 0
      ensures model == if configuredModel.Some? then configuredModel.value else DefaultModel
    {
      apiKeys := NonEmpty(configuredKeys);
      model := if configuredModel.Some? then configuredModel.value else DefaultModel;
      currentKeyIndex := 0;
    }

    /** `_get_next_key`: the key at the index, the index moved one on, modulo the number of keys. */
    method GetNextKey() returns (r: Result<string, KeyError>)
      requires Valid()
      modifies this
      ensures Valid() && apiKeys == old(apiKeys) && model == old(model)
      ensures old(apiKeys) == [] ==> r == Err(NoKeysConfigured) && currentKeyIndex == old(currentKeyIndex)
      ensures old(apiKeys) != [] ==>
        r == Ok(apiKeys[old(currentKeyIndex)]) && currentKeyIndex == (old(currentKeyIndex) + 1) % |apiKeys|
    {
      if apiKeys == [] {
        return Err(NoKeysConfigured);
      }
      var key := apiKeys[currentKeyIndex];
      currentKeyIndex := (currentKeyIndex + 1) % |apiKeys|;
      r := Ok(key);
    }

    /** `_make_request`: one attempt per key, in rotation, until one succeeds. */
    method MakeRequest(messages: seq<Message>, maxTokens: nat, temperature: real, send: Send) returns (r: Option<string>)
      requires Valid()
      modifies this
      ensures Valid() && apiKeys == old(apiKeys) && model == old(model)
      ensures (r, currentKeyIndex) == Rotation(old(apiKeys), old(currentKeyIndex), Payload(model, messages, maxTokens, temperature), send, 0)
    {
      ghost var keys := apiKeys;
      ghost var start := currentKeyIndex;
      var p := Payload(model, messages, maxTokens, temperature);
      var attempt := 0;
      while attempt < |apiKeys|
        invariant Valid() && apiKeys == keys && model == old(model) && p.model == model
        invariant attempt <= |keys|
        invariant keys == [] ==> currentKeyIndex == start
        invariant keys != [] ==> currentKeyIndex == Wrapped(start + attempt, |keys|)
        invariant Rotation(keys, start, p, send, 0) == Rotation(keys, start, p, send, attempt)
      {
        ghost var cur := currentKeyIndex;
        RotationStep(keys, start, p, send, attempt, cur);
        var key := GetNextKey();
        WrapMod(cur + 1, |keys|);
        var outcome := send(p, attempt, key.value);
        if outcome.Success? {
          return outcome.content;
        }
        attempt := attempt + 1;
      }
      r := None;
    }

    /** `analyze_journal_summary`: the decoded JSON slice of the reply, else the neutral fallback. */
    method AnalyzeJournalSummary(journalContent: string, detectedEmotions: Option<string>, send: Send,
                                 decode: string -> Option<Insight>) returns (r: Insight)
      requires Valid()
      modifies this
      ensures Valid() && apiKeys == old(apiKeys) && model == old(model)
      ensures var out := Rotation(old(apiKeys), old(currentKeyIndex),
          Payload(model, JournalMessages(journalContent, detectedEmotions), 500, 0.5), send, 0);
        r == InsightFrom(out.0, decode) && currentKeyIndex == out.1
    {
      var response := MakeRequest(JournalMessages(journalContent, detectedEmotions), 500, 0.5, send);
      r := FallbackInsight;
      if response.Some? && response.value != "" {
        var json := JsonSlice(response.value);
        if json.Some? {
          var parsed := decode(json.value);
          if parsed.Some? {
            r := parsed.value;
          }
        }
      }
    }

    /** `get_history_chat_response`: the reply, else the fixed fallback reply. */
    method GetHistoryChatResponse(userMessage: string, history: seq<Message>, journalsSummary: Option<string>, send: Send)
      returns (reply: string)
      requires Valid()
      modifies this
      ensures Valid() && apiKeys == old(apiKeys) && model == old(model)
      ensures var out := Rotation(old(apiKeys), old(currentKeyIndex),
          Payload(model, ChatMessages(userMessage, history, journalsSummary), 300, 0.8), send, 0);
        reply == ReplyOr(out.0, ChatFallback) && currentKeyIndex == out.1
    {
      var messages := [Message("system", HistorySystemPrompt)];
      if journalsSummary.Some? && journalsSummary.value != "" {
        messages := messages + [Message("system", ContextPrefix + journalsSummary.value)];
      }
      messages := messages + history;
      messages := messages + [Message("user", userMessage)];
      assert messages == ChatMessages(userMessage, history, journalsSummary);
      var response := MakeRequest(messages, 300, 0.8, send);
      reply := if response.Some? && response.value != "" then response.value else ChatFallback;
    }

    /** `generate_patient_summary`: every journal's block, the last 20 chat messages, then the request. */
    method GeneratePatientSummary(journals: seq<JournalRecord>, chat: Option<seq<ChatRecord>>, send: Send)
      returns (summary: string)
      requires Valid()
      modifies this
      ensures Valid() && apiKeys == old(apiKeys) && model == old(model)
      ensures var out := Rotation(old(apiKeys), old(currentKeyIndex),
          Payload(model, PatientMessages(journals, chat), 2000, 0.6), send, 0);
        summary == ReplyOr(out.0, PatientFallback) && currentKeyIndex == out.1
    {
      var journalsText := BuildJournalsText(journals);
      var chatText := BuildChatText(chat);
      var response := MakeRequest([Message("user", PatientPrompt(journalsText, chatText))], 2000, 0.6, send);
      summary := if response.Some? && response.value != "" then response.value else PatientFallback;
    }
  }
}
