/**
 * The evaluation script of the empathetic-response model: the TinyLlama
 * chat prompt, the extraction of the reply from the decoded output, and
 * the choice of test examples (processed JSON first, else one reply per
 * raw conversation, at most `max_samples` of them).
 */
module TestMentalHealthModel {
  import opened Wrappers
  import Strings
  import Frames
  import Dialogues
  import Prompts
  import PED = ProcessEmpatheticDialogues

  const AssistantTag: string := "<|assistant|>"
  const EndOfSequence: string := "</s>"
  const EndOfText: string := "<|endoftext|>"

  // ----- format_prompt -----------------------------------------------------

  /** Everything of the prompt before the closing assistant tag. */
  function PromptBody(entry: string, es: seq<Prompts.EmotionItem>): string {
    "<|system|>\n" + Prompts.SystemMessage + "<|user|>\n"
    + "Journal Entry: " + entry + "\n\nIdentified Emotions: " + Prompts.EmotionsText(es)
    + "\n\n" + Prompts.ResponseTag
  }

  /** `format_prompt`: system, user and assistant turns of the chat template. */
  function FormatPrompt(entry: string, es: seq<Prompts.EmotionItem>): (r: string)
    ensures Strings.EndsWith(r, AssistantTag + "\n")
    ensures Strings.StartsWith(r, "<|system|>\n" + Prompts.SystemMessage)
  {
    var head := "<|system|>\n" + Prompts.SystemMessage;
    var r := PromptBody(entry, es) + AssistantTag + "\n";
    assert r[|r| - |AssistantTag + "\n"|..] == AssistantTag + "\n";
    assert r[..|head|] == head;
    r
  }

  /** The entry and the rendered emotions sit in the prompt, each after its own label. */
  lemma PromptHolds(entry: string, es: seq<Prompts.EmotionItem>)
    ensures var p := FormatPrompt(entry, es);
      var e := "<|system|>\n" + Prompts.SystemMessage + "<|user|>\n" + "Journal Entry: ";
      Strings.OccursAt(p, entry, |e|)
      && Strings.OccursAt(p, Prompts.EmotionsText(es), |e| + |entry| + |"\n\nIdentified Emotions: "|)
  {
    var e := "<|system|>\n" + Prompts.SystemMessage + "<|user|>\n" + "Journal Entry: ";
    var m := "\n\nIdentified Emotions: ";
    var tail := "\n\n" + Prompts.ResponseTag + AssistantTag + "\n";
    var p := FormatPrompt(entry, es);
    assert p == e + entry + m + Prompts.EmotionsText(es) + tail;
    assert p[|e|..|e| + |entry|] == entry;
    assert p[|e| + |entry| + |m|..|e| + |entry| + |m| + |Prompts.EmotionsText(es)|] == Prompts.EmotionsText(es);
  }

  // ----- the reply in the decoded output -------------------------------------

  /** `.replace("</s>", "").replace("<|endoftext|>", "")`. */
  function RemoveEndTokens(s: string): string {
    Strings.Replace(Strings.Replace(s, EndOfSequence, ""), EndOfText, "")
  }

  /** `text.replace(prompt, "")`; Python leaves the text as it is for an empty prompt with an empty replacement. */
  function RemovePrompt(text: string, prompt: string): string {
    if prompt == [] then text else Strings.Replace(text, prompt, "")
  }

  /**
   * The extraction in `generate_response`: the part after the last assistant
   * tag without end tokens; else the part after the last response label;
   * else the text with the prompt and the end tokens taken out.
   */
  function ExtractResponse(text: string, prompt: string): (r: string)
    ensures Strings.Stripped(r)
  {
    if Strings.Contains(text, AssistantTag) then
      Strings.Strip(RemoveEndTokens(Strings.Strip(Strings.LastPiece(text, AssistantTag))))
    else if Strings.Contains(text, Prompts.ResponseTag) then
      Strings.Strip(Strings.LastPiece(text, Prompts.ResponseTag))
    else
      Strings.Strip(RemoveEndTokens(Strings.Strip(RemovePrompt(text, prompt))))
  }

  lemma AssistantTagApart()
    ensures Strings.NoSelfOverlap(AssistantTag)
  {
    var t := AssistantTag;
    assert t == ['<', '|', 'a', 's', 's', 'i', 's', 't', 'a', 'n', 't', '|', '>'];
    Strings.NoSelfOverlapByHead(t);
  }

  /** Text free of both end tokens passes their removal unchanged. */
  lemma RemoveEndTokensAbsent(s: string)
    requires !Strings.Contains(s, EndOfSequence) && !Strings.Contains(s, EndOfText)
    ensures RemoveEndTokens(s) == s
  {
    Strings.ReplaceAbsent(s, EndOfSequence, "");
    Strings.ReplaceAbsent(s, EndOfText, "");
  }

  /** Whatever precedes the last assistant tag is dropped; the end tokens go. */
  lemma ExtractAfterAssistant(x: string, b: string, prompt: string)
    requires !Strings.Contains(b, AssistantTag)
    ensures ExtractResponse(x + AssistantTag + b, prompt) == Strings.Strip(RemoveEndTokens(Strings.Strip(b)))
  {
    var s := x + AssistantTag + b;
    assert s[|x|..|x| + |AssistantTag|] == AssistantTag;
    Strings.ContainsAt(s, AssistantTag, |x|);
    AssistantTagApart();
    Strings.LastPieceAfter(x, AssistantTag, b);
  }

  /** Without an assistant tag, what follows the last response label is the reply. */
  lemma ExtractAfterLabel(x: string, b: string, prompt: string)
    requires !Strings.Contains(x + Prompts.ResponseTag + b, AssistantTag) && !Strings.Contains(b, Prompts.ResponseTag)
    ensures ExtractResponse(x + Prompts.ResponseTag + b, prompt) == Strings.Strip(b)
  {
    var s := x + Prompts.ResponseTag + b;
    assert s[|x|..|x| + |Prompts.ResponseTag|] == Prompts.ResponseTag;
    Strings.ContainsAt(s, Prompts.ResponseTag, |x|);
    Prompts.ResponseTagApart();
    Strings.LastPieceAfter(x, Prompts.ResponseTag, b);
  }

  /**
   * Round trip with `format_prompt`: when the decoded output is the prompt
   * followed by a reply that holds no assistant tag and no end token, the
   * extraction returns the stripped reply.
   */
  lemma ExtractRoundTrip(entry: string, es: seq<Prompts.EmotionItem>, reply: string)
    requires !Strings.Contains(reply, AssistantTag)
    requires !Strings.Contains(reply, EndOfSequence) && !Strings.Contains(reply, EndOfText)
    ensures ExtractResponse(FormatPrompt(entry, es) + reply, FormatPrompt(entry, es)) == Strings.Strip(reply)
  {
    var x := PromptBody(entry, es);
    Strings.AppendAssoc(x + AssistantTag, "\n", reply);
    ExtractAfterTagLine(x, reply, FormatPrompt(entry, es));
  }

  /** A clean reply on its own line after the last assistant tag is extracted, stripped, whatever precedes the tag. */
  lemma ExtractAfterTagLine(x: string, reply: string, prompt: string)
    requires !Strings.Contains(reply, AssistantTag)
    requires !Strings.Contains(reply, EndOfSequence) && !Strings.Contains(reply, EndOfText)
    ensures ExtractResponse(x + AssistantTag + ("\n" + reply), prompt) == Strings.Strip(reply)
  {
    var b := "\n" + reply;
    Strings.NotContainsCons('\n', reply, AssistantTag);
    ExtractAfterAssistant(x, b, prompt);
    Strings.StripAfterNewline(reply);
    CleanReplyKept(reply);
  }

  /** A reply without end tokens is its own cleaned form once stripped. */
  lemma CleanReplyKept(reply: string)
    requires !Strings.Contains(reply, EndOfSequence) && !Strings.Contains(reply, EndOfText)
    ensures Strings.Strip(RemoveEndTokens(Strings.Strip(reply))) == Strings.Strip(reply)
  {
    var a, z := Strings.StripBounds(reply);
    Strings.NotContainsSlice(reply, EndOfSequence, a, z);
    Strings.NotContainsSlice(reply, EndOfText, a, z);
    RemoveEndTokensAbsent(Strings.Strip(reply));
    Strings.StripIdempotent(reply);
  }

  // ----- load_test_data ------------------------------------------------------

  /** One test example. */
  datatype TestExample = TestExample(journalEntry: string, emotion: string, response: string)

  /** The replacements and strips of the loader's `clean_text`: only `_comma_` and `_period_` are replaced. */
  function CleanString(s: string): (r: string)
    ensures Strings.Stripped(r)
  {
    Strings.Strip(Strings.Replace(Strings.Replace(Strings.Strip(s), "_comma_", ","), "_period_", "."))
  }

  /** The loader's own `clean_text`. */
  function CleanText(c: Frames.Cell): (r: string)
    ensures PED.IsMissing(c) ==> r == ""
    ensures Strings.Stripped(r)
  {
    if PED.IsMissing(c) then "" else CleanString(Frames.CellText(c))
  }

  /** `_comma_` between two texts without underscores becomes a comma. */
  lemma CleanComma(a: string, b: string)
    requires '_' !in a && '_' !in b
    requires (a == [] || !Strings.IsSpace(a[0])) && (b == [] || !Strings.IsSpace(b[|b| - 1]))
    ensures CleanText(Frames.Str(a + "_comma_" + b)) == a + "," + b
  {
    var s := a + "_comma_" + b;
    assert Frames.CellText(Frames.Str(s)) == s && |s| >= 7;
    assert !PED.IsMissing(Frames.Str(s));
    CleanStringComma(a, b);
  }

  lemma CleanStringComma(a: string, b: string)
    requires '_' !in a && '_' !in b
    requires (a == [] || !Strings.IsSpace(a[0])) && (b == [] || !Strings.IsSpace(b[|b| - 1]))
    ensures CleanString(a + "_comma_" + b) == a + "," + b
  {
    var s := a + "_comma_" + b;
    var r := a + "," + b;
    CommaStripped(a, b);
    Strings.NoHeadNoContains(b, "_comma_");
    Strings.ReplaceOnce(a, "_comma_", ",", b);
    var t1 := Strings.Replace(Strings.Strip(s), "_comma_", ",");
    assert t1 == r;
    CommaNoUnderscore(a, b);
    Strings.NoHeadNoContains(r, "_period_");
    Strings.ReplaceAbsent(r, "_period_", ".");
    CommaStripped2(a, b);
  }

  lemma CommaStripped(a: string, b: string)
    requires (a == [] || !Strings.IsSpace(a[0])) && (b == [] || !Strings.IsSpace(b[|b| - 1]))
    ensures Strings.Strip(a + "_comma_" + b) == a + "_comma_" + b
  {
    var s := a + "_comma_" + b;
    assert s[|s| - 1] == (if b == [] then '_' else b[|b| - 1]);
    assert s[0] == (if a == [] then '_' else a[0]);
    Strings.StripStripped(s);
  }

  lemma CommaStripped2(a: string, b: string)
    requires (a == [] || !Strings.IsSpace(a[0])) && (b == [] || !Strings.IsSpace(b[|b| - 1]))
    ensures Strings.Strip(a + "," + b) == a + "," + b
  {
    var r := a + "," + b;
    assert r[|r| - 1] == (if b == [] then ',' else b[|b| - 1]);
    assert r[0] == (if a == [] then ',' else a[0]);
    Strings.StripStripped(r);
  }

  lemma CommaNoUnderscore(a: string, b: string)
    requires '_' !in a && '_' !in b
    ensures '_' !in a + "," + b
  {
  }

  /** Row `k` can be the reply: not an opening row, another speaker, cleaned length over 10. */
  function ReplyMask(rows: seq<Dialogues.Utterance>, speaker: int): (m: seq<bool>)
    ensures |m| == |rows|
    ensures forall k :: 0 <= k < |rows| ==>
      m[k] == (rows[k].utteranceIdx != 1 && rows[k].speakerIdx != speaker && |CleanText(rows[k].utterance)| > 10)
  {
    seq(|rows|, k requires 0 <= k < |rows| =>
      rows[k].utteranceIdx != 1 && rows[k].speakerIdx != speaker && |CleanText(rows[k].utterance)| > 10)
  }

  /** The first set position of a mask at or after `i`. */
  function FirstSetFrom(m: seq<bool>, i: nat): (r: Option<nat>)
    requires i <= |m|
    ensures r.Some? ==> i <= r.value < |m| && m[r.value]
    decreases |m| - i
  {
    if i == |m| then None
    else if m[i] then Some(i)
    else FirstSetFrom(m, i + 1)
  }

  /** The first set position of a mask. */
  function FirstSet(m: seq<bool>): (r: Option<nat>) {
    FirstSetFrom(m, 0)
  }

  /** `FirstSet` finds the first set position, and none when no position is set. */
  lemma {:induction false} FirstSetFromFirst(m: seq<bool>, i: nat)
    requires i <= |m|
    ensures FirstSetFrom(m, i).Some? ==> forall j :: i <= j < FirstSetFrom(m, i).value ==> !m[j]
    ensures FirstSetFrom(m, i).None? ==> forall j :: i <= j < |m| ==> !m[j]
    decreases |m| - i
  {
    if i < |m| {
      FirstSetFromFirst(m, i + 1);
    }
  }

  /**
   * What one conversation contributes: the opening row's cleaned prompt
   * and context, which must both be non-empty, and the first candidate
   * reply, the speaker being that of the first opening row throughout.
   */
  function Contribution(g: Dialogues.Group): (r: Option<TestExample>)
  {
    match Dialogues.Opening(g.rows)
    case None => None
    case Some(o) =>
      var entry := CleanText(g.rows[o].prompt);
      var emotion := CleanText(g.rows[o].context);
      if entry == [] || emotion == [] then None
      else match FirstSet(ReplyMask(g.rows, g.rows[o].speakerIdx))
        case None => None
        case Some(k) => Some(TestExample(entry, emotion, CleanText(g.rows[k].utterance)))
  }

  /**
   * A contributed example has a non-empty entry and emotion from the
   * opening row and a reply over 10 characters from a later speaker's
   * non-opening row, the first such row.
   */
  lemma ContributionFacts(g: Dialogues.Group)
    ensures Contribution(g).Some? ==>
      var o := Dialogues.Opening(g.rows).value;
      var e := Contribution(g).value;
      e.journalEntry == CleanText(g.rows[o].prompt) != [] && e.emotion == CleanText(g.rows[o].context) != []
      && (exists k :: 0 <= k < |g.rows| && g.rows[k].utteranceIdx != 1
            && g.rows[k].speakerIdx != g.rows[o].speakerIdx && e.response == CleanText(g.rows[k].utterance) && |e.response| > 10)
  {
    if Contribution(g).Some? {
      var o := Dialogues.Opening(g.rows).value;
      var k := FirstSet(ReplyMask(g.rows, g.rows[o].speakerIdx)).value;
      assert ReplyMask(g.rows, g.rows[o].speakerIdx)[k];
    }
  }

  function Contributions(groups: seq<Dialogues.Group>): (r: seq<Option<TestExample>>)
    ensures |r| == |groups| && forall k :: 0 <= k < |groups| ==> r[k] == Contribution(groups[k])
  {
    seq(|groups|, k requires 0 <= k < |groups| => Contribution(groups[k]))
  }

  /** The examples so far and the ids of the conversations they came from. */
  datatype Gathered = Gathered(examples: seq<TestExample>, seen: set<string>)

  /**
   * The loop over conversations: once `max` examples are taken nothing more
   * is added (the `break`), an id already seen is skipped, and otherwise a
   * conversation's contribution, if any, is appended.
   */
  function Gather(groups: seq<Dialogues.Group>, outs: seq<Option<TestExample>>, max: int): (r: Gathered)
    requires |outs| == |groups|
  {
    if groups == [] then Gathered([], {})
    else
      var n := |groups| - 1;
      var prev := Gather(groups[..n], outs[..n], max);
      if |prev.examples| >= max || groups[n].convId in prev.seen || outs[n].None? then prev
      else Gathered(prev.examples + [outs[n].value], prev.seen + {groups[n].convId})
  }

  /**
   * At most `max` examples, one per conversation: as many examples as
   * conversation ids seen, each id that of a group, and each example some
   * conversation's contribution.
   */
  lemma {:induction false} GatherFacts(groups: seq<Dialogues.Group>, outs: seq<Option<TestExample>>, max: int, k: nat)
    requires |outs| == |groups|
    ensures var r := Gather(groups, outs, max);
      |r.examples| <= (if max < 0 then 0 else max)
      && |r.examples| == |r.seen|
      && (forall id :: id in r.seen ==> exists i :: 0 <= i < |groups| && groups[i].convId == id)
      && (k < |r.examples| ==> exists i :: 0 <= i < |groups| && outs[i] == Some(r.examples[k]))
  {
    if groups != [] {
      var n := |groups| - 1;
      GatherFacts(groups[..n], outs[..n], max, k);
      var prev := Gather(groups[..n], outs[..n], max);
      forall id | id in prev.seen ensures exists i :: 0 <= i < |groups| && groups[i].convId == id {
        var i :| 0 <= i < n && groups[..n][i].convId == id;
        assert groups[i] == groups[..n][i];
      }
      if k < |prev.examples| {
        var i :| 0 <= i < n && outs[..n][i] == Some(prev.examples[k]);
        assert outs[i] == outs[..n][i];
      }
    }
  }

  /** Once `max` examples are taken, later conversations change nothing. */
  lemma {:induction false} GatherSaturated(groups: seq<Dialogues.Group>, outs: seq<Option<TestExample>>, max: int, i: nat)
    requires |outs| == |groups| && i <= |groups|
    requires |Gather(groups[..i], outs[..i], max).examples| >= max
    ensures Gather(groups, outs, max) == Gather(groups[..i], outs[..i], max)
    decreases |groups| - i
  {
    if i < |groups| {
      assert groups[..i + 1][..i] == groups[..i] && outs[..i + 1][..i] == outs[..i];
      GatherSaturated(groups, outs, max, i + 1);
    } else {
      assert groups[..i] == groups && outs[..i] == outs;
    }
  }

  /** Python's `xs[:m]`, where a negative `m` drops `-m` items from the end. */
  function SliceTo<T>(xs: seq<T>, m: int): (r: seq<T>)
    ensures |r| == if m >= 0 then (if m < |xs| then m else |xs|) else (if |xs| + m > 0 then |xs| + m else 0)
    ensures r == xs[..|r|]
  {
    if m >= 0 then Strings.FirstN(xs, m)
    else if |xs| + m > 0 then xs[..|xs| + m] else []
  }

  /**
   * `load_test_data`: `processed` is the processed JSON, `test` and
   * `valid` the raw CSV files, each `None` when the file does not exist.
   */
  function LoadTestData(processed: Option<seq<TestExample>>, test: Option<seq<Dialogues.Utterance>>,
                        valid: Option<seq<Dialogues.Utterance>>, max: int): (r: seq<TestExample>)
  {
    match processed
    case Some(data) => SliceTo(data, max)
    case None =>
      var csv := if test.Some? then test else valid;
      match csv
      case None => []
      case Some(rows) =>
        var groups := Dialogues.GroupBy(rows);
        Gather(groups, Contributions(groups), max).examples
  }

  /**
   * The processed JSON wins and is cut to `max_samples`; otherwise the raw
   * test file, then the validation file, is read; with neither there are no
   * examples; never more than `max_samples`.
   */
  lemma LoadTestDataFacts(processed: Option<seq<TestExample>>, test: Option<seq<Dialogues.Utterance>>,
                          valid: Option<seq<Dialogues.Utterance>>, max: int)
    ensures processed.Some? ==> LoadTestData(processed, test, valid, max) == SliceTo(processed.value, max)
    ensures processed.None? && test.None? && valid.None? ==> LoadTestData(processed, test, valid, max) == []
    ensures processed.None? && test.Some? ==>
      LoadTestData(processed, test, valid, max) == LoadTestData(None, test, None, max)
    ensures processed.None? ==> |LoadTestData(processed, test, valid, max)| <= (if max < 0 then 0 else max)
  {
    if processed.None? {
      var csv := if test.Some? then test else valid;
      if csv.Some? {
        var groups := Dialogues.GroupBy(csv.value);
        GatherFacts(groups, Contributions(groups), max, 0);
      }
    }
  }

  // ----- the loops -------------------------------------------------------------

  /** The inner loop: `continue` on opening rows, `break` at the first long enough reply by another speaker. */
  method FindReply(rows: seq<Dialogues.Utterance>, speaker: int) returns (k: Option<nat>)
    ensures k == FirstSet(ReplyMask(rows, speaker))
  {
    ghost var m := ReplyMask(rows, speaker);
    var i := 0;
    while i < |rows|
      invariant 0 <= i <= |rows|
      invariant FirstSetFrom(m, i) == FirstSet(m)
    {
      if rows[i].utteranceIdx != 1 && rows[i].speakerIdx != speaker {
        var response := CleanText(rows[i].utterance);
        if response != [] && |response| > 10 {
          return Some(i);
        }
      }
      i := i + 1;
    }
    return None;
  }

  method Contribute(g: Dialogues.Group) returns (r: Option<TestExample>)
    ensures r == Contribution(g)
  {
    var o := Dialogues.Opening(g.rows);
    if o.None? {
      return None;
    }
    var entry := CleanText(g.rows[o.value].prompt);
    var emotion := CleanText(g.rows[o.value].context);
    if entry == [] || emotion == [] {
      return None;
    }
    var k := FindReply(g.rows, g.rows[o.value].speakerIdx);
    if k.None? {
      return None;
    }
    return Some(TestExample(entry, emotion, CleanText(g.rows[k.value].utterance)));
  }

  /** One more conversation, as the loop body treats it. */
  lemma GatherSnoc(groups: seq<Dialogues.Group>, outs: seq<Option<TestExample>>, max: int, i: nat)
    requires |outs| == |groups| && i < |groups|
    ensures var prev := Gather(groups[..i], outs[..i], max);
      Gather(groups[..i + 1], outs[..i + 1], max)
      == if |prev.examples| >= max || groups[i].convId in prev.seen || outs[i].None? then prev
         else Gathered(prev.examples + [outs[i].value], prev.seen + {groups[i].convId})
  {
    assert groups[..i + 1][..i] == groups[..i] && outs[..i + 1][..i] == outs[..i];
  }

  /** The outer loop of the raw-CSV path, with its `seen_convs` set and `max_samples` break. */
  method GatherExamples(groups: seq<Dialogues.Group>, max: int) returns (out: seq<TestExample>)
    ensures out == Gather(groups, Contributions(groups), max).examples
  {
    ghost var outs := Contributions(groups);
    out := [];
    var seen: set<string> := {};
    var i := 0;
    while i < |groups|
      invariant 0 <= i <= |groups|
      invariant Gathered(out, seen) == Gather(groups[..i], outs[..i], max)
    {
      GatherSnoc(groups, outs, max, i);
      if |out| >= max {
        GatherSaturated(groups, outs, max, i);
        return;
      }
      var g := groups[i];
      if g.convId in seen {
        i := i + 1;
        continue;
      }
      var p := Contribute(g);
      assert p == outs[i];
      if p.Some? {
        out := out + [p.value];
        seen := seen + {g.convId};
      }
      i := i + 1;
    }
    assert groups[..i] == groups && outs[..i] == outs;
  }
}
