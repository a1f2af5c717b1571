/**
 * Training-data synthesis for the summary model: the text normaliser, the
 * classifier's label configuration and batched scoring, the template
 * summary, the prompt of one training example, and the separator file.
 */
module SynthesizeTrainingData {
  import opened Wrappers
  import Strings
  import Format
  import Sorting
  import Frames
  import PrepareDepressionEmo

  /** An emotion-score dict, as its items in insertion order. */
  type Scores = seq<(string, real)>

  // ----- preprocess_text -------------------------------------------------

  const EmptySentinel: string := "[empty]"

  /** The sentinel is itself a clean text. */
  lemma SentinelClean()
    ensures Strings.Stripped(EmptySentinel) && Strings.NoDoubleSpace(EmptySentinel) && Strings.OnlyPlainSpaces(EmptySentinel)
  {
    var s := EmptySentinel;
    assert s == ['[', 'e', 'm', 'p', 't', 'y', ']'];
    forall i | 0 <= i < |s| ensures !Strings.IsSpace(s[i]) {
      assert s[i] in "[empty]";
    }
  }

  /** The URL, mention and `[deleted]` removal is the regex step `stripNoise`; then `\s+` and strip. */
  function Clean(text: string, stripNoise: string -> string): (r: string)
    ensures Strings.Stripped(r) && Strings.NoDoubleSpace(r) && Strings.OnlyPlainSpaces(r)
  {
    var c := Strings.CollapseSpaces(stripNoise(text));
    Strings.CollapsedStripped(stripNoise(text));
    Strings.OnlyPlainSpacesStrip(c);
    Strings.Strip(c)
  }

  /**
   * `preprocess_text`: a non-string value is stringified first; output of
   * fewer than 3 characters becomes the sentinel.
   */
  function PreprocessText(value: Frames.Cell, stripNoise: string -> string): (r: string)
    ensures |r| >= 3
    ensures Strings.Stripped(r) && Strings.NoDoubleSpace(r)
    ensures r == EmptySentinel || r == Clean(Frames.CellText(value), stripNoise)
    ensures |Clean(Frames.CellText(value), stripNoise)| < 3 <==> r == EmptySentinel && Clean(Frames.CellText(value), stripNoise) != EmptySentinel
  {
    var t := Clean(Frames.CellText(value), stripNoise);
    SentinelClean();
    if |t| < 3 then EmptySentinel else t
  }

  /** Normalising twice is normalising once, whenever the noise filter leaves its own output alone. */
  lemma PreprocessIdempotent(value: Frames.Cell, stripNoise: string -> string)
    requires stripNoise(PreprocessText(value, stripNoise)) == PreprocessText(value, stripNoise)
    ensures PreprocessText(Frames.Str(PreprocessText(value, stripNoise)), stripNoise) == PreprocessText(value, stripNoise)
  {
    var r := PreprocessText(value, stripNoise);
    if r == EmptySentinel {
      SentinelClean();
    } else {
      Strings.CollapsedStripped(stripNoise(Frames.CellText(value)));
      Strings.OnlyPlainSpacesStrip(Strings.CollapseSpaces(stripNoise(Frames.CellText(value))));
    }
    Strings.CollapseFixed(r);
    Strings.StripStripped(r);
  }

  // ----- EmotionClassifier ----------------------------------------------

  /** `emotion_info.json`: its two keys, None when absent. */
  datatype EmotionInfo = EmotionInfo(emotionNames: Option<seq<string>>, optimalThresholds: Option<seq<real>>)

  datatype ClassifierError = ModelNotFound | KeyMissing(key: string) | EmptyPrediction | BadRange

  datatype Classifier = Classifier(emotionNames: seq<string>, optimalThresholds: seq<real>)

  /** `EmotionClassifier.__init__` without the model weights. */
  function LoadClassifier(modelExists: bool, info: Option<EmotionInfo>): (r: Result<Classifier, ClassifierError>)
    ensures !modelExists ==> r == Err(ModelNotFound)
    ensures modelExists && info.None? ==> r == Ok(Classifier(PrepareDepressionEmo.StandardEmotions, HalfEach(8)))
    ensures modelExists && info.Some? && info.value.emotionNames.None? ==> r == Err(KeyMissing("emotion_names"))
    ensures modelExists && info.Some? && info.value.emotionNames.Some? ==>
      r.Ok? && r.value.emotionNames == info.value.emotionNames.value
      && r.value.optimalThresholds == info.value.optimalThresholds.GetOr(HalfEach(|r.value.emotionNames|))
  {
    if !modelExists then Err(ModelNotFound)
    else match info
      case None => Ok(Classifier(PrepareDepressionEmo.StandardEmotions, HalfEach(|PrepareDepressionEmo.StandardEmotions|)))
      case Some(ei) =>
        match ei.emotionNames
        case None => Err(KeyMissing("emotion_names"))
        case Some(names) => Ok(Classifier(names, ei.optimalThresholds.GetOr(HalfEach(|names|))))
  }

  /** `[0.5] * n`. */
  function HalfEach(n: nat): (r: seq<real>)
    ensures |r| == n && forall k :: 0 <= k < n ==> r[k] == 0.5
  {
    seq(n, _ => 0.5)
  }

  /** Without a stored threshold list, every label has threshold 0.5, one per label. */
  lemma DefaultThresholds(modelExists: bool, info: Option<EmotionInfo>)
    requires modelExists && (info.None? || (info.value.emotionNames.Some? && info.value.optimalThresholds.None?))
    ensures var c := LoadClassifier(modelExists, info).value;
      |c.optimalThresholds| == |c.emotionNames| && forall k :: 0 <= k < |c.optimalThresholds| ==> c.optimalThresholds[k] == 0.5
  {
  }

  /** The score dict `{emotion: score for emotion, score in zip(names, row)}`; zip stops at the shorter. */
  function ZipScores(names: seq<string>, row: seq<real>): (r: Scores)
    ensures |r| == if |names| < |row| then |names| else |row|
    ensures forall k :: 0 <= k < |r| ==> r[k] == (names[k], row[k])
  {
    seq(if |names| < |row| then |names| else |row|, k requires 0 <= k < |names| && k < |row| => (names[k], row[k]))
  }

  /** The texts the model sees: wrapped if a single string, normalised if asked. */
  function ModelInputs(texts: seq<Frames.Cell>, preprocess: bool, stripNoise: string -> string): (r: seq<string>)
    ensures |r| == |texts|
    ensures forall k :: 0 <= k < |texts| ==> r[k] == if preprocess then PreprocessText(texts[k], stripNoise) else Frames.CellText(texts[k])
  {
    seq(|texts|, k requires 0 <= k < |texts| => if preprocess then PreprocessText(texts[k], stripNoise) else Frames.CellText(texts[k]))
  }

  /** The inputs of `predict_emotions`: a str is wrapped in a one-element list. */
  datatype TextsArg = One(text: string) | Many(texts: seq<Frames.Cell>)

  function AsList(arg: TextsArg): (r: seq<Frames.Cell>)
    ensures arg.One? ==> r == [Frames.Str(arg.text)]
    ensures arg.Many? ==> r == arg.texts
  {
    match arg
    case One(t) => [Frames.Str(t)]
    case Many(ts) => ts
  }

  /** The rows the model produces for some texts, one per text; `probsOf` is the model. */
  function ModelRows(inputs: seq<string>, probsOf: string -> seq<real>): (r: seq<seq<real>>)
    ensures |r| == |inputs| && forall k :: 0 <= k < |inputs| ==> r[k] == probsOf(inputs[k])
  {
    seq(|inputs|, k requires 0 <= k < |inputs| => probsOf(inputs[k]))
  }

  /** The rows of the texts up to `end` are those up to `i` followed by those of the batch between. */
  lemma ModelRowsAppend(texts: seq<string>, i: nat, end: nat, probsOf: string -> seq<real>)
    requires i <= end <= |texts|
    ensures ModelRows(texts[..end], probsOf) == ModelRows(texts[..i], probsOf) + ModelRows(texts[i..end], probsOf)
  {
    assert texts[..end] == texts[..i] + texts[i..end];
  }

  /** One score dict per stacked row, in order. */
  function ScoreRows(names: seq<string>, rows: seq<seq<real>>): (r: seq<Scores>)
    ensures |r| == |rows| && forall k :: 0 <= k < |rows| ==> r[k] == ZipScores(names, rows[k])
  {
    seq(|rows|, k requires 0 <= k < |rows| => ZipScores(names, rows[k]))
  }

  lemma ScoreRowsSnoc(names: seq<string>, rows: seq<seq<real>>, j: nat)
    requires j < |rows|
    ensures ScoreRows(names, rows[..j + 1]) == ScoreRows(names, rows[..j]) + [ZipScores(names, rows[j])]
  {
  }

  /**
   * `predict_emotions`: batches of `batchSize` are scored in order and
   * stacked; each row becomes a score dict. `range` with step 0 and
   * `np.vstack([])` raise, hence the errors.
   */
  method PredictEmotions(c: Classifier, arg: TextsArg, batchSize: int, useThresholds: bool, preprocess: bool,
                         stripNoise: string -> string, probsOf: string -> seq<real>)
    returns (r: Result<seq<Scores>, ClassifierError>)
    ensures batchSize == 0 ==> r == Err(BadRange)
    ensures batchSize < 0 || AsList(arg) == [] ==> r.Err?
    ensures batchSize > 0 && AsList(arg) != [] ==>
      r.Ok? && |r.value| == |AsList(arg)|
      && forall k :: 0 <= k < |r.value| ==>
           r.value[k] == ZipScores(c.emotionNames, probsOf(ModelInputs(AsList(arg), preprocess, stripNoise)[k]))
  {
    var texts := ModelInputs(AsList(arg), preprocess, stripNoise);
    if batchSize == 0 {
      return Err(BadRange);
    }
    if batchSize < 0 || |texts| == 0 {
      return Err(EmptyPrediction);
    }
    var allProbs: seq<seq<real>> := [];
    var i := 0;
    while i < |texts|
      invariant 0 <= i <= |texts|
      invariant allProbs == ModelRows(texts[..i], probsOf)
    {
      var end := if i + batchSize < |texts| then i + batchSize else |texts|;
      var batch := texts[i..end];
      ModelRowsAppend(texts, i, end, probsOf);
      allProbs := allProbs + ModelRows(batch, probsOf);
      i := end;
    }
    assert texts[..i] == texts;
    var results: seq<Scores> := [];
    var j := 0;
    while j < |allProbs|
      invariant 0 <= j <= |allProbs|
      invariant results == ScoreRows(c.emotionNames, allProbs[..j])
    {
      ScoreRowsSnoc(c.emotionNames, allProbs, j);
      if useThresholds && |c.optimalThresholds| == |allProbs[j]| {
        results := results + [ZipScores(c.emotionNames, allProbs[j])];
      } else {
        results := results + [ZipScores(c.emotionNames, allProbs[j])];
      }
      j := j + 1;
    }
    r := Ok(results);
  }

  // ----- generate_empathetic_summary_template ----------------------------

  function Values(scores: Scores): (r: seq<real>)
    ensures |r| == |scores| && forall k :: 0 <= k < |scores| ==> r[k] == scores[k].1
  {
    seq(|scores|, k requires 0 <= k < |scores| => scores[k].1)
  }

  /** `{e: s for e, s in scores.items() if s > 0.3}`, in dict order. */
  function Significant(scores: Scores): (r: Scores)
    ensures forall p :: p in r <==> p in scores && p.1 > 0.3
    ensures |r| <= |scores|
  {
    if scores == [] then []
    else
      var last := scores[|scores| - 1];
      assert scores == scores[..|scores| - 1] + [last];
      Significant(scores[..|scores| - 1]) + (if last.1 > 0.3 then [last] else [])
  }

  datatype SummaryError = EmptyScores

  /** The emotions a summary may mention: the significant ones, else the first top-scoring one. */
  function Chosen(scores: Scores): (r: Result<Scores, SummaryError>)
    ensures r.Err? <==> scores == []
    ensures r.Ok? ==> r.value != [] && forall p :: p in r.value ==> p in scores
  {
    var sig := Significant(scores);
    if sig != [] then Ok(sig)
    else if scores == [] then Err(EmptyScores)
    else Ok([scores[Sorting.ArgMax(Values(scores))]])
  }

  function Score(p: (string, real)): real { p.1 }

  /** `sorted(chosen.items(), key=score, reverse=True)[:3]`. */
  function Mentioned(chosen: Scores): (r: Scores)
    ensures |r| <= 3 && (chosen != [] ==> |r| >= 1)
  {
    Strings.FirstN(Sorting.SortedBy(chosen, Score), 3)
  }

  /** Mentioned entries come from the chosen ones, one to three of them, by non-increasing score. */
  lemma MentionedOf(c: Scores)
    requires c != []
    ensures var m := Mentioned(c);
      1 <= |m| <= 3
      && (forall p :: p in m ==> p in c)
      && (forall j, k :: 0 <= j < k < |m| ==> m[j].1 >= m[k].1)
  {
    var s := Sorting.SortedBy(c, Score);
    forall p | p in Mentioned(c) ensures p in c {
      assert p in multiset(s);
    }
  }

  /** The mentioned emotions are one to three entries of the score dict, in non-increasing score order. */
  lemma MentionedSorted(scores: Scores)
    requires scores != []
    ensures var m := Mentioned(Chosen(scores).value);
      1 <= |m| <= 3
      && (forall p :: p in m ==> p in scores)
      && (forall j, k :: 0 <= j < k < |m| ==> m[j].1 >= m[k].1)
  {
    MentionedOf(Chosen(scores).value);
  }

  /** They are the top three: no candidate left out scores above the last one mentioned. */
  lemma MentionedTop(scores: Scores)
    requires scores != []
    ensures var m := Mentioned(Chosen(scores).value);
      forall p :: p in Chosen(scores).value && p !in m ==> p.1 <= m[|m| - 1].1
  {
    MentionedTopOf(Chosen(scores).value);
  }

  lemma MentionedTopOf(c: Scores)
    requires c != []
    ensures var m := Mentioned(c);
      forall p :: p in c && p !in m ==> p.1 <= m[|m| - 1].1
  {
    var s := Sorting.SortedBy(c, Score);
    var m := Mentioned(c);
    PrefixTop(s, |m|);
    forall p | p in c && p !in m ensures p.1 <= m[|m| - 1].1 {
      assert p in multiset(s);
    }
  }

  /** In a list sorted by non-increasing score, nothing after the first `n` scores above the `n`-th. */
  lemma PrefixTop(s: Scores, n: nat)
    requires 1 <= n <= |s|
    requires forall i, j :: 0 <= i < j < |s| ==> Score(s[i]) >= Score(s[j])
    ensures forall p :: p in s && p !in s[..n] ==> p.1 <= s[n - 1].1
  {
    forall i | 0 <= i < n ensures s[i] in s[..n] {
      assert s[..n][i] == s[i];
    }
    forall p | p in s && p !in s[..n] ensures p.1 <= s[n - 1].1 {
      var k :| 0 <= k < |s| && s[k] == p;
      assert n <= k;
      assert Score(s[n - 1]) >= Score(s[k]);
    }
  }

  /** When some emotion scores above 0.3, every mentioned one does. */
  lemma MentionedSignificant(scores: Scores)
    requires exists p :: p in scores && p.1 > 0.3
    ensures forall p :: p in Mentioned(Chosen(scores).value) ==> p.1 > 0.3
  {
    var q :| q in scores && q.1 > 0.3;
    assert q in Significant(scores);
    MentionedOf(Significant(scores));
  }

  /** When none does, the summary mentions exactly the first top-scoring emotion. */
  lemma MentionedFallback(scores: Scores)
    requires scores != [] && forall p :: p in scores ==> p.1 <= 0.3
    ensures Mentioned(Chosen(scores).value) == [scores[Sorting.ArgMax(Values(scores))]]
  {
    assert forall p :: p !in Significant(scores);
    MentionedSingle(scores[Sorting.ArgMax(Values(scores))]);
  }

  /** A single chosen emotion is the one mentioned. */
  lemma MentionedSingle(x: (string, real))
    ensures Mentioned([x]) == [x]
  {
    var s := Sorting.SortedBy([x], Score);
    assert s[0] in multiset([x]);
  }

  /** The phrase the summary uses for an emotion name. */
  function Phrase(emotion: string): string {
    if emotion == "sadness" then "deep sadness"
    else if emotion == "emptiness" then "a pronounced sense of emptiness"
    else if emotion == "hopelessness" then "feelings of hopelessness"
    else emotion
  }

  function Describe(p: (string, real)): string {
    Phrase(p.0) + " (intensity: " + Format.Fixed(p.1, 2) + ")"
  }

  function Descriptions(m: Scores): (ds: seq<string>)
    ensures |ds| == |m| && forall k :: 0 <= k < |m| ==> ds[k] == Describe(m[k])
  {
    seq(|m|, k requires 0 <= k < |m| => Describe(m[k]))
  }

  const Opening: string := "The entry reflects "

  /** The sentence for one, two, or three descriptions. */
  function Sentence(ds: seq<string>): string
    requires 1 <= |ds| <= 3
  {
    if |ds| == 1 then
      Opening + ds[0] + ", suggesting a significant emotional experience that shapes the narrative of the writing."
    else if |ds| == 2 then
      Opening + ds[0] + " and " + ds[1] + ", suggesting a complex emotional experience that shapes the narrative of the writing."
    else
      Opening + Strings.Join(ds[..2], ", ") + ", and " + ds[2] + ", suggesting a multifaceted emotional experience that shapes the narrative of the writing."
  }

  lemma ThreeWayJoin(ds: seq<string>)
    requires |ds| == 3
    ensures Strings.Join(ds[..2], ", ") == ds[0] + ", " + ds[1]
  {
    assert ds[..2][1..] == [ds[1]];
  }

  /** `generate_empathetic_summary_template`; an empty dict makes `max` raise. */
  function SummaryTemplate(scores: Scores): (r: Result<string, SummaryError>)
    ensures r.Err? <==> scores == []
  {
    match Chosen(scores)
    case Err(e) => Err(e)
    case Ok(c) => Ok(Sentence(Descriptions(Mentioned(c))))
  }

  // ----- create_training_example -----------------------------------------

  /** `emotion_scores.get(emotion, default)`: the first entry with that key. */
  function Get(scores: Scores, key: string, default: real): (v: real)
    ensures (forall k :: 0 <= k < |scores| ==> scores[k].0 != key) ==> v == default
    ensures (exists k :: 0 <= k < |scores| && scores[k].0 == key) ==>
      exists k :: 0 <= k < |scores| && scores[k].0 == key && v == scores[k].1
        && forall j :: 0 <= j < k ==> scores[j].0 != key
  {
    if scores == [] then default
    else if scores[0].0 == key then scores[0].1
    else
      var v := Get(scores[1..], key, default);
      assert forall k :: 1 <= k < |scores| ==> scores[k] == scores[1..][k - 1];
      v
  }

  function EmotionLine(emotion: string, score: real): string {
    "- " + emotion + ": " + Format.Fixed(score, 2)
  }

  /** One line per depression emotion, in vocabulary order, 0.0 when absent from the dict. */
  function EmotionLines(scores: Scores): (lines: seq<string>)
    ensures |lines| == |PrepareDepressionEmo.StandardEmotions|
    ensures forall k :: 0 <= k < |lines| ==>
      lines[k] == EmotionLine(PrepareDepressionEmo.StandardEmotions[k], Get(scores, PrepareDepressionEmo.StandardEmotions[k], 0.0))
  {
    var es := PrepareDepressionEmo.StandardEmotions;
    seq(|es|, k requires 0 <= k < |es| => EmotionLine(es[k], Get(scores, es[k], 0.0)))
  }

  /** The fixed instruction block of the training prompt up to its dash, and after it. */
  const InstructionBefore: string :=
    "[INSTRUCTION]\nBased on the journal entry and the detected emotion scores above, write a\n"
    + "humanized psychological summary that reflects the emotional experience\n"
    + "expressed in the text. Do not give advice or diagnosis"
  const InstructionAfter: string := "just interpret\nhow the emotions manifest in the writing."

  /** The instruction block, with its em dash (U+2014). */
  const Instruction: string := InstructionBefore + "\U{2014}" + InstructionAfter

  /** The prompt text before the instruction block: context, journal entry, emotion lines. */
  function PromptOpen(journalText: string, lines: seq<string>): string {
    "[CONTEXT]\n\nJournal Entry:\n\"" + journalText + "\"\n\nDetected Emotions:\n"
    + Strings.Join(lines, "\n") + "\n\n"
  }

  /** The label after which the summary follows. */
  const SummaryTag: string := "[HUMANIZED SUMMARY]"

  /** Everything of a training example before its summary. */
  function PromptHead(journalText: string, lines: seq<string>): string {
    PromptOpen(journalText, lines) + Instruction + "\n\n" + SummaryTag + "\n"
  }

  /** `create_training_example`: the prompt head, then the given summary or the template. */
  function TrainingExample(journalText: string, scores: Scores, summary: Option<string>): (r: Result<string, SummaryError>)
    ensures summary.Some? ==> r == Ok(PromptHead(journalText, EmotionLines(scores)) + summary.value)
    ensures summary.None? ==> (r.Err? <==> scores == [])
    ensures r.Ok? ==> Strings.StartsWith(r.value, PromptHead(journalText, EmotionLines(scores)))
  {
    var head := PromptHead(journalText, EmotionLines(scores));
    match summary
    case Some(s) =>
      assert (head + s)[..|head|] == head;
      Ok(head + s)
    case None =>
      match SummaryTemplate(scores)
      case Err(e) => Err(e)
      case Ok(s) =>
        assert (head + s)[..|head|] == head;
        Ok(head + s)
  }

  // ----- synthesis loop and output files ---------------------------------

  /** The summary the txt file uses for example `i`:  an empathetic response longer than 20 characters leads it. */
  function TxtSummary(i: nat, scores: Scores, responses: Option<seq<string>>): (r: Option<Result<string, SummaryError>>)
    ensures responses.None? || i >= |responses.value| ==> r.None?
  {
    match responses
    case None => None
    case Some(rs) =>
      if i < |rs| then
        Some(match SummaryTemplate(scores)
          case Err(e) => Err(e)
          case Ok(t) => Ok(if |rs[i]| > 20 then Strings.FirstN(rs[i], 100) + " " + t else t))
      else None
  }

  function ExampleAt(i: nat, text: string, scores: Scores, responses: Option<seq<string>>): (r: Result<string, SummaryError>)
    ensures r.Ok? ==> Strings.StartsWith(r.value, PromptHead(text, EmotionLines(scores)))
  {
    match TxtSummary(i, scores, responses)
    case None => TrainingExample(text, scores, None)
    case Some(Err(e)) => Err(e)
    case Some(Ok(s)) => TrainingExample(text, scores, Some(s))
  }

  /** One outcome per pair of `zip(journal_texts, emotion_results)`. */
  function ExampleOutcomes(texts: seq<string>, results: seq<Scores>, responses: Option<seq<string>>): (r: seq<Result<string, SummaryError>>)
    ensures |r| == MinLen(|texts|, |results|)
  {
    seq(MinLen(|texts|, |results|), k requires 0 <= k < |texts| && k < |results| => ExampleAt(k, texts[k], results[k], responses))
  }

  function MinLen(a: nat, b: nat): nat { if a < b then a else b }

  /**
   * The synthesis loop: one example per pair, in order; a template failure
   * aborts the run.
   */
  method SynthesizeExamples(texts: seq<string>, results: seq<Scores>, responses: Option<seq<string>>)
    returns (r: Result<seq<string>, SummaryError>)
    ensures r == AllOk(ExampleOutcomes(texts, results, responses))
  {
    r := CollectAll(ExampleOutcomes(texts, results, responses));
  }

  /** Every synthesised example is the prompt head of its own text and scores, then a summary. */
  lemma ExamplesShape(texts: seq<string>, results: seq<Scores>, responses: Option<seq<string>>, k: nat)
    requires AllOk(ExampleOutcomes(texts, results, responses)).Ok? && k < MinLen(|texts|, |results|)
    ensures Strings.StartsWith(AllOk(ExampleOutcomes(texts, results, responses)).value[k],
                               PromptHead(texts[k], EmotionLines(results[k])))
  {
  }

  const Separator: string := Strings.Repeat('=', 80)

  /** The txt file: each example, then a blank line, 80 '=' and a blank line. */
  function SeparatorFile(examples: seq<string>): string
    decreases |examples|
  {
    if examples == [] then ""
    else examples[0] + "\n\n" + Separator + "\n\n" + SeparatorFile(examples[1..])
  }

  /** The JSON file's records: every summary is the template, never the blended one. */
  datatype JsonRecord = JsonRecord(journalText: string, emotionScores: Scores, summary: string)

  function JsonRecordAt(text: string, scores: Scores): (r: Result<JsonRecord, SummaryError>)
    ensures r.Err? <==> scores == []
    ensures r.Ok? ==> r.value == JsonRecord(text, scores, SummaryTemplate(scores).value)
  {
    match SummaryTemplate(scores)
    case Err(e) => Err(e)
    case Ok(s) => Ok(JsonRecord(text, scores, s))
  }

  function JsonOutcomes(texts: seq<string>, results: seq<Scores>): (r: seq<Result<JsonRecord, SummaryError>>)
    ensures |r| == MinLen(|texts|, |results|)
    ensures forall k :: 0 <= k < |r| ==> r[k] == JsonRecordAt(texts[k], results[k])
  {
    seq(MinLen(|texts|, |results|), k requires 0 <= k < |texts| && k < |results| => JsonRecordAt(texts[k], results[k]))
  }

  /** The JSON file's records, built over `zip(journal_texts, emotion_results)`. */
  function JsonRecords(texts: seq<string>, results: seq<Scores>): Result<seq<JsonRecord>, SummaryError> {
    AllOk(JsonOutcomes(texts, results))
  }

  /**
   * One record per (text, scores) pair, in order, each carrying the
   * template summary; a pair with an empty score dict makes the run fail.
   */
  lemma JsonRecordsFacts(texts: seq<string>, results: seq<Scores>)
    ensures JsonRecords(texts, results).Err? <==> exists k :: 0 <= k < MinLen(|texts|, |results|) && results[k] == []
    ensures JsonRecords(texts, results).Ok? ==>
      |JsonRecords(texts, results).value| == MinLen(|texts|, |results|)
      && forall k :: 0 <= k < MinLen(|texts|, |results|) ==>
           JsonRecords(texts, results).value[k] == JsonRecord(texts[k], results[k], SummaryTemplate(results[k]).value)
  {
    var rs := JsonOutcomes(texts, results);
    forall k | 0 <= k < |rs| ensures rs[k].Err? <==> results[k] == [] {
      assert rs[k] == JsonRecordAt(texts[k], results[k]);
    }
  }
}
