/**
 * The end-to-end summary pipeline: the classifier scores a journal entry,
 * the prompt lists the eight depression emotions, the summary model's
 * output is cut after "[HUMANIZED SUMMARY]", and a batch is one result per
 * entry. The models are functions held by the generator.
 */
module InferencePipeline {
  import opened Wrappers
  import Seqs
  import Strings
  import Frames
  import PrepareDepressionEmo
  import Synth = SynthesizeTrainingData

  /** What one generation call gives: the whole decoded output, and the decoding of the new tokens only. */
  datatype Generation = Generation(fullText: string, newText: string)

  /** A loaded `PsychologicalSummaryGenerator`: the classifier configuration and the models. */
  datatype Generator = Generator(
    classifier: Synth.Classifier,
    stripNoise: string -> string,
    probsOf: string -> seq<real>,
    generate: string -> Generation)

  datatype PipelineError = ClassifierFailed(cause: Synth.ClassifierError) | LlamaNotFound

  /**
   * `__init__`: the classifier is loaded first, and its errors come first;
   * then a missing summary-model directory raises FileNotFoundError.
   */
  function NewGenerator(classifierExists: bool, info: Option<Synth.EmotionInfo>, llamaExists: bool,
                        stripNoise: string -> string, probsOf: string -> seq<real>, generate: string -> Generation)
    : (r: Result<Generator, PipelineError>)
    ensures Synth.LoadClassifier(classifierExists, info).Err? ==>
      r == Err(ClassifierFailed(Synth.LoadClassifier(classifierExists, info).error))
    ensures Synth.LoadClassifier(classifierExists, info).Ok? && !llamaExists ==> r == Err(LlamaNotFound)
    ensures r.Ok? <==> Synth.LoadClassifier(classifierExists, info).Ok? && llamaExists
    ensures r.Ok? ==> r.value.classifier == Synth.LoadClassifier(classifierExists, info).value
  {
    match Synth.LoadClassifier(classifierExists, info)
    case Err(e) => Err(ClassifierFailed(e))
    case Ok(c) => if !llamaExists then Err(LlamaNotFound) else Ok(Generator(c, stripNoise, probsOf, generate))
  }

  // ----- format_prompt -----------------------------------------------------

  /** The instruction block as the script spells it: the em dash became the three characters "â€”". */
  const InstructionAsWritten: string := Synth.InstructionBefore + "\U{00E2}\U{20AC}\U{201D}" + Synth.InstructionAfter

  /** `format_prompt` as written. */
  function PromptAsWritten(journalText: string, scores: Synth.Scores): string {
    Synth.PromptOpen(journalText, Synth.EmotionLines(scores)) + InstructionAsWritten + "\n\n" + Synth.SummaryTag + "\n"
  }

  /** The prompt regrouped around the dash `m` of the instruction `a + m + b`. */
  lemma Regroup(p: string, a: string, m: string, b: string, c: string, d: string, e: string)
    ensures p + (a + m + b) + c + d + e == (p + a) + m + (b + c + d + e)
  {
  }

  /** Two texts that agree up to `k` and differ at `k`: neither starts with the other. */
  lemma PartAt(open: string, m1: string, rest1: string, m2: string, rest2: string)
    requires |m1| > 0 && |m2| > 0 && m1[0] != m2[0]
    ensures !Strings.StartsWith(open + m2 + rest2, open + m1 + rest1)
  {
    var x := open + m2 + rest2;
    var w := open + m1 + rest1;
    assert x[|open|] == m2[0] && w[|open|] == m1[0];
    if |w| <= |x| {
      assert x[..|w|][|open|] != w[|open|];
    }
  }

  /**
   * The prompt as written is not the head of any training example for the
   * same entry and scores: the two part at the dash.
   */
  lemma PromptAsWrittenNotTraining(journalText: string, scores: Synth.Scores, summary: string)
    ensures !Strings.StartsWith(Synth.PromptHead(journalText, Synth.EmotionLines(scores)) + summary, PromptAsWritten(journalText, scores))
    ensures PromptAsWritten(journalText, scores) != Synth.PromptHead(journalText, Synth.EmotionLines(scores))
  {
    var o := Synth.PromptOpen(journalText, Synth.EmotionLines(scores)) + Synth.InstructionBefore;
    var tail := Synth.InstructionAfter + "\n\n" + Synth.SummaryTag + "\n";
    var m1 := "\U{00E2}\U{20AC}\U{201D}";
    var m2 := "\U{2014}";
    var w := PromptAsWritten(journalText, scores);
    var h := Synth.PromptHead(journalText, Synth.EmotionLines(scores));
    var p := Synth.PromptOpen(journalText, Synth.EmotionLines(scores));
    Regroup(p, Synth.InstructionBefore, m1, Synth.InstructionAfter, "\n\n", Synth.SummaryTag, "\n");
    Regroup(p, Synth.InstructionBefore, m2, Synth.InstructionAfter, "\n\n", Synth.SummaryTag, "\n");
    assert w == o + m1 + tail && h == o + m2 + tail;
    Strings.AppendAssoc(o + m2, tail, summary);
    PartAt(o, m1, tail, m2, tail + summary);
    PartAt(o, m1, tail, m2, tail);
  }

  /**
   * `format_prompt` with the dash the training data has: one line per
   * depression emotion, in order, 0.0 when absent. Every training example
   * for the same entry and scores is this prompt followed by its summary.
   */
  method FormatPrompt(journalText: string, scores: Synth.Scores) returns (prompt: string)
    ensures prompt == Synth.PromptHead(journalText, Synth.EmotionLines(scores))
    ensures forall summary :: Synth.TrainingExample(journalText, scores, Some(summary)) == Ok(prompt + summary)
  {
    var lines := EmotionLinesFor(PrepareDepressionEmo.StandardEmotions, scores);
    assert lines == Synth.EmotionLines(scores);
    prompt := Synth.PromptHead(journalText, lines);
  }

  /** The loop of `format_prompt`: one line per listed emotion, in order, 0.0 when absent. */
  method EmotionLinesFor(emotions: seq<string>, scores: Synth.Scores) returns (lines: seq<string>)
    ensures |lines| == |emotions|
    ensures forall k :: 0 <= k < |emotions| ==> lines[k] == Synth.EmotionLine(emotions[k], Synth.Get(scores, emotions[k], 0.0))
  {
    lines := [];
    for i := 0 to |emotions|
      invariant |lines| == i
      invariant forall k :: 0 <= k < i ==> lines[k] == Synth.EmotionLine(emotions[k], Synth.Get(scores, emotions[k], 0.0))
    {
      var score := Synth.Get(scores, emotions[i], 0.0);
      lines := lines + [Synth.EmotionLine(emotions[i], score)];
    }
  }

  // ----- generate_summary --------------------------------------------------

  lemma SummaryTagApart()
    ensures Strings.NoSelfOverlap(Synth.SummaryTag)
  {
    var t := Synth.SummaryTag;
    assert t == ['[', 'H', 'U', 'M', 'A', 'N', 'I', 'Z', 'E', 'D', ' ', 'S', 'U', 'M', 'M', 'A', 'R', 'Y', ']'];
    Strings.NoSelfOverlapByHead(t);
  }

  /** The stripped text after the last "[HUMANIZED SUMMARY]", else the stripped new tokens. */
  function ExtractSummary(g: Generation): (r: string)
    ensures Strings.Stripped(r)
  {
    if Strings.Contains(g.fullText, Synth.SummaryTag) then Strings.Strip(Strings.LastPiece(g.fullText, Synth.SummaryTag))
    else Strings.Strip(g.newText)
  }

  /**
   * Round trip with the prompt: an output that echoes the prompt and then
   * the summary gives back the stripped summary, when the summary does not
   * itself hold the label.
   */
  lemma ExtractSummaryRoundTrip(journalText: string, scores: Synth.Scores, summary: string)
    requires !Strings.Contains(summary, Synth.SummaryTag)
    ensures ExtractSummary(Generation(Synth.PromptHead(journalText, Synth.EmotionLines(scores)) + summary, summary))
      == Strings.Strip(summary)
  {
    var x := Synth.PromptOpen(journalText, Synth.EmotionLines(scores)) + Synth.Instruction + "\n\n";
    Strings.AppendAssoc(x + Synth.SummaryTag, "\n", summary);
    SummaryAfterTag(x, summary);
  }

  /** Whatever precedes the label, a summary on its own line after it is extracted, stripped. */
  lemma SummaryAfterTag(x: string, summary: string)
    requires !Strings.Contains(summary, Synth.SummaryTag)
    ensures ExtractSummary(Generation(x + Synth.SummaryTag + ("\n" + summary), summary)) == Strings.Strip(summary)
  {
    var t := Synth.SummaryTag;
    var b := "\n" + summary;
    var full := x + t + b;
    Strings.NotContainsPrefix("\n", summary, t);
    assert full[|x|..|x| + |t|] == t;
    Strings.ContainsAt(full, t, |x|);
    SummaryTagApart();
    Strings.LastPieceAfter(x, t, b);
    Strings.StripAfterNewline(summary);
  }

  /** The score dict of `predict_emotions([journal_text])[0]`, preprocessing on. */
  function FirstScores(g: Generator, journalText: string): Synth.Scores {
    Synth.ZipScores(g.classifier.emotionNames, g.probsOf(Synth.PreprocessText(Frames.Str(journalText), g.stripNoise)))
  }

  /** The result dict of `generate_summary`. */
  datatype SummaryResult = SummaryResult(journalText: string, emotionScores: Synth.Scores, summary: string, fullPrompt: string)

  /** The result for `journalText`: the entry, its first score map, the prompt built from them, and the summary cut from the output. */
  function ResultFor(g: Generator, journalText: string): (r: SummaryResult) {
    var scores := FirstScores(g, journalText);
    var prompt := Synth.PromptHead(journalText, Synth.EmotionLines(scores));
    SummaryResult(journalText, scores, ExtractSummary(g.generate(prompt)), prompt)
  }

  /** `generate_summary`: score the entry as a one-element batch, build the prompt, generate, extract. */
  method GenerateSummary(g: Generator, journalText: string) returns (r: SummaryResult)
    ensures r == ResultFor(g, journalText)
  {
    var results := Synth.PredictEmotions(g.classifier, Synth.Many([Frames.Str(journalText)]), 16, true, true, g.stripNoise, g.probsOf);
    var scores := results.value[0];
    var prompt := FormatPrompt(journalText, scores);
    var output := g.generate(prompt);
    r := SummaryResult(journalText, scores, ExtractSummary(output), prompt);
  }

  /** A summary model that echoes the prompt before its summary has that summary, stripped, in the result. */
  lemma ResultForEcho(g: Generator, journalText: string, summary: string)
    requires !Strings.Contains(summary, Synth.SummaryTag)
    requires var p := ResultFor(g, journalText).fullPrompt; g.generate(p) == Generation(p + summary, summary)
    ensures ResultFor(g, journalText).summary == Strings.Strip(summary)
  {
    ExtractSummaryRoundTrip(journalText, FirstScores(g, journalText), summary);
  }

  /** `generate_summary` as a function value, for the batch. */
  function Summarizer(g: Generator): string -> SummaryResult {
    t => ResultFor(g, t)
  }

  /** `generate_batch`: one result per entry, in input order. */
  method GenerateBatch(g: Generator, journalTexts: seq<string>) returns (results: seq<SummaryResult>)
    ensures results == Seqs.Mapped(journalTexts, Summarizer(g))
  {
    results := [];
    var i := 0;
    while i < |journalTexts|
      invariant 0 <= i <= |journalTexts|
      invariant results == Seqs.Mapped(journalTexts[..i], Summarizer(g))
    {
      var result := GenerateSummary(g, journalTexts[i]);
      Seqs.MappedSnoc(journalTexts, Summarizer(g), i);
      assert result == Summarizer(g)(journalTexts[i]);
      results := results + [result];
      i := i + 1;
    }
    assert journalTexts[..i] == journalTexts;
  }

  /** The batch has one result per entry, and the `k`-th is the result for the `k`-th entry. */
  lemma BatchAt(g: Generator, journalTexts: seq<string>, k: nat)
    requires k < |journalTexts|
    ensures |Seqs.Mapped(journalTexts, Summarizer(g))| == |journalTexts|
    ensures Seqs.Mapped(journalTexts, Summarizer(g))[k] == ResultFor(g, journalTexts[k])
    ensures Seqs.Mapped(journalTexts, Summarizer(g))[k].journalText == journalTexts[k]
    ensures Seqs.Mapped(journalTexts, Summarizer(g))[k].emotionScores == FirstScores(g, journalTexts[k])
  {
    Seqs.MappedAt(journalTexts, Summarizer(g), k);
  }
}
