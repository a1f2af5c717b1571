/**
 * Loading the summary model's training data: the txt file split on its
 * separator, the JSON records turned back into prompts, the choice of
 * file, the causal-LM encoding, and the 90/10 index split.
 */
module FineTuneLlama {
  import opened Wrappers
  import Strings
  import Seqs
  import PrepareDepressionEmo
  import Synth = SynthesizeTrainingData
  import Splits

  const NL2: string := "\n\n"

  // ----- the txt path ----------------------------------------------------

  /** `[ex.strip() for ex in pieces if ex.strip()]`. */
  function Kept(pieces: seq<string>): (r: seq<string>)
    ensures |r| <= |pieces|
    ensures forall k :: 0 <= k < |r| ==> r[k] != [] && Strings.Stripped(r[k])
    decreases |pieces|
  {
    if pieces == [] then []
    else
      var t := Strings.Strip(pieces[0]);
      (if t != [] then [t] else []) + Kept(pieces[1..])
  }

  /** The examples read back from the txt file's content. */
  function ReadTextExamples(content: string): (r: seq<string>)
    ensures forall k :: 0 <= k < |r| ==> r[k] != [] && Strings.Stripped(r[k])
  {
    Kept(Strings.Split(content, Synth.Separator))
  }

  /** The pieces `split` yields on a separator file that follows the prefix `w`. */
  function Pieces(w: string, xs: seq<string>): seq<string>
    decreases |xs|
  {
    if xs == [] then [w] else [w + xs[0] + NL2] + Pieces(NL2, xs[1..])
  }

  /** What the round trip needs of an example. */
  predicate Writable(x: string) {
    x != [] && Strings.Stripped(x) && !Strings.Contains(x, Synth.Separator)
  }

  predicate Newlines(w: string) {
    forall i :: 0 <= i < |w| ==> w[i] == '\n'
  }

  /** No separator starts before the one that follows `w + x + "\n\n"`. */
  lemma NoSeparatorBefore(w: string, x: string, rest: string, j: int)
    requires Newlines(w) && !Strings.Contains(x, Synth.Separator)
    requires 0 <= j < |w| + |x| + 2
    ensures !Strings.OccursAt(w + x + NL2 + rest, Synth.Separator, j)
  {
    var s := w + x + NL2 + rest;
    var sep := Synth.Separator;
    if j + 80 <= |s| {
      if j < |w| {
        assert s[j..j + 80][0] == s[j] == '\n';
      } else if j + 80 <= |w| + |x| {
        assert s[j..j + 80] == x[j - |w|..j - |w| + 80];
        assert !Strings.OccursAt(x, sep, j - |w|);
      } else {
        var k := if j < |w| + |x| then |w| + |x| else j;
        assert s[j..j + 80][k - j] == s[k] == '\n';
      }
    }
  }

  predicate AllWritable(xs: seq<string>) {
    forall k :: 0 <= k < |xs| ==> Writable(xs[k])
  }

  lemma {:induction false} SplitSeparatorFile(w: string, xs: seq<string>)
    requires w == "" || w == NL2
    requires AllWritable(xs)
    ensures Strings.Split(w + Synth.SeparatorFile(xs), Synth.Separator) == Pieces(w, xs)
    decreases |xs|
  {
    assert Newlines(w);
    if xs == [] {
      assert w + Synth.SeparatorFile(xs) == w;
    } else {
      var rest := NL2 + Synth.SeparatorFile(xs[1..]);
      assert w + Synth.SeparatorFile(xs) == w + xs[0] + NL2 + (Synth.Separator + rest);
      FirstPiece(w, xs[0], rest);
      assert AllWritable(xs[1..]) by {
        forall k | 0 <= k < |xs[1..]| ensures Writable(xs[1..][k]) {
          assert xs[1..][k] == xs[k + 1];
        }
      }
      SplitSeparatorFile(NL2, xs[1..]);
    }
  }

  /** The first piece ends where the first separator after `x` starts. */
  lemma FirstPiece(w: string, x: string, rest: string)
    requires Newlines(w) && !Strings.Contains(x, Synth.Separator)
    ensures Strings.Split(w + x + NL2 + (Synth.Separator + rest), Synth.Separator) == [w + x + NL2] + Strings.Split(rest, Synth.Separator)
  {
    var sep := Synth.Separator;
    var head := w + x + NL2;
    var s := head + (sep + rest);
    assert s == head + sep + rest;
    Strings.CutAround(head, sep, rest);
    assert s[|head|..|head| + 80] == sep;
    forall j | 0 <= j < |head| ensures !Strings.OccursAt(s, sep, j) {
      NoSeparatorBefore(w, x, sep + rest, j);
    }
    Strings.IndexOfFirst(s, sep, |head|);
    Strings.SplitStep(s, sep, |head|);
  }

  lemma HeadTail<T>(s: seq<T>)
    requires s != []
    ensures s == [s[0]] + s[1..]
  {
  }

  lemma StripPiece(w: string, x: string)
    requires (w == "" || w == NL2) && Strings.Stripped(x)
    ensures Strings.Strip(w + x + NL2) == x
  {
    assert Strings.AllSpace(w) && Strings.AllSpace(NL2);
    Strings.StripPadded(w, x, NL2);
    Strings.StripStripped(x);
  }

  lemma {:induction false} KeptPieces(w: string, xs: seq<string>)
    requires w == "" || w == NL2
    requires AllWritable(xs)
    ensures Kept(Pieces(w, xs)) == xs
    decreases |xs|
  {
    assert Strings.AllSpace(w) && Strings.AllSpace(NL2);
    if xs == [] {
      Strings.StripEmptyIff(w);
      assert Kept([w]) == [];
    } else {
      var x := xs[0];
      var first := w + x + NL2;
      StripPiece(w, x);
      assert AllWritable(xs[1..]) by {
        forall k | 0 <= k < |xs[1..]| ensures Writable(xs[1..][k]) {
          assert xs[1..][k] == xs[k + 1];
        }
      }
      KeptPieces(NL2, xs[1..]);
      var ps := Pieces(w, xs);
      assert ps == [first] + Pieces(NL2, xs[1..]);
      assert ps[0] == first && ps[1..] == Pieces(NL2, xs[1..]);
      assert Kept(ps) == [x] + Kept(ps[1..]);
      HeadTail(xs);
    }
  }

  /**
   * Reading back the separator file returns the examples written, when each
   * is non-empty, already stripped and free of an 80-'=' run.
   */
  lemma TextRoundTrip(xs: seq<string>)
    requires AllWritable(xs)
    ensures ReadTextExamples(Synth.SeparatorFile(xs)) == xs
  {
    assert "" + Synth.SeparatorFile(xs) == Synth.SeparatorFile(xs);
    SplitSeparatorFile("", xs);
    KeptPieces("", xs);
  }

  // ----- the JSON path ---------------------------------------------------

  /** `f"- {emotion}: {score:.2f}"` for one item of the dict. */
  function PairLine(item: (string, real)): string {
    Synth.EmotionLine(item.0, item.1)
  }

  /** `f"- {emotion}: {score:.2f}"` for every item of the dict, in dict order. */
  function DictLines(scores: Synth.Scores): (lines: seq<string>)
    ensures |lines| == |scores|
    ensures forall k :: 0 <= k < |scores| ==> lines[k] == Synth.EmotionLine(scores[k].0, scores[k].1)
  {
    var r := Seqs.Mapped(scores, PairLine);
    forall k | 0 <= k < |scores| ensures r[k] == Synth.EmotionLine(scores[k].0, scores[k].1) {
      Seqs.MappedAt(scores, PairLine, k);
    }
    r
  }

  /** The prompt `_prepare_from_json` builds for one record. */
  function JsonPrompt(r: Synth.JsonRecord): string {
    Synth.PromptHead(r.journalText, DictLines(r.emotionScores)) + r.summary
  }

  /** `_prepare_from_json`: one prompt per record, in order. */
  method PrepareFromJson(data: seq<Synth.JsonRecord>) returns (examples: seq<string>)
    ensures |examples| == |data|
    ensures forall k :: 0 <= k < |data| ==> examples[k] == JsonPrompt(data[k])
  {
    examples := [];
    var i := 0;
    while i < |data|
      invariant 0 <= i <= |data|
      invariant examples == Seqs.Mapped(data[..i], JsonPrompt)
    {
      var scores := data[i].emotionScores;
      var lines: seq<string> := [];
      var j := 0;
      while j < |scores|
        invariant 0 <= j <= |scores|
        invariant lines == Seqs.Mapped(scores[..j], PairLine)
      {
        Seqs.MappedSnoc(scores, PairLine, j);
        lines := lines + [Synth.EmotionLine(scores[j].0, scores[j].1)];
        j := j + 1;
      }
      assert scores[..|scores|] == scores;
      Seqs.MappedSnoc(data, JsonPrompt, i);
      examples := examples + [Synth.PromptHead(data[i].journalText, lines) + data[i].summary];
      i := i + 1;
    }
    assert data[..|data|] == data;
    forall k | 0 <= k < |data| ensures examples[k] == JsonPrompt(data[k]) {
      Seqs.MappedAt(data, JsonPrompt, k);
    }
  }

  /** Every prompt ends with its record's summary. */
  lemma JsonPromptEndsWithSummary(r: Synth.JsonRecord)
    ensures Strings.EndsWith(JsonPrompt(r), r.summary)
  {
    var head := Synth.PromptHead(r.journalText, DictLines(r.emotionScores));
    assert (head + r.summary)[|head|..] == r.summary;
  }

  /** A dict of the eight depression emotions in vocabulary order prints the same lines both ways. */
  lemma LinesAgree(scores: Synth.Scores)
    requires |scores| == |PrepareDepressionEmo.StandardEmotions|
    requires forall k :: 0 <= k < |scores| ==> scores[k].0 == PrepareDepressionEmo.StandardEmotions[k]
    ensures DictLines(scores) == Synth.EmotionLines(scores)
  {
    PrepareDepressionEmo.StandardDistinct();
    GetAligned(scores, PrepareDepressionEmo.StandardEmotions);
  }

  /** In a dict whose keys are distinct, looking up the `k`-th key gives the `k`-th score. */
  lemma GetAligned(scores: Synth.Scores, es: seq<string>)
    requires |scores| == |es| && forall k :: 0 <= k < |scores| ==> scores[k].0 == es[k]
    requires forall i, j :: 0 <= i < j < |es| ==> es[i] != es[j]
    ensures forall k :: 0 <= k < |scores| ==> Synth.Get(scores, es[k], 0.0) == scores[k].1
  {
    forall k | 0 <= k < |scores| ensures Synth.Get(scores, es[k], 0.0) == scores[k].1 {
      var v := Synth.Get(scores, es[k], 0.0);
      assert scores[k].0 == es[k];
      var m :| 0 <= m < |scores| && scores[m].0 == es[k] && v == scores[m].1
        && forall j :: 0 <= j < m ==> scores[j].0 != es[k];
      assert m == k;
    }
  }

  /**
   * The JSON path rebuilds exactly the prompt `create_training_example` made,
   * when the classifier's labels are the eight depression emotions.
   */
  lemma JsonPromptIsTrainingExample(text: string, row: seq<real>, summary: string)
    requires |row| >= |PrepareDepressionEmo.StandardEmotions|
    ensures var scores := Synth.ZipScores(PrepareDepressionEmo.StandardEmotions, row);
      Synth.TrainingExample(text, scores, Some(summary)) == Ok(JsonPrompt(Synth.JsonRecord(text, scores, summary)))
  {
    LinesAgree(Synth.ZipScores(PrepareDepressionEmo.StandardEmotions, row));
  }

  // ----- choosing and loading the data file ------------------------------

  datatype DataPath = JsonPath | TxtPath

  datatype LoadError = TrainingDataNotFound

  /** `load_training_data`: the JSON file wins over the txt file. */
  function LoadTrainingData(jsonExists: bool, txtExists: bool): (r: Result<DataPath, LoadError>)
    ensures jsonExists ==> r == Ok(JsonPath)
    ensures !jsonExists && txtExists ==> r == Ok(TxtPath)
    ensures r.Err? <==> !jsonExists && !txtExists
  {
    if jsonExists then Ok(JsonPath) else if txtExists then Ok(TxtPath) else Err(TrainingDataNotFound)
  }

  /** A data file's content: JSON records, or the txt file's text. */
  datatype DataFile = JsonFile(records: seq<Synth.JsonRecord>) | TextFile(content: string)

  /** `PsychologicalSummaryDataset.__init__`'s example list. */
  method LoadExamples(file: DataFile) returns (examples: seq<string>)
    ensures file.JsonFile? ==>
      |examples| == |file.records| && forall k :: 0 <= k < |examples| ==> examples[k] == JsonPrompt(file.records[k])
    ensures file.TextFile? ==> examples == ReadTextExamples(file.content)
  {
    match file
    case JsonFile(records) => examples := PrepareFromJson(records);
    case TextFile(content) => examples := ReadTextExamples(content);
  }

  // ----- encoding and the split ------------------------------------------

  /** One tokenised example: the tokenizer's ids and mask, and labels. */
  datatype Encoding = Encoding(inputIds: seq<int>, attentionMask: seq<int>, labels: seq<int>)

  /** `__getitem__`: the tokenizer is a parameter; labels are the input ids themselves. */
  function GetItem(examples: seq<string>, idx: nat, tokenize: string -> (seq<int>, seq<int>)): (e: Encoding)
    requires idx < |examples|
    ensures e.labels == e.inputIds
    ensures (e.inputIds, e.attentionMask) == tokenize(examples[idx])
  {
    var enc := tokenize(examples[idx]);
    Encoding(enc.0, enc.1, enc.0)
  }

  /** `train_size = int(0.9 * n)`, on exact arithmetic. */
  function TrainSize(n: nat): (t: nat)
    ensures t <= n && 10 * t <= 9 * n < 10 * (t + 1)
  {
    (9 * n) / 10
  }

  function ValSize(n: nat): (v: nat)
    ensures v == n - TrainSize(n)
    ensures n > 0 ==> v >= 1
  {
    n - TrainSize(n)
  }

  /**
   * `train_test_split(range(n), test_size=val_size)` with the shuffle as the
   * input `perm`: the first `val_size` shuffled indices are held out. An
   * empty training side (n < 2) is an error.
   */
  function SplitIndices(n: nat, perm: seq<nat>): (r: Result<(seq<nat>, seq<nat>), Splits.SplitError>)
    requires Splits.IsPermutation(perm, n)
    ensures r.Err? <==> n < 2
    ensures r.Ok? ==> |r.value.0| == TrainSize(n) && |r.value.1| == ValSize(n)
  {
    Splits.HoldOut(Splits.Range(n), perm, ValSize(n))
  }

  /** The train and val indices partition `range(n)`. */
  lemma SplitPartition(n: nat, perm: seq<nat>)
    requires Splits.IsPermutation(perm, n) && n >= 2
    ensures Splits.PartitionOf(Splits.Range(n), SplitIndices(n, perm).value.0, SplitIndices(n, perm).value.1)
  {
    Splits.RangeDistinct(n);
    Splits.HoldOutPartition(Splits.Range(n), perm, ValSize(n));
  }
}
