/**
 * The training script of the empathetic-response model: the emotion
 * wording, the row filter over the EmpatheticDialogues CSVs, the Llama-2
 * instruction prompt, the label masking and padding of each encoded
 * example, and the choice between the original splits and a fresh one.
 * The tokenizer is a parameter: it maps a text and a maximum length to
 * token ids and an attention mask.
 */
module TrainMentalHealthModel {
  import opened Wrappers
  import Seqs
  import Strings
  import Frames
  import Prompts

  // ----- format_emotions ---------------------------------------------------

  /** The adjectives of the dataset rendered as nouns. */
  const EmotionMap: map<string, string> := map[
    "sentimental" := "sentimentality", "afraid" := "fear", "proud" := "pride",
    "faithful" := "faithfulness", "terrified" := "terror", "hopeful" := "hope",
    "angry" := "anger", "disappointed" := "disappointment", "impressed" := "impression",
    "anxious" := "anxiety", "excited" := "excitement", "annoyed" := "annoyance",
    "grateful" := "gratitude", "lonely" := "loneliness", "ashamed" := "shame",
    "sad" := "sadness", "joyful" := "joy", "nostalgic" := "nostalgia",
    "guilty" := "guilt", "surprised" := "surprise", "content" := "contentment",
    "devastated" := "devastation", "embarrassed" := "embarrassment", "furious" := "fury",
    "anticipating" := "anticipation", "jealous" := "jealousy", "prepared" := "preparation",
    "pensive" := "pensiveness", "trusting" := "trust"]

  /** `emotion_map.get(name.lower(), name.lower())`. */
  function Display(name: string): (r: string)
  {
    var key := Strings.Lower(name);
    if key in EmotionMap then EmotionMap[key] else key
  }

  /** `"high" if x > 0.7 else "medium" if x > 0.4 else "low"`. */
  function IntensityBand(intensity: real): (r: string)
    ensures r == "high" <==> intensity > 0.7
    ensures r == "medium" <==> 0.4 < intensity <= 0.7
    ensures r == "low" <==> intensity <= 0.4
  {
    if intensity > 0.7 then "high" else if intensity > 0.4 then "medium" else "low"
  }

  /** `f"{display} (intensity: {band})"`. */
  function FormatEmotions(name: string, intensity: real): (r: string)
    ensures Strings.StartsWith(r, Display(name))
    ensures Strings.EndsWith(r, IntensityBand(intensity) + ")")
  {
    var d := Display(name);
    var b := IntensityBand(intensity) + ")";
    var r := d + " (intensity: " + b;
    assert r[..|d|] == d && r[|r| - |b|..] == b;
    r
  }

  /** The name is looked up case-insensitively. */
  lemma FormatEmotionsCaseInsensitive(name: string, intensity: real)
    ensures FormatEmotions(name, intensity) == FormatEmotions(Strings.Lower(name), intensity)
  {
    Strings.LowerIdempotent(name);
  }

  /** A name outside the map is shown as its lower-case self. */
  lemma DisplayUnmapped(name: string)
    requires Strings.Lower(name) !in EmotionMap
    ensures FormatEmotions(name, 0.7) == Strings.Lower(name) + " (intensity: medium)"
  {
  }

  // ----- load_empathetic_dialogues -----------------------------------------

  /**
   * The three columns the loader reads from a CSV row, each as
   * `str(row.get(column, ''))` renders it (a missing value reads "nan").
   */
  datatype CsvRow = CsvRow(context: string, prompt: string, utterance: string)

  /** The row the loader sees for three cells. */
  function RowOf(context: Frames.Cell, prompt: Frames.Cell, utterance: Frames.Cell): CsvRow {
    CsvRow(Frames.CellText(context), Frames.CellText(prompt), Frames.CellText(utterance))
  }

  datatype SplitTag = TrainSplit | ValSplit

  /** One kept dialogue: the prompt is the journal entry and the context the emotion. */
  datatype Dialogue = Dialogue(journalEntry: string, emotion: string, response: string, split: SplitTag)

  datatype TrainError = DialoguesNotFound | NoTrainingData | ZeroDivision

  /** `text.strip()`, with `'nan'` read as empty. */
  function Field(text: string): (r: string)
    ensures Strings.Stripped(r)
  {
    var t := Strings.Strip(text);
    if t != "" && t != "nan" then t else ""
  }

  /** The dialogue a row contributes, if all three of its fields survive. */
  function RowDialogue(row: CsvRow, tag: SplitTag): (r: Option<Dialogue>)
    ensures r.Some? <==> Field(row.prompt) != "" && Field(row.context) != "" && Field(row.utterance) != ""
    ensures r.Some? ==> r.value.split == tag
  {
    var entry := Field(row.prompt);
    var emotion := Field(row.context);
    var response := Field(row.utterance);
    if entry != "" && emotion != "" && response != "" then Some(Dialogue(entry, emotion, response, tag)) else None
  }

  /** The loop body for one file: a row to its dialogue, if any. */
  function Reader(tag: SplitTag): CsvRow -> Option<Dialogue> {
    row => RowDialogue(row, tag)
  }

  /** The rows' outcomes, one per row. */
  function RowResults(rows: seq<CsvRow>, tag: SplitTag): (r: seq<Option<Dialogue>>)
    ensures |r| == |rows|
  {
    Seqs.Mapped(rows, Reader(tag))
  }

  lemma RowResultsAt(rows: seq<CsvRow>, tag: SplitTag, k: nat)
    requires k < |rows|
    ensures RowResults(rows, tag)[k] == RowDialogue(rows[k], tag)
  {
    Seqs.MappedAt(rows, Reader(tag), k);
  }

  /** The dialogues of `rows`, in row order. */
  function KeptRows(rows: seq<CsvRow>, tag: SplitTag): (r: seq<Dialogue>)
  {
    Seqs.Somes(RowResults(rows, tag))
  }

  /** What the kept dialogues are: each comes from a row of `rows` with all three fields present, and each such row is kept. */
  lemma KeptRowsFacts(rows: seq<CsvRow>, tag: SplitTag, d: Dialogue)
    ensures |KeptRows(rows, tag)| <= |rows|
    ensures d in KeptRows(rows, tag) <==> exists k :: 0 <= k < |rows| && RowDialogue(rows[k], tag) == Some(d)
    ensures d in KeptRows(rows, tag) ==> d.split == tag
  {
    var os := RowResults(rows, tag);
    Seqs.SomesMembers(os, d);
    if Some(d) in os {
      var k :| 0 <= k < |os| && os[k] == Some(d);
      RowResultsAt(rows, tag, k);
    }
    if exists k :: 0 <= k < |rows| && RowDialogue(rows[k], tag) == Some(d) {
      var k :| 0 <= k < |rows| && RowDialogue(rows[k], tag) == Some(d);
      RowResultsAt(rows, tag, k);
    }
  }

  /** A read CSV: `None` when the file does not exist. */
  type Csv = Option<seq<CsvRow>>

  /** The train rows' dialogues, then the validation rows' ones. */
  function LoadedDialogues(train: seq<CsvRow>, val: Csv): (r: seq<Dialogue>)
  {
    KeptRows(train, TrainSplit) + (if val.Some? then KeptRows(val.value, ValSplit) else [])
  }

  /** The loop over one file's rows, appending what `read` makes of each row to `init`. */
  method CollectRows<R, D>(rows: seq<R>, read: R -> Option<D>, init: seq<D>) returns (out: seq<D>)
    ensures out == init + Seqs.Somes(Seqs.Mapped(rows, read))
  {
    out := init;
    ghost var os := Seqs.Mapped(rows, read);
    var i := 0;
    while i < |rows|
      invariant 0 <= i <= |rows|
      invariant out == init + Seqs.Somes(os[..i])
    {
      Seqs.SomesSnoc(os, i);
      Seqs.MappedAt(rows, read, i);
      var o := read(rows[i]);
      if o.Some? {
        out := out + [o.value];
      }
      i := i + 1;
    }
    assert os[..i] == os;
  }

  /**
   * `load_empathetic_dialogues`: FileNotFoundError without `train.csv`;
   * otherwise the kept train rows followed by the kept validation rows.
   */
  method LoadEmpatheticDialogues(train: Csv, val: Csv) returns (r: Result<seq<Dialogue>, TrainError>)
    ensures r.Err? <==> train.None?
    ensures r.Err? ==> r.error == DialoguesNotFound
    ensures r.Ok? ==> r.value == LoadedDialogues(train.value, val)
  {
    if train.None? {
      return Err(DialoguesNotFound);
    }
    var out := CollectRows(train.value, Reader(TrainSplit), []);
    assert out == KeptRows(train.value, TrainSplit);
    if val.Some? {
      out := CollectRows(val.value, Reader(ValSplit), out);
    }
    return Ok(out);
  }

  /** `[d for d in data if d.get('split') == tag]`. */
  function WithTag(ds: seq<Dialogue>, tag: SplitTag): (r: seq<Dialogue>)
    ensures |r| <= |ds|
    decreases |ds|
  {
    if ds == [] then []
    else WithTag(ds[..|ds| - 1], tag) + (if ds[|ds| - 1].split == tag then [ds[|ds| - 1]] else [])
  }

  lemma {:induction false} WithTagAppend(a: seq<Dialogue>, b: seq<Dialogue>, tag: SplitTag)
    ensures WithTag(a + b, tag) == WithTag(a, tag) + WithTag(b, tag)
    decreases |b|
  {
    if b == [] {
      assert a + b == a;
    } else {
      var b' := b[..|b| - 1];
      var x := b[|b| - 1];
      var last := if x.split == tag then [x] else [];
      assert (a + b)[..|a + b| - 1] == a + b';
      assert (a + b)[|a + b| - 1] == x;
      assert WithTag(a + b, tag) == WithTag(a + b', tag) + last;
      assert WithTag(b, tag) == WithTag(b', tag) + last;
      WithTagAppend(a, b', tag);
    }
  }

  /** Filtering a list whose dialogues all carry one tag keeps all or nothing. */
  lemma {:induction false} WithTagUniform(ds: seq<Dialogue>, tag: SplitTag, other: SplitTag)
    requires forall k :: 0 <= k < |ds| ==> ds[k].split == tag
    ensures WithTag(ds, other) == if tag == other then ds else []
    decreases |ds|
  {
    if ds != [] {
      var init := ds[..|ds| - 1];
      WithTagUniform(init, tag, other);
      assert ds == init + [ds[|ds| - 1]];
    }
  }

  lemma WithTagKept(rows: seq<CsvRow>, tag: SplitTag, other: SplitTag)
    ensures WithTag(KeptRows(rows, tag), other) == if tag == other then KeptRows(rows, tag) else []
  {
    var kept := KeptRows(rows, tag);
    forall k | 0 <= k < |kept| ensures kept[k].split == tag {
      KeptRowsFacts(rows, tag, kept[k]);
    }
    WithTagUniform(KeptRows(rows, tag), tag, other);
  }

  /** Each dialogue's split tag names the file it came from: filtering by tag recovers each file's dialogues. */
  lemma LoadedTags(train: seq<CsvRow>, val: Csv)
    ensures WithTag(LoadedDialogues(train, val), TrainSplit) == KeptRows(train, TrainSplit)
    ensures WithTag(LoadedDialogues(train, val), ValSplit) == if val.Some? then KeptRows(val.value, ValSplit) else []
  {
    var v := if val.Some? then KeptRows(val.value, ValSplit) else [];
    WithTagAppend(KeptRows(train, TrainSplit), v, TrainSplit);
    WithTagAppend(KeptRows(train, TrainSplit), v, ValSplit);
    WithTagKept(train, TrainSplit, TrainSplit);
    WithTagKept(train, TrainSplit, ValSplit);
    if val.Some? {
      WithTagKept(val.value, ValSplit, TrainSplit);
      WithTagKept(val.value, ValSplit, ValSplit);
    }
  }

  /** Every dialogue carries exactly one of the two tags. */
  lemma {:induction false} WithTagCount(ds: seq<Dialogue>)
    ensures |WithTag(ds, TrainSplit)| + |WithTag(ds, ValSplit)| == |ds|
    decreases |ds|
  {
    if ds != [] {
      WithTagCount(ds[..|ds| - 1]);
    }
  }

  // ----- format_prompt -----------------------------------------------------

  const SysOpen: string := "<s>[INST] <<SYS>>\n"
  const SysClose: string := "\n<</SYS>>\n\n"
  const InstClose: string := " [/INST]"

  /** The Llama-2 instruction prompt: system block, journal entry, emotions, and the response label before `[/INST]`. */
  function FormatPrompt(entry: string, es: seq<Prompts.EmotionItem>): (r: string)
    ensures Strings.StartsWith(r, SysOpen + Prompts.SystemMessage + SysClose)
    ensures Strings.EndsWith(r, Prompts.ResponseTag + InstClose)
  {
    var head := SysOpen + Prompts.SystemMessage + SysClose;
    var tail := Prompts.ResponseTag + InstClose;
    var r := head + "Journal Entry: " + entry + "\n\nIdentified Emotions: " + Prompts.EmotionsText(es) + "\n\n" + tail;
    assert r[..|head|] == head && r[|r| - |tail|..] == tail;
    r
  }

  /** The entry and the rendered emotions sit in the prompt, each after its own label. */
  lemma PromptHolds(entry: string, es: seq<Prompts.EmotionItem>)
    ensures var p := FormatPrompt(entry, es);
      var e := SysOpen + Prompts.SystemMessage + SysClose + "Journal Entry: ";
      Strings.OccursAt(p, entry, |e|)
      && Strings.OccursAt(p, Prompts.EmotionsText(es), |e| + |entry| + |"\n\nIdentified Emotions: "|)
  {
    var e := SysOpen + Prompts.SystemMessage + SysClose + "Journal Entry: ";
    var m := "\n\nIdentified Emotions: ";
    var tail := "\n\n" + Prompts.ResponseTag + InstClose;
    var p := FormatPrompt(entry, es);
    assert p == e + entry + m + Prompts.EmotionsText(es) + tail;
    assert p[|e|..|e| + |entry|] == entry;
    assert p[|e| + |entry| + |m|..|e| + |entry| + |m| + |Prompts.EmotionsText(es)|] == Prompts.EmotionsText(es);
  }

  // ----- preprocess_data -----------------------------------------------------

  /** What the tokenizer returns for one text. */
  datatype Tokenized = Tokenized(inputIds: seq<int>, attentionMask: seq<int>)

  /** One training example as the trainer receives it. */
  datatype Encoded = Encoded(inputIds: seq<int>, attentionMask: seq<int>, labels: seq<int>)

  /** The name value the loss ignores. */
  const IgnoreIndex: int := -100

  function Copies(n: nat, x: int): (r: seq<int>)
    ensures |r| == n && forall k :: 0 <= k < n ==> r[k] == x
  {
    seq(n, _ => x)
  }

  /** `[-100] * prompt_len + ids[prompt_len:]`: the prompt's positions are masked, the rest keep their ids. */
  function Labels(ids: seq<int>, promptLen: nat): (r: seq<int>)
    ensures |r| == if promptLen <= |ids| then |ids| else promptLen
    ensures forall k :: 0 <= k < |r| ==> r[k] == if promptLen <= k then ids[k] else IgnoreIndex
  {
    Copies(promptLen, IgnoreIndex) + (if promptLen <= |ids| then ids[promptLen..] else [])
  }

  /**
   * Truncation to `maxLen` and right padding: every position below the
   * tokenized length keeps its id (and its mask), every later one holds the
   * pad id with mask 0; a name is the id exactly at the response positions
   * and -100 everywhere else.
   */
  function Encode(t: Tokenized, promptLen: nat, maxLen: nat, padId: int): (e: Encoded)
    ensures |e.inputIds| == maxLen
    ensures forall k :: 0 <= k < maxLen ==> e.inputIds[k] == if k < |t.inputIds| then t.inputIds[k] else padId
    ensures |t.attentionMask| == |t.inputIds| ==> |e.attentionMask| == maxLen
    ensures |t.attentionMask| == |t.inputIds| ==>
      forall k :: 0 <= k < maxLen ==> e.attentionMask[k] == if k < |t.inputIds| then t.attentionMask[k] else 0
    ensures promptLen <= |t.inputIds| ==> |e.labels| == maxLen
    ensures forall k :: 0 <= k < |e.labels| ==>
      e.labels[k] == if promptLen <= k < |t.inputIds| then t.inputIds[k] else IgnoreIndex
  {
    var ids := Strings.FirstN(t.inputIds, maxLen);
    var mask := Strings.FirstN(t.attentionMask, maxLen);
    var labels := Strings.FirstN(Labels(t.inputIds, promptLen), maxLen);
    if |ids| < maxLen then
      var padLen := maxLen - |ids|;
      Encoded(ids + Copies(padLen, padId), mask + Copies(padLen, 0), labels + Copies(padLen, IgnoreIndex))
    else
      Encoded(ids, mask, labels)
  }

  /** A tokenizer: text and `max_length` to ids and mask. */
  type Tokenizer = (string, nat) -> Tokenized

  const EndOfSequence: string := " </s>"

  /** The training text of one dialogue: its prompt with the one emotion at 0.7, the response and the end token. */
  function FullText(d: Dialogue): (r: string)
    ensures Strings.StartsWith(r, FormatPrompt(d.journalEntry, [Prompts.EmotionItem(d.emotion, Some(0.7))]))
  {
    var p := FormatPrompt(d.journalEntry, [Prompts.EmotionItem(d.emotion, Some(0.7))]);
    var r := p + d.response + EndOfSequence;
    assert r[..|p|] == p;
    r
  }

  /** One example of `preprocess_data`; the prompt is tokenized alone to find where the labels start. */
  function PreprocessItem(d: Dialogue, tok: Tokenizer, maxInput: nat, maxOutput: nat, padId: int): (e: Encoded)
    ensures |e.inputIds| == maxInput + maxOutput
  {
    var prompt := FormatPrompt(d.journalEntry, [Prompts.EmotionItem(d.emotion, Some(0.7))]);
    var t := tok(FullText(d), maxInput + maxOutput);
    var promptLen := |tok(prompt, maxInput).inputIds|;
    Encode(t, promptLen, maxInput + maxOutput, padId)
  }

  /** `preprocess_data`: one encoded example per dialogue, in order. */
  method PreprocessData(data: seq<Dialogue>, tok: Tokenizer, maxInput: nat, maxOutput: nat, padId: int)
    returns (out: seq<Encoded>)
    ensures |out| == |data|
    ensures forall k :: 0 <= k < |data| ==> out[k] == PreprocessItem(data[k], tok, maxInput, maxOutput, padId)
  {
    ghost var f := Preprocessor(tok, maxInput, maxOutput, padId);
    out := [];
    for i := 0 to |data|
      invariant out == Seqs.Mapped(data[..i], f)
    {
      Seqs.MappedSnoc(data, f, i);
      out := out + [PreprocessItem(data[i], tok, maxInput, maxOutput, padId)];
    }
    assert data[..|data|] == data;
    forall k | 0 <= k < |data| ensures out[k] == PreprocessItem(data[k], tok, maxInput, maxOutput, padId) {
      Seqs.MappedAt(data, f, k);
    }
  }

  /** `preprocess_data`'s per-item step as a function value. */
  function Preprocessor(tok: Tokenizer, maxInput: nat, maxOutput: nat, padId: int): Dialogue -> Encoded {
    d => PreprocessItem(d, tok, maxInput, maxOutput, padId)
  }

  // ----- train_model: the splits -------------------------------------------

  /** The `data` section's split fractions. */
  datatype SplitConfig = SplitConfig(trainSplit: real, valSplit: real, testSplit: real)

  /** Either a fresh split of the whole preprocessed set, or the file's own splits. */
  datatype SplitPlan =
    | Resplit(testSize: real, valTestSize: real)
    | Original(train: seq<Dialogue>, val: seq<Dialogue>, test: seq<Dialogue>)

  /**
   * The data handling of `train_model`: ValueError on no data; without
   * validation dialogues a split with `test_size = 1 - train_split`, whose
   * held-out part is split again at `test / (val + test)`; otherwise the
   * tagged train and validation dialogues, validation doubling as test.
   */
  function PlanSplits(data: seq<Dialogue>, cfg: SplitConfig): (r: Result<SplitPlan, TrainError>)
    ensures r.Err? <==> data == [] || (WithTag(data, ValSplit) == [] && cfg.valSplit + cfg.testSplit == 0.0)
    ensures data == [] ==> r == Err(NoTrainingData)
    ensures r.Ok? && r.value.Original? ==>
      WithTag(data, ValSplit) != [] && r.value.train == WithTag(data, TrainSplit)
      && r.value.val == WithTag(data, ValSplit) && r.value.test == r.value.val
    ensures r.Ok? && r.value.Resplit? ==>
      WithTag(data, ValSplit) == [] && r.value.testSize == 1.0 - cfg.trainSplit
      && r.value.valTestSize * (cfg.valSplit + cfg.testSplit) == cfg.testSplit
  {
    if data == [] then Err(NoTrainingData)
    else
      var val := WithTag(data, ValSplit);
      if val == [] then
        if cfg.valSplit + cfg.testSplit == 0.0 then Err(ZeroDivision)
        else Ok(Resplit(1.0 - cfg.trainSplit, cfg.testSplit / (cfg.valSplit + cfg.testSplit)))
      else Ok(Original(WithTag(data, TrainSplit), val, val))
  }

  /** With the file's own splits, train and validation together hold every dialogue, each once. */
  lemma OriginalPartition(train: seq<CsvRow>, val: seq<CsvRow>, cfg: SplitConfig)
    requires KeptRows(val, ValSplit) != []
    ensures var r := PlanSplits(LoadedDialogues(train, Some(val)), cfg);
      r.Ok? && r.value.Original?
      && r.value.train == KeptRows(train, TrainSplit) && r.value.val == KeptRows(val, ValSplit)
      && |r.value.train| + |r.value.val| == |LoadedDialogues(train, Some(val))|
  {
    LoadedTags(train, Some(val));
    WithTagCount(LoadedDialogues(train, Some(val)));
  }
}
