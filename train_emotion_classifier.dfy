/**
 * The bookkeeping around training the multi-label emotion classifier: the
 * label matrix built from a DepressionEmo frame, the strict 0.5 cut used
 * when scoring it and the metadata file saved with it (the 70/15/15 split
 * is `Splits.ThreeWaySplit`).
 */
module TrainEmotionClassifier {
  import opened Wrappers
  import Strings
  import Frames
  import Splits
  import PrepareDepressionEmo
  import Synth = SynthesizeTrainingData
  import ModelPredictors

  /** A label after `astype(float)`; a missing value stays NaN. */
  datatype FloatVal = Num(v: real) | NotANumber

  datatype LabelError = NoTextColumn | NoEmotionColumns | AttributeError

  /** `astype(float)` of one cell of a numeric or boolean column. */
  function AsFloat(c: Frames.Cell): (r: FloatVal)
    requires !c.Str?
    ensures r.NotANumber? <==> c.NaN? || c.NoneCell?
  {
    if c.Int? then Num(c.i as real)
    else if c.Float? then Num(c.x)
    else if c.Bool? then Num(if c.b then 1.0 else 0.0)
    else NotANumber
  }

  /**
   * One label column as intended: an object column becomes 1.0 exactly where
   * its text is case-insensitively 'true' and 0.0 elsewhere; any other column
   * is cast to float.
   */
  function ColumnLabels(col: Frames.Column): (r: seq<FloatVal>)
    requires Frames.WellTyped(col)
    ensures |r| == |col.cells|
    ensures col.kind.ObjectKind? ==> forall k :: 0 <= k < |r| ==> (r[k] == Num(1.0) <==> Frames.IsTrueText(col.cells[k]))
    ensures col.kind.ObjectKind? ==> forall k :: 0 <= k < |r| ==> r[k] == Num(1.0) || r[k] == Num(0.0)
    ensures !col.kind.ObjectKind? ==> forall k :: 0 <= k < |r| ==> r[k] == AsFloat(col.cells[k])
  {
    if col.kind.ObjectKind? then
      seq(|col.cells|, k requires 0 <= k < |col.cells| => Num(if Frames.IsTrueText(col.cells[k]) then 1.0 else 0.0))
    else
      seq(|col.cells|, k requires 0 <= k < |col.cells| => AsFloat(col.cells[k]))
  }

  /**
   * The conversion as written: `values` of an object column is a NumPy array,
   * which has no `.str` accessor, so the object branch raises.
   */
  function ColumnLabelsAsWritten(col: Frames.Column): (r: Result<seq<FloatVal>, LabelError>)
    requires Frames.WellTyped(col)
    ensures r.Err? <==> col.kind.ObjectKind?
    ensures r.Ok? ==> r.value == ColumnLabels(col)
  {
    if col.kind.ObjectKind? then Err(AttributeError) else Ok(ColumnLabels(col))
  }

  /** A column of "True"/"false" strings: the code raises where 1.0, 0.0 was meant. */
  lemma ObjectColumnRaises()
    ensures ColumnLabelsAsWritten(Frames.Column("sadness", Frames.ObjectKind, [Frames.Str("True"), Frames.Str("false")])).Err?
    ensures ColumnLabels(Frames.Column("sadness", Frames.ObjectKind, [Frames.Str("True"), Frames.Str("false")])) == [Num(1.0), Num(0.0)]
  {
    var col := Frames.Column("sadness", Frames.ObjectKind, [Frames.Str("True"), Frames.Str("false")]);
    assert Strings.Lower("True") == "true";
    assert Strings.Lower("false") != "true" by {
      assert |Strings.Lower("false")| == 5;
    }
    assert ColumnLabels(col)[0] == Num(1.0);
    assert ColumnLabels(col)[1] == Num(0.0);
  }

  // ----- prepare_emotion_labels ----------------------------------------------

  predicate WellTypedFrame(cols: seq<Frames.Column>) {
    forall k :: 0 <= k < |cols| ==> Frames.WellTyped(cols[k])
  }

  /** Which vocabulary entries are columns of the frame. */
  function PresentMask(cols: seq<Frames.Column>, emotions: seq<string>): (m: seq<bool>)
    ensures |m| == |emotions|
    ensures forall k :: 0 <= k < |emotions| ==> (m[k] <==> Frames.ColumnIndex(cols, emotions[k]).Some?)
  {
    seq(|emotions|, k requires 0 <= k < |emotions| => Frames.ColumnIndex(cols, emotions[k]).Some?)
  }

  /** `available_emotions`: the vocabulary entries present as columns, in vocabulary order. */
  function Available(cols: seq<Frames.Column>, emotions: seq<string>): seq<string> {
    Frames.Select(emotions, PresentMask(cols, emotions))
  }

  /** The label column of each available emotion, in order. */
  function LabelsOf(cols: seq<Frames.Column>, names: seq<string>): (r: seq<seq<FloatVal>>)
    requires WellTypedFrame(cols)
    requires forall k :: 0 <= k < |names| ==> Frames.ColumnIndex(cols, names[k]).Some?
    ensures |r| == |names|
  {
    seq(|names|, k requires 0 <= k < |names| => ColumnLabels(cols[Frames.ColumnIndex(cols, names[k]).value]))
  }

  /** `np.stack(columns, axis=1)`: row `j` holds entry `j` of every column. */
  function Stack(columns: seq<seq<FloatVal>>, n: nat): (m: seq<seq<FloatVal>>)
    requires forall k :: 0 <= k < |columns| ==> |columns[k]| == n
    ensures |m| == n && forall j :: 0 <= j < n ==> |m[j]| == |columns|
    ensures forall j, k :: 0 <= j < n && 0 <= k < |columns| ==> m[j][k] == columns[k][j]
  {
    seq(n, j requires 0 <= j < n => seq(|columns|, k requires 0 <= k < |columns| => columns[k][j]))
  }

  datatype Prepared = Prepared(texts: seq<string>, labels: seq<seq<FloatVal>>, emotions: seq<string>)

  lemma AvailablePresent(cols: seq<Frames.Column>, emotions: seq<string>)
    ensures forall k :: 0 <= k < |Available(cols, emotions)| ==> Frames.ColumnIndex(cols, Available(cols, emotions)[k]).Some?
  {
    var av := Available(cols, emotions);
    forall k | 0 <= k < |av| ensures Frames.ColumnIndex(cols, av[k]).Some? {
      Frames.SelectMembers(emotions, PresentMask(cols, emotions), av[k]);
    }
  }

  /**
   * What `prepare_emotion_labels` returns for the vocabulary `vocab`
   * (DEPRESSION_EMOTIONS in the script), with object columns converted as intended.
   */
  function PrepareWith(cols: seq<Frames.Column>, vocab: seq<string>): Result<Prepared, LabelError>
    requires Frames.Rectangular(cols) && WellTypedFrame(cols)
  {
    match Frames.ColumnIndex(cols, "text")
    case None => Err(NoTextColumn)
    case Some(t) =>
      var av := Available(cols, vocab);
      AvailablePresent(cols, vocab);
      if av == [] then Err(NoEmotionColumns)
      else Ok(Prepared(Frames.AsText(cols[t].cells), Stack(LabelsOf(cols, av), Frames.Height(cols)), av))
  }

  /** The loop over the vocabulary: each emotion that is a column contributes its converted labels. */
  method CollectLabels(cols: seq<Frames.Column>, vocab: seq<string>) returns (emotionLabels: seq<seq<FloatVal>>, available: seq<string>)
    requires WellTypedFrame(cols)
    ensures available == Available(cols, vocab)
    ensures forall k :: 0 <= k < |available| ==> Frames.ColumnIndex(cols, available[k]).Some?
    ensures emotionLabels == LabelsOf(cols, available)
  {
    emotionLabels := [];
    available := [];
    var i := 0;
    while i < |vocab|
      invariant 0 <= i <= |vocab|
      invariant available == Available(cols, vocab[..i])
      invariant forall k :: 0 <= k < |available| ==> Frames.ColumnIndex(cols, available[k]).Some?
      invariant emotionLabels == LabelsOf(cols, available)
    {
      var emotion := vocab[i];
      var c := Frames.ColumnIndex(cols, emotion);
      assert vocab[..i + 1] == vocab[..i] + [emotion];
      assert PresentMask(cols, vocab[..i + 1]) == PresentMask(cols, vocab[..i]) + [c.Some?];
      Frames.SelectSnoc(vocab[..i], PresentMask(cols, vocab[..i]), emotion, c.Some?);
      if c.Some? {
        emotionLabels := emotionLabels + [ColumnLabels(cols[c.value])];
        available := available + [emotion];
      }
      i := i + 1;
    }
    assert vocab[..i] == vocab;
  }

  /**
   * `prepare_emotion_labels`: the 'text' column is required, then the
   * vocabulary loop, then at least one emotion column is required.
   */
  method PrepareEmotionLabels(cols: seq<Frames.Column>) returns (r: Result<Prepared, LabelError>)
    requires Frames.Rectangular(cols) && WellTypedFrame(cols)
    ensures r == PrepareWith(cols, PrepareDepressionEmo.StandardEmotions)
  {
    var t := Frames.ColumnIndex(cols, "text");
    if t.None? {
      return Err(NoTextColumn);
    }
    var texts := Frames.AsText(cols[t.value].cells);
    var emotionLabels, available := CollectLabels(cols, PrepareDepressionEmo.StandardEmotions);
    if emotionLabels == [] {
      return Err(NoEmotionColumns);
    }
    r := Ok(Prepared(texts, Stack(emotionLabels, Frames.Height(cols)), available));
  }

  /**
   * The error cases of `prepare_emotion_labels`, and the shape of its
   * result: one text and one label row per sample, one label per available
   * emotion, and the available emotions are the vocabulary entries that are columns.
   */
  lemma PrepareFacts(cols: seq<Frames.Column>, vocab: seq<string>)
    requires Frames.Rectangular(cols) && WellTypedFrame(cols)
    ensures PrepareWith(cols, vocab) == Err(NoTextColumn) <==> "text" !in Frames.Names(cols)
    ensures PrepareWith(cols, vocab) == Err(NoEmotionColumns) <==>
      ("text" in Frames.Names(cols) && forall e :: e in vocab ==> e !in Frames.Names(cols))
    ensures PrepareWith(cols, vocab).Ok? ==>
      var p := PrepareWith(cols, vocab).value;
      |p.texts| == |p.labels| == Frames.Height(cols)
      && (forall j :: 0 <= j < |p.labels| ==> |p.labels[j]| == |p.emotions|)
      && (forall e :: e in p.emotions <==> e in vocab && e in Frames.Names(cols))
  {
    Frames.ColumnIndexNames(cols, "text");
    var av := Available(cols, vocab);
    forall e ensures e in av <==> e in vocab && e in Frames.Names(cols) {
      Frames.SelectMembers(vocab, PresentMask(cols, vocab), e);
      Frames.ColumnIndexNames(cols, e);
    }
    if av != [] {
      assert av[0] in av;
    }
    if Frames.ColumnIndex(cols, "text").Some? {
      var t := Frames.ColumnIndex(cols, "text").value;
      assert |cols[t].cells| == Frames.Height(cols);
    }
  }

  /** Entry `(j, k)` of the matrix is sample `j` of emotion `k`'s converted column. */
  lemma PrepareEntries(cols: seq<Frames.Column>, vocab: seq<string>, j: nat, k: nat)
    requires Frames.Rectangular(cols) && WellTypedFrame(cols)
    requires PrepareWith(cols, vocab).Ok?
    requires j < |PrepareWith(cols, vocab).value.labels| && k < |PrepareWith(cols, vocab).value.emotions|
    ensures Frames.ColumnIndex(cols, PrepareWith(cols, vocab).value.emotions[k]).Some?
    ensures PrepareWith(cols, vocab).value.labels[j][k]
      == ColumnLabels(cols[Frames.ColumnIndex(cols, PrepareWith(cols, vocab).value.emotions[k]).value])[j]
  {
    AvailablePresent(cols, vocab);
  }

  /** Whether some vocabulary emotion is read from an object column. */
  predicate SomeObjectLabel(cols: seq<Frames.Column>, vocab: seq<string>) {
    exists k :: 0 <= k < |cols| && cols[k].kind.ObjectKind? && cols[k].name in vocab && Frames.ColumnIndex(cols, cols[k].name) == Some(k)
  }

  /** The function as written: the first object label column raises. */
  function PrepareAsWritten(cols: seq<Frames.Column>, vocab: seq<string>): (r: Result<Prepared, LabelError>)
    requires Frames.Rectangular(cols) && WellTypedFrame(cols)
    ensures r.Ok? ==> r == PrepareWith(cols, vocab)
    ensures r == Err(AttributeError) <==> "text" in Frames.Names(cols) && SomeObjectLabel(cols, vocab)
  {
    Frames.ColumnIndexNames(cols, "text");
    if Frames.ColumnIndex(cols, "text").None? then Err(NoTextColumn)
    else if SomeObjectLabel(cols, vocab) then Err(AttributeError)
    else PrepareWith(cols, vocab)
  }

  // ----- compute_metrics ---------------------------------------------------

  /** `(probs > 0.5).float()`: the cut is strict. */
  function Binarize(probs: seq<seq<real>>): (r: seq<seq<real>>)
    ensures |r| == |probs|
    ensures forall i :: 0 <= i < |r| ==> |r[i]| == |probs[i]|
    ensures forall i, j :: 0 <= i < |r| && 0 <= j < |r[i]| ==> (r[i][j] == 1.0 <==> probs[i][j] > 0.5)
    ensures forall i, j :: 0 <= i < |r| && 0 <= j < |r[i]| ==> r[i][j] == 0.0 || r[i][j] == 1.0
  {
    seq(|probs|, i requires 0 <= i < |probs| =>
      seq(|probs[i]|, j requires 0 <= j < |probs[i]| => if probs[i][j] > 0.5 then 1.0 else 0.0))
  }

  /**
   * A probability of exactly 0.5 counts as negative when the classifier is
   * scored, yet the serving predictor with its default 0.5 threshold reports it.
   */
  lemma EvaluationStricterThanServing(name: string)
    ensures Binarize([[0.5]]) == [[0.0]]
    ensures ModelPredictors.Reported(ModelPredictors.EmotionPredictor([name], [0.5]), [0.5], false, 0)
  {
    assert Binarize([[0.5]])[0] == [0.0];
  }

  // ----- saved metadata ------------------------------------------------------

  /** `emotion_info.json` as written after training: names and their count, no thresholds. */
  datatype SavedInfo = SavedInfo(emotionNames: seq<string>, numEmotions: nat)

  function EmotionInfoFile(emotionNames: seq<string>): (r: SavedInfo)
    ensures r.emotionNames == emotionNames && r.numEmotions == |emotionNames|
  {
    SavedInfo(emotionNames, |emotionNames|)
  }

  /** How the synthesis script reads that file back: the thresholds key is absent. */
  function AsRead(info: SavedInfo): Synth.EmotionInfo {
    Synth.EmotionInfo(Some(info.emotionNames), None)
  }

  /** A classifier loaded from the saved metadata falls back to 0.5 for every emotion. */
  lemma SavedInfoDefaultsThresholds(emotionNames: seq<string>)
    ensures Synth.LoadClassifier(true, Some(AsRead(EmotionInfoFile(emotionNames))))
      == Ok(Synth.Classifier(emotionNames, Synth.HalfEach(|emotionNames|)))
  {
  }
}
