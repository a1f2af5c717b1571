/**
 * The data side of training the sentiment classifier: finding the text and
 * sentiment columns of `train.csv`, cleaning both frames, fitting the label
 * encoder on the training labels only (dropping test rows whose label it
 * never saw) and choosing between the 80/20 and the 70/15/15 split.
 */
module TrainSentimentModel {
  import opened Wrappers
  import Strings
  import Frames
  import Splits
  import Sorting

  // ----- column detection -------------------------------------------------

  /** The first position whose lower-cased name equals `target`. */
  function FirstLowerMatch(names: seq<string>, target: string): (r: Option<nat>)
    ensures r.Some? ==> r.value < |names| && Strings.Lower(names[r.value]) == target
    ensures r.Some? ==> forall j :: 0 <= j < r.value ==> Strings.Lower(names[j]) != target
    ensures r.None? <==> forall j :: 0 <= j < |names| ==> Strings.Lower(names[j]) != target
  {
    if names == [] then None
    else if Strings.Lower(names[0]) == target then Some(0)
    else match FirstLowerMatch(names[1..], target)
      case None => None
      case Some(k) => Some(k + 1)
  }

  /**
   * The column used for `target`: `target` itself when a column has exactly
   * that name, otherwise the first column whose lower-cased name equals it.
   */
  function ColumnSpec(names: seq<string>, target: string): (r: Option<string>)
    ensures target in names ==> r == Some(target)
    ensures r.Some? ==> r.value in names && Strings.Lower(r.value) == Strings.Lower(target)
    ensures r.None? <==> forall j :: 0 <= j < |names| ==> names[j] != target && Strings.Lower(names[j]) != target
  {
    if target in names then
      Strings.LowerIdempotent(target);
      Some(target)
    else match FirstLowerMatch(names, target)
      case None => None
      case Some(k) =>
        Strings.LowerIdempotent(names[k]);
        Some(names[k])
  }

  /** The exact check, then the case-insensitive loop with its `break`. */
  method FindColumn(names: seq<string>, target: string) returns (r: Option<string>)
    ensures r == ColumnSpec(names, target)
  {
    if target in names {
      return Some(target);
    }
    var i := 0;
    while i < |names|
      invariant 0 <= i <= |names|
      invariant forall j :: 0 <= j < i ==> Strings.Lower(names[j]) != target
    {
      if Strings.Lower(names[i]) == target {
        FirstLowerAt(names, target, i);
        return Some(names[i]);
      }
      i := i + 1;
    }
    r := None;
  }

  lemma {:induction false} FirstLowerAt(names: seq<string>, target: string, i: nat)
    requires i < |names| && Strings.Lower(names[i]) == target
    requires forall j :: 0 <= j < i ==> Strings.Lower(names[j]) != target
    ensures FirstLowerMatch(names, target) == Some(i)
  {
    if i > 0 {
      FirstLowerAt(names[1..], target, i - 1);
    }
  }

  // ----- cleaning -----------------------------------------------------------

  /** One row of the cleaned frame, before its columns are renamed `text` and `sentiment`. */
  datatype Row = Row(text: Frames.Cell, sentiment: Frames.Cell)

  /** What `dropna` removes. */
  predicate IsNull(c: Frames.Cell) {
    c.NaN? || c.NoneCell?
  }

  /** `dropna()` followed by `text.astype(str).str.strip() != ''`. */
  predicate Kept(r: Row) {
    !IsNull(r.text) && !IsNull(r.sentiment) && Strings.Strip(Frames.CellText(r.text)) != []
  }

  function KeptMask(rows: seq<Row>): (m: seq<bool>)
    ensures |m| == |rows| && forall k :: 0 <= k < |rows| ==> m[k] == Kept(rows[k])
  {
    seq(|rows|, k requires 0 <= k < |rows| => Kept(rows[k]))
  }

  /** The rows that survive cleaning, in their original order. */
  function Clean(rows: seq<Row>): (r: seq<Row>)
    ensures |r| <= |rows|
  {
    Frames.Select(rows, KeptMask(rows))
  }

  /** A row is in the cleaned frame iff it was in the input and has no null and no blank text. */
  lemma CleanMembers(rows: seq<Row>, x: Row)
    ensures x in Clean(rows) <==> x in rows && Kept(x)
  {
    Frames.SelectMembers(rows, KeptMask(rows), x);
  }

  /** `df[[text_col, sentiment_col]]` as rows. */
  function RowsOf(cols: seq<Frames.Column>, t: nat, s: nat): (r: seq<Row>)
    requires Frames.Rectangular(cols) && t < |cols| && s < |cols|
    ensures |r| == Frames.Height(cols)
    ensures forall k :: 0 <= k < |r| ==> r[k] == Row(cols[t].cells[k], cols[s].cells[k])
  {
    seq(Frames.Height(cols), k requires 0 <= k < Frames.Height(cols) => Row(cols[t].cells[k], cols[s].cells[k]))
  }

  datatype LoadError =
    | TrainMissing                            // FileNotFoundError: no train.csv
    | ColumnsNotFound(text: Option<string>, sentiment: Option<string>)  // ValueError
    | TestColumnMissing                       // KeyError selecting the training names from test.csv

  datatype Loaded = Loaded(train: seq<Row>, test: Option<seq<Row>>)

  /** The cleaned test frame, read with the column names chosen on the training frame. */
  function CleanTest(test: seq<Frames.Column>, t: string, s: string): (r: Result<seq<Row>, LoadError>)
    requires Frames.Rectangular(test)
    ensures r.Err? <==> t !in Frames.Names(test) || s !in Frames.Names(test)
  {
    Frames.ColumnIndexNames(test, t);
    Frames.ColumnIndexNames(test, s);
    match (Frames.ColumnIndex(test, t), Frames.ColumnIndex(test, s))
    case (Some(i), Some(j)) => Ok(Clean(RowsOf(test, i, j)))
    case _ => Err(TestColumnMissing)
  }

  /**
   * `load_and_explore_data`: `train` and `test` are the two CSV files,
   * `None` where the file does not exist.
   */
  function LoadSpec(train: Option<seq<Frames.Column>>, test: Option<seq<Frames.Column>>): (r: Result<Loaded, LoadError>)
    requires train.Some? ==> Frames.Rectangular(train.value)
    requires test.Some? ==> Frames.Rectangular(test.value)
  {
    match train
    case None => Err(TrainMissing)
    case Some(cols) =>
      var names := Frames.Names(cols);
      var t := ColumnSpec(names, "text");
      var s := ColumnSpec(names, "sentiment");
      if t.None? || s.None? then Err(ColumnsNotFound(t, s))
      else
        Frames.ColumnIndexNames(cols, t.value);
        Frames.ColumnIndexNames(cols, s.value);
        var rows := Clean(RowsOf(cols, Frames.ColumnIndex(cols, t.value).value, Frames.ColumnIndex(cols, s.value).value));
        match test
        case None => Ok(Loaded(rows, None))
        case Some(tc) =>
          match CleanTest(tc, t.value, s.value)
          case Err(e) => Err(e)
          case Ok(testRows) => Ok(Loaded(rows, Some(testRows)))
  }

  method LoadAndExploreData(train: Option<seq<Frames.Column>>, test: Option<seq<Frames.Column>>) returns (r: Result<Loaded, LoadError>)
    requires train.Some? ==> Frames.Rectangular(train.value)
    requires test.Some? ==> Frames.Rectangular(test.value)
    ensures r == LoadSpec(train, test)
  {
    if train.None? {
      return Err(TrainMissing);
    }
    var cols := train.value;
    var t := FindColumn(Frames.Names(cols), "text");
    var s := FindColumn(Frames.Names(cols), "sentiment");
    if t.None? || s.None? {
      return Err(ColumnsNotFound(t, s));
    }
    Frames.ColumnIndexNames(cols, t.value);
    Frames.ColumnIndexNames(cols, s.value);
    var rows := Clean(RowsOf(cols, Frames.ColumnIndex(cols, t.value).value, Frames.ColumnIndex(cols, s.value).value));
    if test.None? {
      return Ok(Loaded(rows, None));
    }
    var testRows := CleanTest(test.value, t.value, s.value);
    r := match testRows
      case Err(e) => Err(e)
      case Ok(tr) => Ok(Loaded(rows, Some(tr)));
  }

  /**
   * Loading fails for a missing `train.csv` or a missing column, and
   * otherwise yields frames holding no null and no blank text.
   */
  lemma LoadFacts(train: Option<seq<Frames.Column>>, test: Option<seq<Frames.Column>>)
    requires train.Some? ==> Frames.Rectangular(train.value)
    requires test.Some? ==> Frames.Rectangular(test.value)
    ensures LoadSpec(train, test) == Err(TrainMissing) <==> train.None?
    ensures LoadSpec(train, test).Err? && LoadSpec(train, test).error.ColumnsNotFound? <==>
      train.Some? && (ColumnSpec(Frames.Names(train.value), "text").None? || ColumnSpec(Frames.Names(train.value), "sentiment").None?)
    ensures LoadSpec(train, test).Ok? ==> forall x :: x in LoadSpec(train, test).value.train ==> Kept(x)
    ensures LoadSpec(train, test).Ok? ==> (LoadSpec(train, test).value.test.Some? <==> test.Some?)
    ensures LoadSpec(train, test).Ok? && test.Some? ==> forall x :: x in LoadSpec(train, test).value.test.value ==> Kept(x)
  {
    var r := LoadSpec(train, test);
    if r.Ok? {
      var cols := train.value;
      var t := ColumnSpec(Frames.Names(cols), "text").value;
      var s := ColumnSpec(Frames.Names(cols), "sentiment").value;
      Frames.ColumnIndexNames(cols, t);
      Frames.ColumnIndexNames(cols, s);
      var rows := RowsOf(cols, Frames.ColumnIndex(cols, t).value, Frames.ColumnIndex(cols, s).value);
      forall x | x in r.value.train ensures Kept(x) {
        CleanMembers(rows, x);
      }
      if test.Some? {
        var tc := test.value;
        Frames.ColumnIndexNames(tc, t);
        Frames.ColumnIndexNames(tc, s);
        var testRows := RowsOf(tc, Frames.ColumnIndex(tc, t).value, Frames.ColumnIndex(tc, s).value);
        forall x | x in r.value.test.value ensures Kept(x) {
          CleanMembers(testRows, x);
        }
      }
    }
  }

  // ----- the label encoder --------------------------------------------------

  /** `transform`: the position of `label` in the class list. */
  function Encode(classes: seq<string>, name: string): (k: nat)
    requires name in classes
    ensures k < |classes| && classes[k] == name
    ensures forall j :: 0 <= j < k ==> classes[j] != name
  {
    if classes[0] == name then 0 else 1 + Encode(classes[1..], name)
  }

  /** Codes follow the order of the labels. */
  lemma EncodeMonotone(labels: seq<string>, a: string, b: string)
    requires a in labels && b in labels && Sorting.StrLess(a, b)
    ensures Encode(Sorting.SortedUnique(labels), a) < Encode(Sorting.SortedUnique(labels), b)
  {
    var cs := Sorting.SortedUnique(labels);
    Sorting.SortedUniqueIncreasing(labels);
    var i := Encode(cs, a);
    var j := Encode(cs, b);
    if j < i {
      Sorting.StrLessTrans(a, b, a);
      Sorting.StrLessIrreflexive(a);
    } else if i == j {
      Sorting.StrLessIrreflexive(a);
    }
  }

  /** Each code names its own label, and codes are `0 .. len(classes_)-1`. */
  lemma EncodeDecode(labels: seq<string>, a: string)
    requires a in labels
    ensures Encode(Sorting.SortedUnique(labels), a) < |Sorting.SortedUnique(labels)|
    ensures Sorting.SortedUnique(labels)[Encode(Sorting.SortedUnique(labels), a)] == a
  {
  }

  /** `sentiment`: the label as the encoder sees it. */
  function LabelOf(r: Row): string {
    Frames.CellText(r.sentiment)
  }

  function Labels(rows: seq<Row>): (r: seq<string>)
    ensures |r| == |rows| && forall k :: 0 <= k < |rows| ==> r[k] == LabelOf(rows[k])
  {
    seq(|rows|, k requires 0 <= k < |rows| => LabelOf(rows[k]))
  }

  /** A preprocessed frame: stripped texts with their codes. */
  datatype Encoded = Encoded(texts: seq<string>, codes: seq<nat>)

  datatype EncodeError = UnseenLabel

  /** `transform` of a label list: each label's code; an unseen label raises. */
  function Codes(classes: seq<string>, labels: seq<string>): (r: Result<seq<nat>, EncodeError>)
    ensures r.Err? <==> exists k :: 0 <= k < |labels| && labels[k] !in classes
    ensures r.Ok? ==> |r.value| == |labels|
    ensures r.Ok? ==> forall k :: 0 <= k < |labels| ==> r.value[k] < |classes| && classes[r.value[k]] == labels[k]
  {
    if exists k :: 0 <= k < |labels| && labels[k] !in classes then Err(UnseenLabel)
    else Ok(seq(|labels|, k requires 0 <= k < |labels| => Encode(classes, labels[k])))
  }

  /** `df['text'].astype(str).str.strip()`. */
  function Texts(rows: seq<Row>): (r: seq<string>)
    ensures |r| == |rows| && forall k :: 0 <= k < |rows| ==> r[k] == Strings.Strip(Frames.CellText(rows[k].text))
  {
    seq(|rows|, k requires 0 <= k < |rows| => Strings.Strip(Frames.CellText(rows[k].text)))
  }

  /** Each code is the position of its row's label in the class list. */
  predicate Decodes(classes: seq<string>, enc: Encoded, rows: seq<Row>) {
    |enc.codes| == |rows|
    && forall k :: 0 <= k < |rows| ==> enc.codes[k] < |classes| && classes[enc.codes[k]] == LabelOf(rows[k])
  }

  /** The rows' stripped texts with their codes. */
  function EncodeRows(classes: seq<string>, rows: seq<Row>): (r: Result<Encoded, EncodeError>)
    ensures r.Err? <==> exists k :: 0 <= k < |rows| && LabelOf(rows[k]) !in classes
    ensures r.Ok? ==> r.value.texts == Texts(rows) && Decodes(classes, r.value, rows)
  {
    match Codes(classes, Labels(rows))
    case Err(e) =>
      var k :| 0 <= k < |rows| && Labels(rows)[k] !in classes;
      Err(e)
    case Ok(cs) => Ok(Encoded(Texts(rows), cs))
  }

  function KnownMask(classes: seq<string>, rows: seq<Row>): (m: seq<bool>)
    ensures |m| == |rows| && forall k :: 0 <= k < |rows| ==> m[k] == (LabelOf(rows[k]) in classes)
  {
    seq(|rows|, k requires 0 <= k < |rows| => LabelOf(rows[k]) in classes)
  }

  /** `test_df[test_df['sentiment'].isin(train_labels)]`. */
  function KnownRows(classes: seq<string>, rows: seq<Row>): (r: seq<Row>)
    ensures forall k :: 0 <= k < |r| ==> LabelOf(r[k]) in classes
  {
    var r := Frames.Select(rows, KnownMask(classes, rows));
    forall k | 0 <= k < |r| ensures LabelOf(r[k]) in classes {
      assert r[k] in r;
      Frames.SelectMembers(rows, KnownMask(classes, rows), r[k]);
    }
    r
  }

  /** Once unknown labels are dropped, `transform` cannot fail. */
  lemma EncodeKnown(classes: seq<string>, rows: seq<Row>)
    ensures EncodeRows(classes, KnownRows(classes, rows)).Ok?
  {
  }

  datatype Preprocessed = Preprocessed(train: Encoded, test: Option<Encoded>, classes: seq<string>)

  /**
   * `preprocess_data`: `encoder` is the fitted class list when one is passed
   * in; otherwise the encoder is fit on the training labels.
   */
  function PreprocessSpec(train: seq<Row>, test: Option<seq<Row>>, encoder: Option<seq<string>>): (r: Result<Preprocessed, EncodeError>)
    ensures r.Ok? ==> r.value.classes == (if encoder.Some? then encoder.value else Sorting.SortedUnique(Labels(train)))
    ensures encoder.None? ==> r.Ok?
    ensures r.Ok? ==> (r.value.test.Some? <==> test.Some?)
    ensures r.Ok? ==> r.value.train.texts == Texts(train)
    ensures r.Ok? ==> Decodes(r.value.classes, r.value.train, train)
    ensures r.Ok? && test.Some? ==> r.value.test.value.texts == Texts(KnownRows(r.value.classes, test.value))
    ensures r.Ok? && test.Some? ==> Decodes(r.value.classes, r.value.test.value, KnownRows(r.value.classes, test.value))
  {
    var classes := if encoder.Some? then encoder.value else Sorting.SortedUnique(Labels(train));
    match EncodeRows(classes, train)
    case Err(e) => Err(e)
    case Ok(enc) =>
      match test
      case None => Ok(Preprocessed(enc, None, classes))
      case Some(rows) =>
        EncodeKnown(classes, rows);
        Ok(Preprocessed(enc, Some(EncodeRows(classes, KnownRows(classes, rows)).value), classes))
  }

  /** The code loop of `transform`, which stops at the first unseen label. */
  method TransformLabels(classes: seq<string>, labels: seq<string>) returns (r: Result<seq<nat>, EncodeError>)
    ensures r == Codes(classes, labels)
  {
    var codes: seq<nat> := [];
    var i := 0;
    while i < |labels|
      invariant 0 <= i <= |labels|
      invariant |codes| == i
      invariant forall k :: 0 <= k < i ==> labels[k] in classes && codes[k] == Encode(classes, labels[k])
    {
      if labels[i] !in classes {
        return Err(UnseenLabel);
      }
      codes := codes + [Encode(classes, labels[i])];
      i := i + 1;
    }
    assert codes == seq(|labels|, k requires 0 <= k < |labels| => Encode(classes, labels[k]));
    r := Ok(codes);
  }

  method TransformRows(classes: seq<string>, rows: seq<Row>) returns (r: Result<Encoded, EncodeError>)
    ensures r == EncodeRows(classes, rows)
  {
    var codes := TransformLabels(classes, Labels(rows));
    r := match codes
      case Err(e) => Err(e)
      case Ok(cs) => Ok(Encoded(Texts(rows), cs));
  }

  method PreprocessData(train: seq<Row>, test: Option<seq<Row>>, encoder: Option<seq<string>>) returns (r: Result<Preprocessed, EncodeError>)
    ensures r == PreprocessSpec(train, test, encoder)
  {
    var classes := if encoder.Some? then encoder.value else Sorting.SortedUnique(Labels(train));
    var enc := TransformRows(classes, train);
    if enc.Err? {
      return Err(enc.error);
    }
    if test.None? {
      return Ok(Preprocessed(enc.value, None, classes));
    }
    var tenc := TransformRows(classes, KnownRows(classes, test.value));
    r := Ok(Preprocessed(enc.value, Some(tenc.value), classes));
  }

  /**
   * The encoder is fit on the training labels only: its classes are exactly
   * those labels, in increasing order, and every training row gets the code
   * of its own label.
   */
  lemma FitOnTrain(train: seq<Row>, test: Option<seq<Row>>)
    ensures PreprocessSpec(train, test, None).Ok?
    ensures forall y :: y in PreprocessSpec(train, test, None).value.classes <==> y in Labels(train)
    ensures Sorting.StrictlyIncreasing(PreprocessSpec(train, test, None).value.classes)
  {
    Sorting.SortedUniqueIncreasing(Labels(train));
  }

  /**
   * Test rows with a label the training data lacks are dropped; the rest keep
   * their order.
   */
  lemma TestKeepsKnown(train: seq<Row>, test: seq<Row>, x: Row)
    ensures x in KnownRows(Sorting.SortedUnique(Labels(train)), test) <==> x in test && LabelOf(x) in Labels(train)
  {
    Frames.SelectMembers(test, KnownMask(Sorting.SortedUnique(Labels(train)), test), x);
  }

  // ----- the split ----------------------------------------------------------

  /** Size of the validation part when a test file is given: `ceil(0.2 n)`. */
  function ValSize(n: nat): nat {
    Splits.TestCount(n, 1, 5)
  }

  /** The distinct labels of `y`. */
  function Classes(y: seq<nat>): set<nat> {
    set i | 0 <= i < |y| :: y[i]
  }

  /** Every class of `y` has at least two members. */
  predicate EveryClassTwice(y: seq<nat>) {
    forall c | c in Classes(y) :: multiset(y)[c] >= 2
  }

  /**
   * The checks scikit-learn's stratified shuffle makes once the side sizes
   * are known: a class with a single member is refused, then a training or
   * test side with fewer samples than there are classes.
   */
  function StratifyCheck(y: seq<nat>, nTest: nat): (r: Option<Splits.SplitError>)
    ensures r.None? <==> EveryClassTwice(y) && nTest >= |Classes(y)| && |y| - nTest >= |Classes(y)|
    ensures r == Some(Splits.SingleMemberClass) <==> !EveryClassTwice(y)
    ensures r.Some? ==> r.value != Splits.EmptySide
  {
    if !EveryClassTwice(y) then Some(Splits.SingleMemberClass)
    else if |y| - nTest < |Classes(y)| || nTest < |Classes(y)| then Some(Splits.FewerSamplesThanClasses)
    else None
  }

  /** The labels of the held-out part of the first 70/30 split, in shuffled order. */
  function TempLabels(y: seq<nat>, perm1: seq<nat>): (r: seq<nat>)
    requires Splits.IsPermutation(perm1, |y|)
    ensures |r| == Splits.TempSize(|y|)
    ensures forall k :: 0 <= k < |r| ==> r[k] == y[perm1[k]]
  {
    Splits.TestCountBounded(|y|, 3, 10);
    seq(Splits.TempSize(|y|), k requires 0 <= k < Splits.TempSize(|y|) => y[perm1[k]])
  }

  /**
   * `train_model`'s split, on sample indices, stratified by the encoded
   * labels `y`: with a test frame of `m` rows the training rows are split
   * 80/20 and the test side is that frame; otherwise the training rows are
   * split 70/15/15, the second split stratified by the held-out labels.
   * The shuffles are inputs.
   */
  function SentimentSplit(y: seq<nat>, testRows: Option<nat>, perm1: seq<nat>, perm2: seq<nat>): (r: Result<Splits.Sides, Splits.SplitError>)
    requires Splits.IsPermutation(perm1, |y|)
    requires testRows.None? ==> Splits.IsPermutation(perm2, Splits.TempSize(|y|))
    ensures testRows.Some? ==> (r.Err? <==> |y| < 2 || StratifyCheck(y, ValSize(|y|)).Some?)
    ensures testRows.Some? && r.Ok? ==>
      |r.value.val| == ValSize(|y|) && |r.value.train| == |y| - ValSize(|y|) && r.value.test == Splits.Range(testRows.value)
    ensures testRows.None? ==>
      (r.Err? <==> |y| < 4 || StratifyCheck(y, Splits.TempSize(|y|)).Some?
                   || StratifyCheck(TempLabels(y, perm1), Splits.TestCount(Splits.TempSize(|y|), 1, 2)).Some?)
    ensures testRows.None? && r.Ok? ==> r == Splits.ThreeWaySplit(|y|, perm1, perm2)
    ensures |y| >= 2 && !EveryClassTwice(y) ==> r == Err(Splits.SingleMemberClass)
  {
    var n := |y|;
    match testRows
    case None => (
      Splits.TestCountBounded(n, 3, 10);
      match Splits.FractionSplit(Splits.Range(n), perm1, 3, 10)
      case Err(e) => Err(e)
      case Ok(first) =>
        match StratifyCheck(y, Splits.TempSize(n))
        case Some(e) => Err(e)
        case None =>
          TempSide(n, perm1);
          match Splits.FractionSplit(first.1, perm2, 1, 2)
          case Err(e) => Err(e)
          case Ok(second) =>
            match StratifyCheck(TempLabels(y, perm1), Splits.TestCount(Splits.TempSize(n), 1, 2))
            case Some(e) => Err(e)
            case None => Ok(Splits.Sides(first.0, second.0, second.1)))
    case Some(m) =>
      Splits.TestCountBounded(n, 1, 5);
      match Splits.FractionSplit(Splits.Range(n), perm1, 1, 5)
      case Err(e) => Err(e)
      case Ok(p) =>
        match StratifyCheck(y, ValSize(n))
        case Some(e) => Err(e)
        case None => Ok(Splits.Sides(p.0, p.1, Splits.Range(m)))
  }

  /** The held-out side of the first split is the first `ceil(0.3 n)` shuffled indices. */
  lemma TempSide(n: nat, perm1: seq<nat>)
    requires Splits.IsPermutation(perm1, n) && Splits.FractionSplit(Splits.Range(n), perm1, 3, 10).Ok?
    ensures var t := Splits.FractionSplit(Splits.Range(n), perm1, 3, 10).value.1;
      |t| == Splits.TempSize(n) && forall k :: 0 <= k < |t| ==> t[k] == perm1[k]
  {
  }

  /** With a test frame, training and validation partition the training rows. */
  lemma SentimentSplitPartition(y: seq<nat>, m: nat, perm1: seq<nat>, perm2: seq<nat>)
    requires Splits.IsPermutation(perm1, |y|) && SentimentSplit(y, Some(m), perm1, perm2).Ok?
    ensures var n := |y|; var s := SentimentSplit(y, Some(m), perm1, perm2).value;
      Splits.PartitionOf(Splits.Range(n), s.train, s.val)
  {
    var n := |y|;
    Splits.RangeDistinct(n);
    Splits.TestCountBounded(n, 1, 5);
    Splits.HoldOutPartition(Splits.Range(n), perm1, ValSize(n));
  }
}
