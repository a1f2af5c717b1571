/**
 * The two frame preparers of the data-loading script: the DepressionEmo
 * preparer (text column, one label column per depression emotion, blank
 * rows dropped) and the EmpatheticDialogues preparer (context, response and
 * emotion columns, or the first three columns as a fallback).
 */
module DataLoaders {
  import opened Wrappers
  import Strings
  import Frames
  import PrepareDepressionEmo

  datatype LoaderError = NoColumns

  const TextNames: seq<string> := ["text", "post", "content", "sentence", "utterance"]

  /** The column-name tests the detection loops apply to `col.lower()`. */
  datatype Criterion = TextName | Has(needle: string) | HasEither(a: string, b: string)

  predicate Meets(name: string, c: Criterion) {
    var n := Strings.Lower(name);
    match c
    case TextName => n in TextNames
    case Has(needle) => Strings.Contains(n, needle)
    case HasEither(a, b) => Strings.Contains(n, a) || Strings.Contains(n, b)
  }

  /** Which names meet `c`. */
  function MatchMask(names: seq<string>, c: Criterion): (m: seq<bool>)
    ensures |m| == |names| && forall k :: 0 <= k < |names| ==> (m[k] <==> Meets(names[k], c))
  {
    seq(|names|, k requires 0 <= k < |names| => Meets(names[k], c))
  }

  /** The first true position. */
  function FirstTrue(m: seq<bool>): (r: Option<nat>)
    ensures r.Some? ==> r.value < |m| && m[r.value]
    ensures r.Some? ==> forall j :: 0 <= j < r.value ==> !m[j]
    ensures r.None? <==> forall j :: 0 <= j < |m| ==> !m[j]
  {
    if m == [] then None
    else match FirstTrue(m[..|m| - 1])
      case Some(k) => Some(k)
      case None => if m[|m| - 1] then Some(|m| - 1) else None
  }

  /** The last true position. */
  function LastTrue(m: seq<bool>): (r: Option<nat>)
    ensures r.Some? ==> r.value < |m| && m[r.value]
    ensures r.Some? ==> forall j :: r.value < j < |m| ==> !m[j]
    ensures r.None? <==> forall j :: 0 <= j < |m| ==> !m[j]
  {
    if m == [] then None
    else if m[|m| - 1] then Some(|m| - 1)
    else LastTrue(m[..|m| - 1])
  }

  /** The first name meeting `c`. */
  function FirstMatch(names: seq<string>, c: Criterion): (r: Option<nat>)
    ensures r.Some? ==> r.value < |names| && Meets(names[r.value], c)
    ensures r.Some? ==> forall j :: 0 <= j < r.value ==> !Meets(names[j], c)
    ensures r.None? <==> forall j :: 0 <= j < |names| ==> !Meets(names[j], c)
  {
    var m := MatchMask(names, c);
    assert forall j :: 0 <= j < |names| ==> (m[j] <==> Meets(names[j], c));
    FirstTrue(m)
  }

  /** The last name meeting `c`. */
  function LastMatch(names: seq<string>, c: Criterion): (r: Option<nat>)
    ensures r.Some? ==> r.value < |names| && Meets(names[r.value], c)
    ensures r.Some? ==> forall j :: r.value < j < |names| ==> !Meets(names[j], c)
    ensures r.None? <==> forall j :: 0 <= j < |names| ==> !Meets(names[j], c)
  {
    var m := MatchMask(names, c);
    assert forall j :: 0 <= j < |names| ==> (m[j] <==> Meets(names[j], c));
    LastTrue(m)
  }

  // ----- prepare_depression_emo_data -----------------------------------------

  /** The text column: the first with a known text name, else the first column. */
  function TextColumnSpec(cols: seq<Frames.Column>): (r: Result<nat, LoaderError>)
    ensures r.Err? <==> cols == []
    ensures r.Ok? ==> r.value < |cols|
  {
    match FirstMatch(Frames.Names(cols), TextName)
    case Some(k) => Ok(k)
    case None => if cols == [] then Err(NoColumns) else Ok(0)
  }

  /** The loop that scans the columns for a text name and stops at the first. */
  method DetectTextColumn(cols: seq<Frames.Column>) returns (r: Result<nat, LoaderError>)
    ensures r == TextColumnSpec(cols)
  {
    ghost var m := MatchMask(Frames.Names(cols), TextName);
    var textCol: Option<nat> := None;
    var i := 0;
    while i < |cols|
      invariant 0 <= i <= |cols|
      invariant textCol.None? ==> forall j :: 0 <= j < i ==> !m[j]
      invariant textCol.Some? ==> textCol == FirstTrue(m)
    {
      if Meets(cols[i].name, TextName) {
        assert m[i];
        textCol := Some(i);
        FirstTrueAt(m, i);
        break;
      }
      i := i + 1;
    }
    if textCol.None? {
      if cols == [] {
        return Err(NoColumns);
      }
      return Ok(0);
    }
    r := Ok(textCol.value);
  }

  /** The scan that stops at the first hit. */
  method FindFirst(m: seq<bool>) returns (found: Option<nat>)
    ensures found == FirstTrue(m)
  {
    found := None;
    var j := 0;
    while j < |m|
      invariant 0 <= j <= |m|
      invariant forall k :: 0 <= k < j ==> !m[k]
    {
      if m[j] {
        FirstTrueAt(m, j);
        return Some(j);
      }
      j := j + 1;
    }
  }

  /** A true position with none before it is the first. */
  lemma FirstTrueAt(m: seq<bool>, i: nat)
    requires i < |m| && m[i] && forall j :: 0 <= j < i ==> !m[j]
    ensures FirstTrue(m) == Some(i)
  {
  }


  /** The emotions of `vocab` with a hit, each paired with its column, in vocabulary order. */
  function Matched(vocab: seq<string>, hits: seq<Option<nat>>): (r: seq<(string, nat)>)
    requires |hits| == |vocab|
    ensures |r| <= |vocab|
  {
    if vocab == [] then []
    else
      var init := Matched(vocab[..|vocab| - 1], hits[..|hits| - 1]);
      match hits[|hits| - 1]
      case None => init
      case Some(k) => init + [(vocab[|vocab| - 1], k)]
  }

  function Listed(pairs: seq<(string, nat)>): (r: seq<string>)
    ensures |r| == |pairs| && forall k :: 0 <= k < |pairs| ==> r[k] == pairs[k].0
  {
    seq(|pairs|, k requires 0 <= k < |pairs| => pairs[k].0)
  }

  function HitMask(hits: seq<Option<nat>>): (m: seq<bool>)
    ensures |m| == |hits| && forall k :: 0 <= k < |hits| ==> m[k] == hits[k].Some?
  {
    seq(|hits|, k requires 0 <= k < |hits| => hits[k].Some?)
  }

  /** The listed emotions are the vocabulary selected by the hits, so in vocabulary order. */
  lemma {:induction false} MatchedListed(vocab: seq<string>, hits: seq<Option<nat>>)
    requires |hits| == |vocab|
    ensures Listed(Matched(vocab, hits)) == Frames.Select(vocab, HitMask(hits))
  {
    if vocab != [] {
      var n := |vocab| - 1;
      MatchedListed(vocab[..n], hits[..n]);
      assert vocab == vocab[..n] + [vocab[n]];
      assert HitMask(hits) == HitMask(hits[..n]) + [hits[n].Some?];
      Frames.SelectSnoc(vocab[..n], HitMask(hits[..n]), vocab[n], hits[n].Some?);
      if hits[n].Some? {
        assert Listed(Matched(vocab, hits)) == Listed(Matched(vocab[..n], hits[..n])) + [vocab[n]];
      }
    }
  }

  /** Each listed emotion is paired with its hit. */
  lemma {:induction false} MatchedHits(vocab: seq<string>, hits: seq<Option<nat>>, k: nat)
    requires |hits| == |vocab| && k < |Matched(vocab, hits)|
    ensures exists i :: 0 <= i < |vocab| && vocab[i] == Matched(vocab, hits)[k].0 && hits[i] == Some(Matched(vocab, hits)[k].1)
  {
    var n := |vocab| - 1;
    var init := Matched(vocab[..n], hits[..n]);
    if k < |init| {
      MatchedHits(vocab[..n], hits[..n], k);
      var i :| 0 <= i < n && vocab[..n][i] == init[k].0 && hits[..n][i] == Some(init[k].1);
      assert vocab[i] == init[k].0 && hits[i] == Some(init[k].1);
    } else {
      assert vocab[n] == Matched(vocab, hits)[k].0;
    }
  }

  /** `df.columns` scanned for the first name containing `emotion.lower()`. */
  function ColumnFor(cols: seq<Frames.Column>, emotion: string): (r: Option<nat>)
    ensures r.Some? ==> r.value < |cols|
  {
    FirstMatch(Frames.Names(cols), Has(Strings.Lower(emotion)))
  }

  function Hits(cols: seq<Frames.Column>, vocab: seq<string>): (h: seq<Option<nat>>)
    ensures |h| == |vocab| && forall k :: 0 <= k < |vocab| ==> h[k] == ColumnFor(cols, vocab[k])
  {
    seq(|vocab|, k requires 0 <= k < |vocab| => ColumnFor(cols, vocab[k]))
  }

  /** For each emotion of `vocab`, in order, the first column whose name contains it. */
  function EmotionColumns(cols: seq<Frames.Column>, vocab: seq<string>): (r: seq<(string, nat)>)
    ensures forall k :: 0 <= k < |r| ==> r[k].1 < |cols|
  {
    var r := Matched(vocab, Hits(cols, vocab));
    forall k | 0 <= k < |r| ensures r[k].1 < |cols| {
      MatchedHits(vocab, Hits(cols, vocab), k);
    }
    r
  }

  /**
   * The detected label columns: the emotions with a matching column, in
   * vocabulary order, each with the first column whose name contains it.
   */
  lemma EmotionColumnsFacts(cols: seq<Frames.Column>, vocab: seq<string>, k: nat)
    ensures Listed(EmotionColumns(cols, vocab)) == Frames.Select(vocab, HitMask(Hits(cols, vocab)))
    ensures k < |EmotionColumns(cols, vocab)| ==>
      ColumnFor(cols, EmotionColumns(cols, vocab)[k].0) == Some(EmotionColumns(cols, vocab)[k].1)
  {
    MatchedListed(vocab, Hits(cols, vocab));
    if k < |EmotionColumns(cols, vocab)| {
      MatchedHits(vocab, Hits(cols, vocab), k);
    }
  }

  /** An emotion is listed iff it is in the vocabulary and some column name contains it. */
  lemma EmotionColumnsMembers(cols: seq<Frames.Column>, vocab: seq<string>, e: string)
    ensures e in Listed(EmotionColumns(cols, vocab)) <==> e in vocab && ColumnFor(cols, e).Some?
  {
    var h := Hits(cols, vocab);
    MatchedListed(vocab, h);
    Frames.SelectMembers(vocab, HitMask(h), e);
  }

  /** The nested loops: for each emotion, scan the columns and stop at the first containing it. */
  method DetectEmotionColumns(cols: seq<Frames.Column>, vocab: seq<string>) returns (pairs: seq<(string, nat)>)
    ensures pairs == EmotionColumns(cols, vocab)
  {
    var names := Frames.Names(cols);
    ghost var hits := Hits(cols, vocab);
    pairs := [];
    var i := 0;
    while i < |vocab|
      invariant 0 <= i <= |vocab|
      invariant pairs == Matched(vocab[..i], hits[..i])
    {
      var e := vocab[i];
      var found := FindFirst(MatchMask(names, Has(Strings.Lower(e))));
      assert found == hits[i];
      MatchedSnoc(vocab, hits, i);
      if found.Some? {
        pairs := pairs + [(e, found.value)];
      }
      i := i + 1;
    }
    assert vocab[..i] == vocab && hits[..i] == hits;
  }

  lemma MatchedSnoc(vocab: seq<string>, hits: seq<Option<nat>>, i: nat)
    requires |hits| == |vocab| && i < |vocab|
    ensures Matched(vocab[..i + 1], hits[..i + 1])
      == Matched(vocab[..i], hits[..i]) + (if hits[i].Some? then [(vocab[i], hits[i].value)] else [])
  {
    assert vocab[..i + 1][..i] == vocab[..i] && hits[..i + 1][..i] == hits[..i];
  }

  /** A numeric label column is kept as it is; any other is 1 where its text reads 'true', else 0. */
  function LabelColumn(emotion: string, col: Frames.Column): (r: Frames.Column)
    ensures r.name == emotion && |r.cells| == |col.cells|
    ensures (col.kind.Int64? || col.kind.Float64?) ==> r.kind == col.kind && r.cells == col.cells
    ensures !(col.kind.Int64? || col.kind.Float64?) ==> r.kind.Int64?
    ensures !(col.kind.Int64? || col.kind.Float64?) ==>
      forall k :: 0 <= k < |r.cells| ==> r.cells[k] == Frames.Int(if Frames.IsTrueText(col.cells[k]) then 1 else 0)
  {
    if col.kind.Int64? || col.kind.Float64? then Frames.Column(emotion, col.kind, col.cells)
    else
      Frames.Column(emotion, Frames.Int64, seq(|col.cells|, k requires 0 <= k < |col.cells| =>
        Frames.Int(if Frames.IsTrueText(col.cells[k]) then 1 else 0)))
  }

  /** `prepared_data` before the row filter: the text column as strings, then the label columns. */
  function EmoColumns(cols: seq<Frames.Column>, t: nat, pairs: seq<(string, nat)>): (r: seq<Frames.Column>)
    requires t < |cols| && forall k :: 0 <= k < |pairs| ==> pairs[k].1 < |cols|
    requires Frames.Rectangular(cols)
    ensures |r| == 1 + |pairs| && Frames.Rectangular(r) && Frames.Height(r) == Frames.Height(cols)
    ensures r[0] == Frames.Column("text", Frames.ObjectKind, Frames.StrCells(cols[t].cells))
    ensures forall k :: 0 <= k < |pairs| ==> r[k + 1] == LabelColumn(pairs[k].0, cols[pairs[k].1])
  {
    var labels := seq(|pairs|, k requires 0 <= k < |pairs| => LabelColumn(pairs[k].0, cols[pairs[k].1]));
    var r := [Frames.Column("text", Frames.ObjectKind, Frames.StrCells(cols[t].cells))] + labels;
    assert forall k :: 0 <= k < |pairs| ==> r[k + 1] == labels[k];
    r
  }

  /** Rows whose first column is blank after strip are dropped. */
  function DropBlankRows(frame: seq<Frames.Column>): (r: seq<Frames.Column>)
    requires Frames.Rectangular(frame) && frame != []
    ensures Frames.Rectangular(r) && Frames.Names(r) == Frames.Names(frame)
  {
    Frames.SelectRows(frame, Frames.NonBlankMask(Frames.AsText(frame[0].cells)))
  }

  /** `prepare_depression_emo_data`, with None passed through. */
  function PrepareEmoSpec(df: Option<seq<Frames.Column>>): (r: Result<Option<seq<Frames.Column>>, LoaderError>)
    requires df.Some? ==> Frames.Rectangular(df.value)
    ensures df.None? ==> r == Ok(None)
    ensures df.Some? ==> (r.Err? <==> df.value == [])
  {
    match df
    case None => Ok(None)
    case Some(cols) =>
      match TextColumnSpec(cols)
      case Err(e) => Err(e)
      case Ok(t) => Ok(Some(DropBlankRows(EmoColumns(cols, t, EmotionColumns(cols, PrepareDepressionEmo.StandardEmotions)))))
  }

  method PrepareDepressionEmoData(df: Option<seq<Frames.Column>>) returns (r: Result<Option<seq<Frames.Column>>, LoaderError>)
    requires df.Some? ==> Frames.Rectangular(df.value)
    ensures r == PrepareEmoSpec(df)
  {
    if df.None? {
      return Ok(None);
    }
    var cols := df.value;
    var t := DetectTextColumn(cols);
    if t.Err? {
      return Err(t.error);
    }
    var pairs := DetectEmotionColumns(cols, PrepareDepressionEmo.StandardEmotions);
    r := Ok(Some(DropBlankRows(EmoColumns(cols, t.value, pairs))));
  }

  /**
   * The prepared frame's columns are 'text' and then the matched emotions in
   * vocabulary order, and its text column holds exactly the non-blank texts.
   */
  lemma PrepareEmoFacts(cols: seq<Frames.Column>, s: string)
    requires Frames.Rectangular(cols) && cols != []
    ensures var f := PrepareEmoSpec(Some(cols)).value.value;
      var pairs := EmotionColumns(cols, PrepareDepressionEmo.StandardEmotions);
      |f| == 1 + |pairs|
      && f[0].name == "text"
      && (forall k :: 0 <= k < |pairs| ==> f[k + 1].name == pairs[k].0)
      && (Frames.Str(s) in f[0].cells <==>
            Frames.Str(s) in Frames.StrCells(cols[TextColumnSpec(cols).value].cells) && Strings.Strip(s) != [])
  {
    var t := TextColumnSpec(cols).value;
    var pairs := EmotionColumns(cols, PrepareDepressionEmo.StandardEmotions);
    var frame := EmoColumns(cols, t, pairs);
    var texts := Frames.AsText(frame[0].cells);
    var mask := Frames.NonBlankMask(texts);
    var f := DropBlankRows(frame);
    assert Frames.Names(f) == Frames.Names(frame);
    forall k | 0 <= k < |pairs| ensures f[k + 1].name == pairs[k].0 {
      assert Frames.Names(f)[k + 1] == Frames.Names(frame)[k + 1];
    }
    assert Frames.Names(f)[0] == "text";
    var cells := frame[0].cells;
    assert f[0].cells == Frames.Select(cells, mask);
    Frames.SelectMembers(cells, mask, Frames.Str(s));
    if Frames.Str(s) in cells {
      var i :| 0 <= i < |cells| && cells[i] == Frames.Str(s);
      assert texts[i] == s;
    }
    forall i | 0 <= i < |cells| && mask[i] && cells[i] == Frames.Str(s) ensures Strings.Strip(s) != [] {
      assert texts[i] == s;
    }
  }

  // ----- prepare_empathetic_dialogues_data -----------------------------------

  datatype DialogueColumns = DialogueColumns(context: Option<nat>, response: Option<nat>, emotion: Option<nat>)

  /** The context column is the first match; response and emotion the last, as there is no guard for them. */
  function DialogueColumnsSpec(cols: seq<Frames.Column>): DialogueColumns {
    var names := Frames.Names(cols);
    DialogueColumns(
      FirstMatch(names, Has("context")),
      LastMatch(names, HasEither("response", "utterance")),
      LastMatch(names, Has("emotion")))
  }

  /**
   * One pass over the columns given each column's three test outcomes:
   * `f` is set at the first hit of `mf` only, `a` and `b` at every hit of `ma` and `mb`.
   */
  method Scan(mf: seq<bool>, ma: seq<bool>, mb: seq<bool>) returns (f: Option<nat>, a: Option<nat>, b: Option<nat>)
    requires |mf| == |ma| == |mb|
    ensures f == FirstTrue(mf) && a == LastTrue(ma) && b == LastTrue(mb)
  {
    f, a, b := None, None, None;
    var i := 0;
    while i < |mf|
      invariant 0 <= i <= |mf|
      invariant f == FirstTrue(mf[..i])
      invariant a == LastTrue(ma[..i])
      invariant b == LastTrue(mb[..i])
    {
      assert mf[..i + 1][..i] == mf[..i];
      assert ma[..i + 1][..i] == ma[..i];
      assert mb[..i + 1][..i] == mb[..i];
      if mf[i] && f.None? {
        f := Some(i);
      }
      if ma[i] {
        a := Some(i);
      }
      if mb[i] {
        b := Some(i);
      }
      i := i + 1;
    }
    assert mf[..i] == mf && ma[..i] == ma && mb[..i] == mb;
  }

  /** The column tests of `col.lower()` for every column, then the scan. */
  method ScanColumns(names: seq<string>, first: Criterion, lastA: Criterion, lastB: Criterion)
    returns (f: Option<nat>, a: Option<nat>, b: Option<nat>)
    ensures f == FirstMatch(names, first) && a == LastMatch(names, lastA) && b == LastMatch(names, lastB)
  {
    f, a, b := Scan(MatchMask(names, first), MatchMask(names, lastA), MatchMask(names, lastB));
  }

  method DetectDialogueColumns(cols: seq<Frames.Column>) returns (d: DialogueColumns)
    ensures d == DialogueColumnsSpec(cols)
  {
    var context, response, emotion := ScanColumns(Frames.Names(cols), Has("context"), HasEither("response", "utterance"), Has("emotion"));
    d := DialogueColumns(context, response, emotion);
  }

  /** `df[col].astype(str)` under a new name. */
  function TextColumnOf(name: string, col: Frames.Column): Frames.Column {
    Frames.Column(name, Frames.ObjectKind, Frames.StrCells(col.cells))
  }

  function FallbackName(i: nat): string
    requires i < 3
  {
    ["col_0", "col_1", "col_2"][i]
  }

  /** `prepared_data`: the detected columns, or the first three renamed when none was detected. */
  function DialogueFrame(cols: seq<Frames.Column>, d: DialogueColumns): (r: seq<Frames.Column>)
    requires d.context.Some? ==> d.context.value < |cols|
    requires d.response.Some? ==> d.response.value < |cols|
    requires d.emotion.Some? ==> d.emotion.value < |cols|
    requires Frames.Rectangular(cols)
    ensures Frames.Rectangular(r)
    ensures r == [] <==> cols == [] && d.context.None? && d.response.None? && d.emotion.None?
  {
    var found :=
      (if d.context.Some? then [TextColumnOf("context", cols[d.context.value])] else [])
      + (if d.response.Some? then [TextColumnOf("response", cols[d.response.value])] else [])
      + (if d.emotion.Some? then [TextColumnOf("emotion", cols[d.emotion.value])] else []);
    var r := if found != [] then found
      else
        var m := if |cols| < 3 then |cols| else 3;
        seq(m, i requires 0 <= i < m => TextColumnOf(FallbackName(i), cols[i]));
    assert forall k :: 0 <= k < |r| ==> |r[k].cells| == Frames.Height(cols);
    r
  }

  function PrepareDialoguesSpec(df: Option<seq<Frames.Column>>): (r: Result<Option<seq<Frames.Column>>, LoaderError>)
    requires df.Some? ==> Frames.Rectangular(df.value)
    ensures df.None? ==> r == Ok(None)
    ensures df.Some? ==> (r.Err? <==> df.value == [])
  {
    match df
    case None => Ok(None)
    case Some(cols) =>
      var frame := DialogueFrame(cols, DialogueColumnsSpec(cols));
      if frame == [] then Err(NoColumns) else Ok(Some(DropBlankRows(frame)))
  }

  /** `prepare_empathetic_dialogues_data`, with None passed through. */
  method PrepareEmpatheticDialoguesData(df: Option<seq<Frames.Column>>) returns (r: Result<Option<seq<Frames.Column>>, LoaderError>)
    requires df.Some? ==> Frames.Rectangular(df.value)
    ensures r == PrepareDialoguesSpec(df)
  {
    if df.None? {
      return Ok(None);
    }
    var cols := df.value;
    var d := DetectDialogueColumns(cols);
    var frame := DialogueFrame(cols, d);
    if frame == [] {
      return Err(NoColumns);
    }
    r := Ok(Some(DropBlankRows(frame)));
  }

  /** Every kept row has a non-blank first column. */
  lemma DialoguesFirstColumnNonBlank(cols: seq<Frames.Column>, j: nat)
    requires Frames.Rectangular(cols) && cols != []
    requires j < |PrepareDialoguesSpec(Some(cols)).value.value[0].cells|
    ensures Strings.Strip(Frames.CellText(PrepareDialoguesSpec(Some(cols)).value.value[0].cells[j])) != []
  {
    var frame := DialogueFrame(cols, DialogueColumnsSpec(cols));
    var texts := Frames.AsText(frame[0].cells);
    var mask := Frames.NonBlankMask(texts);
    var kept := Frames.Select(frame[0].cells, mask);
    var c := kept[j];
    assert c in kept;
    Frames.SelectMembers(frame[0].cells, mask, c);
    var i :| 0 <= i < |frame[0].cells| && mask[i] && frame[0].cells[i] == c;
    assert texts[i] == Frames.CellText(c);
  }

  /** With no detected column, the fallback takes the first three columns as `col_0..col_2`. */
  lemma DialoguesFallbackNames(cols: seq<Frames.Column>)
    requires Frames.Rectangular(cols) && |cols| >= 3
    requires forall j :: 0 <= j < |cols| ==> !Meets(cols[j].name, Has("context"))
    requires forall j :: 0 <= j < |cols| ==> !Meets(cols[j].name, HasEither("response", "utterance"))
    requires forall j :: 0 <= j < |cols| ==> !Meets(cols[j].name, Has("emotion"))
    ensures Frames.Names(PrepareDialoguesSpec(Some(cols)).value.value) == ["col_0", "col_1", "col_2"]
  {
    var frame := DialogueFrame(cols, DialogueColumnsSpec(cols));
    assert Frames.Names(frame) == ["col_0", "col_1", "col_2"];
  }
}
