/**
 * A column-wise model of the pandas frames the data scripts read: named
 * columns of cells with one dtype each, `astype(str)` rendering, and
 * row selection by a boolean mask (`df[mask]`).
 */
module Frames {
  import opened Wrappers
  import Strings
  import Format

  /** One cell as pandas holds it; `NaN` is a missing value, `NoneCell` a Python None. */
  datatype Cell = Str(s: string) | Int(i: int) | Float(x: real) | Bool(b: bool) | NaN | NoneCell

  /** The column dtypes the scripts distinguish. */
  datatype Kind = Int64 | Float64 | BoolKind | ObjectKind

  datatype Column = Column(name: string, kind: Kind, cells: seq<Cell>)

  /** `str(x)` of a cell, as `astype(str)` renders it (floats with one decimal place). */
  function CellText(c: Cell): (r: string)
    ensures c.Str? ==> r == c.s
    ensures c.NaN? ==> r == "nan"
    ensures c.Bool? ==> r == (if c.b then "True" else "False")
  {
    match c
    case Str(s) => s
    case Int(i) => (if i < 0 then "-" else "") + Format.NatToString(if i < 0 then -i else i)
    case Float(x) => Format.Fixed(x, 1)
    case Bool(b) => if b then "True" else "False"
    case NaN => "nan"
    case NoneCell => "None"
  }

  /** `str(x).lower() == 'true'`: how the scripts read a boolean label from text. */
  predicate IsTrueText(c: Cell) {
    Strings.Lower(CellText(c)) == "true"
  }

  /** `col.astype(str)` as a column of string cells. */
  function StrCells(cells: seq<Cell>): (r: seq<Cell>)
    ensures |r| == |cells| && forall k :: 0 <= k < |cells| ==> r[k] == Str(CellText(cells[k]))
  {
    seq(|cells|, k requires 0 <= k < |cells| => Str(CellText(cells[k])))
  }

  /** `col.astype(str)`. */
  function AsText(cells: seq<Cell>): (r: seq<string>)
    ensures |r| == |cells| && forall i :: 0 <= i < |cells| ==> r[i] == CellText(cells[i])
  {
    seq(|cells|, i requires 0 <= i < |cells| => CellText(cells[i]))
  }

  /** The cells a column of each dtype can hold. */
  predicate CellFits(kind: Kind, c: Cell) {
    match kind
    case Int64 => c.Int?
    case Float64 => c.Float? || c.NaN?
    case BoolKind => c.Bool?
    case ObjectKind => true
  }

  predicate WellTyped(col: Column) {
    forall k :: 0 <= k < |col.cells| ==> CellFits(col.kind, col.cells[k])
  }

  /** The index of the first column called `name` (`df[name]` reads it). */
  function ColumnIndex(cols: seq<Column>, name: string): (r: Option<nat>)
    ensures r.Some? ==> r.value < |cols| && cols[r.value].name == name
    ensures r.Some? ==> forall j :: 0 <= j < r.value ==> cols[j].name != name
    ensures r.None? <==> forall j :: 0 <= j < |cols| ==> cols[j].name != name
  {
    if cols == [] then None
    else if cols[0].name == name then Some(0)
    else match ColumnIndex(cols[1..], name)
      case None => None
      case Some(k) => Some(k + 1)
  }

  lemma ColumnIndexNames(cols: seq<Column>, name: string)
    ensures ColumnIndex(cols, name).Some? <==> name in Names(cols)
  {
    if name in Names(cols) {
      var j :| 0 <= j < |cols| && Names(cols)[j] == name;
      assert cols[j].name == name;
    }
  }

  /** Number of rows: every column has this many cells. */
  function Height(cols: seq<Column>): nat {
    if cols == [] then 0 else |cols[0].cells|
  }

  predicate Rectangular(cols: seq<Column>) {
    forall i :: 0 <= i < |cols| ==> |cols[i].cells| == Height(cols)
  }

  function Names(cols: seq<Column>): (r: seq<string>)
    ensures |r| == |cols| && forall i :: 0 <= i < |cols| ==> r[i] == cols[i].name
  {
    seq(|cols|, i requires 0 <= i < |cols| => cols[i].name)
  }

  /** The elements of `xs` whose mask entry is true, in order (`df[mask]`). */
  function Select<T>(xs: seq<T>, mask: seq<bool>): (r: seq<T>)
    requires |mask| == |xs|
    ensures |r| <= |xs|
    decreases |xs|
  {
    if xs == [] then []
    else (if mask[0] then [xs[0]] else []) + Select(xs[1..], mask[1..])
  }

  /** Selecting from a longer sequence extends the selection at its end. */
  lemma {:induction false} SelectSnoc<T>(xs: seq<T>, mask: seq<bool>, x: T, b: bool)
    requires |mask| == |xs|
    ensures Select(xs + [x], mask + [b]) == Select(xs, mask) + (if b then [x] else [])
    decreases |xs|
  {
    if xs != [] {
      assert (xs + [x])[1..] == xs[1..] + [x];
      assert (mask + [b])[1..] == mask[1..] + [b];
      SelectSnoc(xs[1..], mask[1..], x, b);
    }
  }

  /** Selection keeps exactly the masked elements, in order. */
  lemma {:induction false} SelectMembers<T>(xs: seq<T>, mask: seq<bool>, x: T)
    requires |mask| == |xs|
    ensures x in Select(xs, mask) <==> exists i :: 0 <= i < |xs| && mask[i] && xs[i] == x
    decreases |xs|
  {
    if xs != [] {
      SelectMembers(xs[1..], mask[1..], x);
      if x in Select(xs[1..], mask[1..]) {
        var i :| 0 <= i < |xs| - 1 && mask[1..][i] && xs[1..][i] == x;
        assert mask[i + 1] && xs[i + 1] == x;
      }
      forall i | 0 < i < |xs| && mask[i] && xs[i] == x
        ensures x in Select(xs[1..], mask[1..])
      {
        assert mask[1..][i - 1] && xs[1..][i - 1] == x;
      }
    }
  }

  /** The input positions the selected elements come from, in increasing order. */
  lemma {:induction false} SelectIndices<T>(xs: seq<T>, mask: seq<bool>) returns (idx: seq<nat>)
    requires |mask| == |xs|
    ensures |idx| == |Select(xs, mask)|
    ensures forall a :: 0 <= a < |idx| ==> idx[a] < |xs| && mask[idx[a]] && Select(xs, mask)[a] == xs[idx[a]]
    ensures forall a, b :: 0 <= a < b < |idx| ==> idx[a] < idx[b]
    decreases |xs|
  {
    if xs == [] {
      idx := [];
    } else {
      var rest := SelectIndices(xs[1..], mask[1..]);
      var t := Select(xs[1..], mask[1..]);
      TailIndices(xs, mask, t, rest);
      idx := ConsIndices(xs, mask, t, rest);
    }
  }

  /** Positions into the tail of `xs`, read against `xs` itself. */
  lemma TailIndices<T>(xs: seq<T>, mask: seq<bool>, t: seq<T>, rest: seq<nat>)
    requires |mask| == |xs| > 0 && |rest| == |t|
    requires forall a :: 0 <= a < |rest| ==> rest[a] < |xs[1..]| && mask[1..][rest[a]] && t[a] == xs[1..][rest[a]]
    ensures forall a :: 0 <= a < |rest| ==> rest[a] + 1 < |xs| && mask[rest[a] + 1] && t[a] == xs[rest[a] + 1]
  {
  }

  /** Prepending the head, when it is selected, to the selection of the tail. */
  lemma ConsIndices<T>(xs: seq<T>, mask: seq<bool>, t: seq<T>, rest: seq<nat>) returns (idx: seq<nat>)
    requires |mask| == |xs| > 0 && |rest| == |t|
    requires forall a :: 0 <= a < |rest| ==> rest[a] + 1 < |xs| && mask[rest[a] + 1] && t[a] == xs[rest[a] + 1]
    requires forall a, b :: 0 <= a < b < |rest| ==> rest[a] < rest[b]
    ensures var r := (if mask[0] then [xs[0]] else []) + t;
      |idx| == |r| && (forall a :: 0 <= a < |idx| ==> idx[a] < |xs| && mask[idx[a]] && r[a] == xs[idx[a]])
      && (forall a, b :: 0 <= a < b < |idx| ==> idx[a] < idx[b])
  {
    var shifted: seq<nat> := seq(|rest|, a requires 0 <= a < |rest| => rest[a] + 1);
    if mask[0] {
      idx := [0] + shifted;
      var r := [xs[0]] + t;
      forall a | 0 < a < |idx| ensures idx[a] == shifted[a - 1] && r[a] == t[a - 1] {
      }
    } else {
      idx := shifted;
    }
  }

  /** Selecting with the same mask from two aligned columns keeps them aligned. */
  lemma {:induction false} SelectAligned<T, U>(xs: seq<T>, ys: seq<U>, mask: seq<bool>)
    requires |mask| == |xs| == |ys|
    ensures |Select(xs, mask)| == |Select(ys, mask)|
    decreases |xs|
  {
    if xs != [] {
      SelectAligned(xs[1..], ys[1..], mask[1..]);
    }
  }

  /** Applying one row mask to every column. */
  function SelectRows(cols: seq<Column>, mask: seq<bool>): (r: seq<Column>)
    requires Rectangular(cols) && |mask| == Height(cols)
    ensures |r| == |cols| && Rectangular(r)
    ensures Names(r) == Names(cols)
  {
    var r := seq(|cols|, i requires 0 <= i < |cols| => Column(cols[i].name, cols[i].kind, Select(cols[i].cells, mask)));
    forall i | 0 <= i < |cols| ensures |r[i].cells| == Height(r) {
      SelectAligned(cols[i].cells, cols[0].cells, mask);
    }
    r
  }

  /** The mask `s.str.strip() != ''` over a text column. */
  function NonBlankMask(texts: seq<string>): (m: seq<bool>)
    ensures |m| == |texts| && forall i :: 0 <= i < |texts| ==> (m[i] <==> Strings.Strip(texts[i]) != [])
  {
    seq(|texts|, i requires 0 <= i < |texts| => Strings.Strip(texts[i]) != [])
  }

  /** Rows kept by `NonBlankMask` are the non-blank ones, in order. */
  lemma NonBlankSelected(texts: seq<string>, t: string)
    ensures t in Select(texts, NonBlankMask(texts)) <==> t in texts && Strings.Strip(t) != []
  {
    SelectMembers(texts, NonBlankMask(texts), t);
  }
}
