/**
 * The slice of Python's `str` behaviour that the pipeline relies on:
 * whitespace per `str.isspace`, `strip`, ASCII `lower`, substring search,
 * `split` on a non-empty separator, `join`, `replace` and the `\s+` collapse.
 */
module Strings {
  import opened Wrappers

  /** `str.isspace` for one character (the set `\s`, `strip()` and `split()` use). */
  predicate IsSpace(c: char) {
    c == ' ' || ('\t' <= c <= '\r') || ('\U{1C}' <= c <= '\U{1F}')
    || c == '\U{85}' || c == '\U{A0}' || c == '\U{1680}'
    || ('\U{2000}' <= c <= '\U{200A}') || c == '\U{2028}' || c == '\U{2029}'
    || c == '\U{202F}' || c == '\U{205F}' || c == '\U{3000}'
  }

  predicate AllSpace(s: string) {
    forall i :: 0 <= i < |s| ==> IsSpace(s[i])
  }

  predicate IsUpper(c: char) { 'A' <= c <= 'Z' }

  function LowerChar(c: char): (r: char)
    ensures IsSpace(r) <==> IsSpace(c)
    ensures !IsUpper(r)
  {
    if IsUpper(c) then (c as int + 32) as char else c
  }

  /** `str.lower` restricted to ASCII letters. */
  function Lower(s: string): (r: string)
    ensures |r| == |s|
    ensures forall i :: 0 <= i < |s| ==> r[i] == LowerChar(s[i])
  {
    seq(|s|, i requires 0 <= i < |s| => LowerChar(s[i]))
  }

  function UpperChar(c: char): (r: char)
    ensures 'a' <= c <= 'z' ==> IsUpper(r)
  {
    if 'a' <= c <= 'z' then (c as int - 32) as char else c
  }

  /** `str.upper` restricted to ASCII letters. */
  function Upper(s: string): (r: string)
    ensures |r| == |s|
    ensures forall i :: 0 <= i < |s| ==> r[i] == UpperChar(s[i])
  {
    seq(|s|, i requires 0 <= i < |s| => UpperChar(s[i]))
  }

  lemma LowerIdempotent(s: string)
    ensures Lower(Lower(s)) == Lower(s)
  {
  }

  lemma LowerAppend(a: string, b: string)
    ensures Lower(a + b) == Lower(a) + Lower(b)
  {
  }

  // ----- strip -----------------------------------------------------------

  function TrimStart(s: string): (r: string)
    ensures |r| <= |s| && r == s[|s| - |r|..]
    ensures AllSpace(s[..|s| - |r|])
    ensures r == [] || !IsSpace(r[0])
    decreases |s|
  {
    if |s| > 0 && IsSpace(s[0]) then
      var t := s[1..];
      var r := TrimStart(t);
      assert AllSpace(s[..|s| - |r|]) by {
        var w, v := s[..|s| - |r|], t[..|t| - |r|];
        forall i | 0 <= i < |w| ensures IsSpace(w[i]) {
          if i > 0 { assert w[i] == v[i - 1]; }
        }
      }
      r
    else s
  }

  function TrimEnd(s: string): (r: string)
    ensures |r| <= |s| && r == s[..|r|]
    ensures AllSpace(s[|r|..])
    ensures r == [] || !IsSpace(r[|r| - 1])
    decreases |s|
  {
    if |s| > 0 && IsSpace(s[|s| - 1]) then
      var t := s[..|s| - 1];
      var r := TrimEnd(t);
      assert AllSpace(s[|r|..]) by {
        var w, v := s[|r|..], t[|r|..];
        forall i | 0 <= i < |w| ensures IsSpace(w[i]) {
          if i < |v| { assert w[i] == v[i]; }
        }
      }
      r
    else s
  }

  /** A string with no whitespace at either end: what `strip` returns. */
  predicate Stripped(s: string) {
    s == [] || (!IsSpace(s[0]) && !IsSpace(s[|s| - 1]))
  }

  /** Python's `str.strip()` with no argument. */
  function Strip(s: string): (r: string)
    ensures Stripped(r)
    ensures |r| <= |s|
  {
    var t := TrimStart(s);
    var u := TrimEnd(t);
    assert u != [] ==> u[0] == t[0];
    u
  }

  /** `strip` keeps a slice `s[a..b]` and removes only whitespace around it. */
  lemma StripBounds(s: string) returns (a: nat, b: nat)
    ensures a <= b <= |s| && Strip(s) == s[a..b]
    ensures AllSpace(s[..a]) && AllSpace(s[b..])
  {
    var t := TrimStart(s);
    var u := TrimEnd(t);
    a := |s| - |t|;
    b := a + |u|;
    assert s[b..] == t[|u|..];
  }

  lemma TrimStartOfNonSpace(s: string)
    requires s == [] || !IsSpace(s[0])
    ensures TrimStart(s) == s
  {
  }

  lemma TrimEndOfNonSpace(s: string)
    requires s == [] || !IsSpace(s[|s| - 1])
    ensures TrimEnd(s) == s
  {
  }

  /** `rstrip` keeps everything up to a non-space character. */
  lemma {:induction false} TrimEndKeeps(s: string, k: int)
    requires 0 <= k < |s| && !IsSpace(s[k])
    ensures |TrimEnd(s)| > k
    decreases |s|
  {
    if IsSpace(s[|s| - 1]) {
      var init := s[..|s| - 1];
      assert init[k] == s[k];
      TrimEndKeeps(init, k);
    }
  }

  /** Stripping an already stripped string changes nothing. */
  lemma StripStripped(s: string)
    requires Stripped(s)
    ensures Strip(s) == s
  {
    TrimStartOfNonSpace(s);
    TrimEndOfNonSpace(s);
  }

  /** A lower-case string with no whitespace at its ends is unchanged by `lower` then `strip`. */
  lemma LowerStripFixed(s: string)
    requires Lower(s) == s && Stripped(s)
    ensures Strip(Lower(s)) == s
  {
    StripStripped(s);
  }

  lemma StripIdempotent(s: string)
    ensures Strip(Strip(s)) == Strip(s)
  {
    StripStripped(Strip(s));
  }

  lemma {:induction false} TrimStartSpacePrefix(w: string, x: string)
    requires AllSpace(w)
    ensures TrimStart(w + x) == TrimStart(x)
    decreases |w|
  {
    if w != [] {
      var v := w[1..];
      assert (w + x)[0] == w[0];
      assert (w + x)[1..] == v + x;
      assert AllSpace(v) by {
        forall i | 0 <= i < |v| ensures IsSpace(v[i]) { assert v[i] == w[i + 1]; }
      }
      TrimStartSpacePrefix(v, x);
    } else {
      assert w + x == x;
    }
  }

  lemma {:induction false} TrimEndSpaceSuffix(x: string, w: string)
    requires AllSpace(w)
    ensures TrimEnd(x + w) == TrimEnd(x)
    decreases |w|
  {
    if w != [] {
      var v := w[..|w| - 1];
      assert (x + w)[|x + w| - 1] == w[|w| - 1];
      assert (x + w)[..|x + w| - 1] == x + v;
      assert AllSpace(v) by {
        forall i | 0 <= i < |v| ensures IsSpace(v[i]) { assert v[i] == w[i]; }
      }
      TrimEndSpaceSuffix(x, v);
    } else {
      assert x + w == x;
    }
  }

  lemma {:induction false} TrimStartAppend(x: string, y: string)
    requires !AllSpace(x)
    ensures TrimStart(x + y) == TrimStart(x) + y
    decreases |x|
  {
    assert x != [];
    assert (x + y)[0] == x[0];
    if IsSpace(x[0]) {
      assert (x + y)[1..] == x[1..] + y;
      assert !AllSpace(x[1..]) by {
        var i :| 0 <= i < |x| && !IsSpace(x[i]);
        assert x[1..][i - 1] == x[i];
      }
      TrimStartAppend(x[1..], y);
    }
  }

  /** Whitespace around a string does not survive `strip`. */
  lemma StripPadded(w1: string, x: string, w2: string)
    requires AllSpace(w1) && AllSpace(w2)
    ensures Strip(w1 + x + w2) == Strip(x)
  {
    assert w1 + x + w2 == w1 + (x + w2);
    TrimStartSpacePrefix(w1, x + w2);
    if AllSpace(x) {
      assert AllSpace(x + w2) by {
        forall i | 0 <= i < |x + w2| ensures IsSpace((x + w2)[i]) {
          if i < |x| { assert (x + w2)[i] == x[i]; } else { assert (x + w2)[i] == w2[i - |x|]; }
        }
      }
      TrimStartSpacePrefix(x + w2, []);
      TrimStartSpacePrefix(x, []);
      assert x + w2 + [] == x + w2;
      assert x + [] == x;
    } else {
      TrimStartAppend(x, w2);
      TrimEndSpaceSuffix(TrimStart(x), w2);
    }
  }

  /** A leading newline makes no difference to `strip`. */
  lemma StripAfterNewline(s: string)
    ensures Strip("\n" + s) == Strip(s)
  {
    StripPadded("\n", s, "");
    assert "\n" + s + "" == "\n" + s;
  }

  /** `s.strip() == ''` exactly when `s` is all whitespace. */
  lemma StripEmptyIff(s: string)
    ensures Strip(s) == [] <==> AllSpace(s)
  {
    if Strip(s) == [] {
      var a, b := StripBounds(s);
      forall j | 0 <= j < |s| ensures IsSpace(s[j]) {
        if j < a { assert s[..a][j] == s[j]; } else { assert s[b..][j - b] == s[j]; }
      }
    }
    if AllSpace(s) {
      TrimStartSpacePrefix(s, []);
      assert s + [] == s;
    }
  }

  lemma LowerSlice(s: string, a: int, b: int)
    requires 0 <= a <= b <= |s|
    ensures Lower(s[a..b]) == Lower(s)[a..b]
  {
  }

  lemma {:induction false} LowerTrimStart(s: string)
    ensures Lower(TrimStart(s)) == TrimStart(Lower(s))
    decreases |s|
  {
    if |s| > 0 && IsSpace(s[0]) {
      assert Lower(s)[1..] == Lower(s[1..]);
      LowerTrimStart(s[1..]);
    }
  }

  lemma {:induction false} LowerTrimEnd(s: string)
    ensures Lower(TrimEnd(s)) == TrimEnd(Lower(s))
    decreases |s|
  {
    if |s| > 0 && IsSpace(s[|s| - 1]) {
      assert Lower(s)[..|s| - 1] == Lower(s[..|s| - 1]);
      LowerTrimEnd(s[..|s| - 1]);
    }
  }

  /** Lower-casing and stripping commute: case never changes whitespace. */
  lemma LowerStrip(s: string)
    ensures Lower(Strip(s)) == Strip(Lower(s))
  {
    LowerTrimStart(s);
    LowerTrimEnd(TrimStart(s));
  }

  // ----- search ----------------------------------------------------------

  predicate OccursAt(s: string, p: string, i: int) {
    0 <= i && i + |p| <= |s| && s[i..i + |p|] == p
  }

  predicate StartsWith(s: string, p: string) {
    OccursAt(s, p, 0)
  }

  predicate EndsWith(s: string, p: string) {
    |p| <= |s| && s[|s| - |p|..] == p
  }

  function IndexFrom(s: string, p: string, k: nat): (r: Option<nat>)
    requires k <= |s| + 1
    ensures r.Some? ==> k <= r.value && OccursAt(s, p, r.value)
    ensures r.Some? ==> forall j :: k <= j < r.value ==> !OccursAt(s, p, j)
    ensures r.None? ==> forall j :: k <= j ==> !OccursAt(s, p, j)
    decreases |s| + 1 - k
  {
    if k + |p| > |s| then None
    else if s[k..k + |p|] == p then Some(k)
    else IndexFrom(s, p, k + 1)
  }

  /** `s.find(p)`: the first occurrence, as an index, or None for -1. */
  function IndexOf(s: string, p: string): (r: Option<nat>)
    ensures r.Some? ==> OccursAt(s, p, r.value) && r.value + |p| <= |s|
    ensures r.Some? ==> forall j :: 0 <= j < r.value ==> !OccursAt(s, p, j)
    ensures r.None? <==> forall j :: 0 <= j ==> !OccursAt(s, p, j)
  {
    IndexFrom(s, p, 0)
  }

  /** An occurrence with none before it is the one `find` reports. */
  lemma IndexOfFirst(s: string, p: string, i: nat)
    requires OccursAt(s, p, i) && forall j :: 0 <= j < i ==> !OccursAt(s, p, j)
    ensures IndexOf(s, p) == Some(i)
  {
  }

  /** Python's `p in s`. */
  predicate Contains(s: string, p: string) {
    IndexOf(s, p).Some?
  }

  lemma ContainsIff(s: string, p: string)
    ensures Contains(s, p) <==> exists i :: OccursAt(s, p, i)
  {
    if !Contains(s, p) {
      forall i ensures !OccursAt(s, p, i) {
        if i >= 0 { }
      }
    }
  }

  lemma ContainsAt(s: string, p: string, i: int)
    requires OccursAt(s, p, i)
    ensures Contains(s, p)
  {
  }

  /** A slice of a text free of `p` is free of `p`. */
  lemma NotContainsSlice(s: string, p: string, a: int, b: int)
    requires 0 <= a <= b <= |s| && !Contains(s, p)
    ensures !Contains(s[a..b], p)
  {
    var t := s[a..b];
    forall j | OccursAt(t, p, j) ensures OccursAt(s, p, a + j) {
      assert |t| == b - a && a + j + |p| <= b;
      var u, v := s[a + j..a + j + |p|], t[j..j + |p|];
      forall k | 0 <= k < |p| ensures u[k] == v[k] {
        assert t[j + k] == s[a + j + k];
      }
      assert u == v;
    }
    ContainsIff(t, p);
    ContainsIff(s, p);
  }

  /** A text lacking the first character of `p` does not contain `p`. */
  lemma NoHeadNoContains(s: string, p: string)
    requires |p| > 0 && p[0] !in s
    ensures !Contains(s, p)
  {
    forall j | 0 <= j && j + |p| <= |s| ensures !OccursAt(s, p, j) {
      assert s[j..j + |p|][0] == s[j];
    }
    ContainsIff(s, p);
  }

  /** Putting a character other than the first of `p` in front brings in no occurrence. */
  lemma NotContainsCons(c: char, b: string, p: string)
    requires |p| > 0 && c != p[0] && !Contains(b, p)
    ensures !Contains([c] + b, p)
  {
    var s := [c] + b;
    forall j | 0 <= j && j + |p| <= |s| ensures !OccursAt(s, p, j) {
      if j == 0 {
        assert s[j..j + |p|][0] == c;
      } else {
        assert s[j..j + |p|] == b[j - 1..j - 1 + |p|];
        assert !OccursAt(b, p, j - 1);
      }
    }
    ContainsIff(s, p);
  }

  /** A prefix lacking the first character of `p` brings in no occurrence. */
  lemma NotContainsPrefix(a: string, b: string, p: string)
    requires |p| > 0 && p[0] !in a && !Contains(b, p)
    ensures !Contains(a + b, p)
  {
    var s := a + b;
    forall j | 0 <= j && j + |p| <= |s| ensures !OccursAt(s, p, j) {
      if j < |a| {
        assert s[j..j + |p|][0] == a[j];
      } else {
        assert s[j..j + |p|] == b[j - |a|..j - |a| + |p|];
        assert !OccursAt(b, p, j - |a|);
      }
    }
    ContainsIff(s, p);
  }

  lemma {:induction false} OccursInLonger(a: string, s: string, b: string, p: string, i: int)
    requires OccursAt(s, p, i)
    ensures OccursAt(a + s + b, p, |a| + i)
  {
    assert (a + s + b)[|a| + i..|a| + i + |p|] == s[i..i + |p|];
  }

  /** The last occurrence of `p` (`s.rfind(p)`), searching down from `k`. */
  function LastIndexFrom(s: string, p: string, k: int): (r: Option<nat>)
    requires k <= |s|
    ensures r.Some? ==> r.value <= k && OccursAt(s, p, r.value)
    ensures r.Some? ==> forall j :: r.value < j <= k ==> !OccursAt(s, p, j)
    ensures r.None? ==> forall j :: j <= k ==> !OccursAt(s, p, j)
    decreases k + 1
  {
    if k < 0 then None
    else if OccursAt(s, p, k) then Some(k)
    else LastIndexFrom(s, p, k - 1)
  }

  function LastIndexOf(s: string, p: string): (r: Option<nat>)
    ensures r.Some? ==> OccursAt(s, p, r.value)
    ensures r.Some? ==> forall j :: r.value < j ==> !OccursAt(s, p, j)
    ensures r.None? <==> forall j :: 0 <= j ==> !OccursAt(s, p, j)
  {
    LastIndexFrom(s, p, |s|)
  }

  // ----- split / join / replace -----------------------------------------

  /** `s.split(sep)` for a non-empty separator (Python raises ValueError on ''). */
  function Split(s: string, sep: string): (r: seq<string>)
    requires |sep| > 0
    ensures |r| >= 1
    decreases |s|, 1
  {
    SplitOn(s, sep, IndexOf(s, sep))
  }

  /** Split, given where the first separator is (None when there is none). */
  function SplitOn(s: string, sep: string, o: Option<nat>): (r: seq<string>)
    requires |sep| > 0 && (o.Some? ==> o.value + |sep| <= |s|)
    ensures |r| >= 1
    decreases |s|, 0
  {
    match o
    case None => [s]
    case Some(i) => [s[..i]] + Split(s[i + |sep|..], sep)
  }

  /** `sep.join(parts)`. */
  function Join(parts: seq<string>, sep: string): (r: string)
    decreases |parts|
  {
    if |parts| == 0 then ""
    else if |parts| == 1 then parts[0]
    else parts[0] + sep + Join(parts[1..], sep)
  }

  lemma AppendAssoc(a: string, b: string, c: string)
    ensures a + b + c == a + (b + c)
  {
  }

  /** The parts around a middle piece are slices of the whole. */
  lemma CutAround(a: string, m: string, b: string)
    ensures (a + m + b)[..|a|] == a && (a + m + b)[|a| + |m|..] == b
  {
  }

  /** Cutting out an occurrence and putting it back gives the string again. */
  lemma Reassemble(s: string, p: string, i: int)
    requires OccursAt(s, p, i)
    ensures s[..i] + p + s[i + |p|..] == s
  {
    assert s == s[..i] + s[i..i + |p|] + s[i + |p|..];
  }

  lemma SplitNone(s: string, sep: string)
    requires |sep| > 0 && !Contains(s, sep)
    ensures Split(s, sep) == [s]
  {
    assert Split(s, sep) == [s];
  }

  /** A split has one piece exactly when the separator does not occur. */
  lemma SplitSingle(s: string, sep: string)
    requires |sep| > 0
    ensures |Split(s, sep)| == 1 <==> !Contains(s, sep)
  {
    if Contains(s, sep) {
      var i := IndexOf(s, sep).value;
      SplitStep(s, sep, i);
    } else {
      SplitNone(s, sep);
    }
  }

  lemma SplitStep(s: string, sep: string, i: nat)
    requires |sep| > 0 && IndexOf(s, sep) == Some(i)
    ensures Split(s, sep) == [s[..i]] + Split(s[i + |sep|..], sep)
  {
    assert OccursAt(s, sep, i);
    var rest := s[i + |sep|..];
    var head := s[..i];
    assert Split(s, sep) == [head] + Split(rest, sep);
  }

  lemma JoinCons(h: string, tail: seq<string>, sep: string)
    requires |tail| >= 1
    ensures Join([h] + tail, sep) == h + sep + Join(tail, sep)
  {
    assert ([h] + tail)[1..] == tail;
  }

  /** `sep.join(s.split(sep)) == s`. */
  lemma {:induction false} JoinSplit(s: string, sep: string)
    requires |sep| > 0
    ensures Join(Split(s, sep), sep) == s
    decreases |s|
  {
    match IndexOf(s, sep)
    case None =>
    case Some(i) =>
      var rest := s[i + |sep|..];
      JoinSplit(rest, sep);
      SplitStep(s, sep, i);
      JoinCons(s[..i], Split(rest, sep), sep);
      Reassemble(s, sep, i);
  }

  /** The text before the first occurrence is free of the separator. */
  lemma HeadFree(s: string, sep: string, i: nat)
    requires |sep| > 0 && IndexOf(s, sep) == Some(i)
    ensures !Contains(s[..i], sep)
  {
    var head := s[..i];
    forall j | 0 <= j && j + |sep| <= |head| ensures !OccursAt(head, sep, j) {
      assert head[j..j + |sep|] == s[j..j + |sep|];
      assert !OccursAt(s, sep, j);
    }
    ContainsIff(head, sep);
  }

  /** Every piece of a split is free of the separator. */
  lemma {:induction false} SplitPiecesFree(s: string, sep: string)
    requires |sep| > 0
    ensures forall k :: 0 <= k < |Split(s, sep)| ==> !Contains(Split(s, sep)[k], sep)
    decreases |s|
  {
    match IndexOf(s, sep)
    case None =>
    case Some(i) =>
      var rest := s[i + |sep|..];
      SplitPiecesFree(rest, sep);
      HeadFree(s, sep, i);
      SplitStep(s, sep, i);
      var parts, tail := Split(s, sep), Split(rest, sep);
      forall k | 0 <= k < |parts| ensures !Contains(parts[k], sep) {
        if k > 0 {
          assert parts[k] == tail[k - 1];
        }
      }
  }

  /** `s.split(sep)[-1]`. */
  function LastPiece(s: string, sep: string): (r: string)
    requires |sep| > 0
    ensures !Contains(r, sep)
    ensures EndsWith(s, r)
  {
    var parts := Split(s, sep);
    SplitPiecesFree(s, sep);
    LastPieceSuffix(s, sep);
    parts[|parts| - 1]
  }

  /** A suffix of a suffix is a suffix. */
  lemma SuffixOfSuffix(s: string, i: nat, p: string)
    requires i <= |s| && EndsWith(s[i..], p)
    ensures EndsWith(s, p)
  {
    assert s[i..][|s| - i - |p|..] == s[|s| - |p|..];
  }

  lemma {:induction false} LastPieceSuffix(s: string, sep: string)
    requires |sep| > 0
    ensures EndsWith(s, Split(s, sep)[|Split(s, sep)| - 1])
    decreases |s|
  {
    match IndexOf(s, sep)
    case None =>
      SplitNone(s, sep);
      assert s[|s| - |s|..] == s;
    case Some(i) =>
      var rest := s[i + |sep|..];
      LastPieceSuffix(rest, sep);
      SplitStep(s, sep, i);
      var parts, tail := Split(s, sep), Split(rest, sep);
      assert parts[|parts| - 1] == tail[|tail| - 1];
      SuffixOfSuffix(s, i + |sep|, tail[|tail| - 1]);
  }

  /** No proper suffix of `p` is also a prefix of it, so two occurrences of `p` never overlap. */
  predicate NoSelfOverlap(p: string) {
    forall k :: 0 < k < |p| ==> p[k..] != p[..|p| - k]
  }

  /** A pattern whose first character does not recur cannot overlap itself. */
  lemma NoSelfOverlapByHead(p: string)
    requires |p| > 0 && forall k :: 0 < k < |p| ==> p[k] != p[0]
    ensures NoSelfOverlap(p)
  {
    forall k | 0 < k < |p| ensures p[k..] != p[..|p| - k] {
      assert p[k..][0] == p[k] && p[..|p| - k][0] == p[0];
    }
  }

  /** No occurrence of a non-self-overlapping pattern starts within another one. */
  lemma NoOverlapBefore(s: string, p: string, i: int, j: int)
    requires NoSelfOverlap(p) && OccursAt(s, p, i) && i - |p| < j < i
    ensures !OccursAt(s, p, j)
  {
    if 0 <= j && j + |p| <= |s| {
      var k := i - j;
      assert s[j..j + |p|][k..] == s[i..j + |p|];
      assert s[i..i + |p|][..|p| - k] == s[i..j + |p|];
      assert p[k..] != p[..|p| - k];
    }
  }

  /** Occurrences of a non-self-overlapping pattern are at least its length apart. */
  lemma OccurrencesApart(s: string, p: string, i: int, j: int)
    requires NoSelfOverlap(p) && OccursAt(s, p, i) && j < i
    ensures OccursAt(s, p, j) ==> j + |p| <= i
  {
    if i - |p| < j {
      NoOverlapBefore(s, p, i, j);
    }
  }

  /** Splitting a join recovers the parts when no part holds the separator. */
  lemma {:induction false} SplitJoin(parts: seq<string>, sep: string)
    requires |sep| > 0 && NoSelfOverlap(sep) && |parts| >= 1
    requires forall k :: 0 <= k < |parts| ==> !Contains(parts[k], sep)
    ensures Split(Join(parts, sep), sep) == parts
    decreases |parts|
  {
    if |parts| > 1 {
      var p := parts[0];
      var rest := Join(parts[1..], sep);
      var s := Join(parts, sep);
      assert s == p + sep + rest;
      assert s[|p|..|p| + |sep|] == sep;
      forall j | 0 <= j < |p| ensures !OccursAt(s, sep, j) {
        if j + |sep| <= |p| {
          assert s[j..j + |sep|] == p[j..j + |sep|];
          assert !OccursAt(p, sep, j);
        } else {
          NoOverlapBefore(s, sep, |p|, j);
        }
      }
      IndexOfFirst(s, sep, |p|);
      assert s[|p| + |sep|..] == rest && s[..|p|] == p;
      SplitStep(s, sep, |p|);
      SplitJoin(parts[1..], sep);
      assert parts == [p] + parts[1..];
    }
  }

  /** The last piece is the last piece of what follows the first occurrence. */
  lemma LastPieceStep(s: string, sep: string, i: nat)
    requires |sep| > 0 && IndexOf(s, sep) == Some(i)
    ensures LastPiece(s, sep) == LastPiece(s[i + |sep|..], sep)
  {
    var a := Split(s, sep);
    var b := Split(s[i + |sep|..], sep);
    SplitStep(s, sep, i);
    assert a[|a| - 1] == b[|b| - 1];
  }

  /** After a final occurrence of a non-self-overlapping separator, the last piece is what follows it. */
  lemma {:induction false} LastPieceAfter(x: string, sep: string, b: string)
    requires |sep| > 0 && NoSelfOverlap(sep) && !Contains(b, sep)
    ensures LastPiece(x + sep + b, sep) == b
    decreases |x|
  {
    var s := x + sep + b;
    assert s[|x|..|x| + |sep|] == sep;
    ContainsAt(s, sep, |x|);
    var i := IndexOf(s, sep).value;
    LastPieceStep(s, sep, i);
    if i == |x| {
      assert s[i + |sep|..] == b;
      SplitNone(b, sep);
    } else {
      OccurrencesApart(s, sep, |x|, i);
      var x' := x[i + |sep|..];
      assert s[i + |sep|..] == x' + sep + b;
      LastPieceAfter(x', sep, b);
    }
  }

  /** `s.replace(pat, rep)` for a non-empty `pat`: leftmost, non-overlapping. */
  function Replace(s: string, pat: string, rep: string): (r: string)
    requires |pat| > 0
    decreases |s|
  {
    match IndexOf(s, pat)
    case None => s
    case Some(i) => s[..i] + rep + Replace(s[i + |pat|..], pat, rep)
  }

  lemma ReplaceAbsent(s: string, pat: string, rep: string)
    requires |pat| > 0 && !Contains(s, pat)
    ensures Replace(s, pat, rep) == s
  {
  }

  /** A single occurrence, with none of its first character before it, is replaced. */
  lemma ReplaceOnce(a: string, pat: string, rep: string, b: string)
    requires |pat| > 0 && pat[0] !in a && !Contains(b, pat)
    ensures Replace(a + pat + b, pat, rep) == a + rep + b
  {
    var s := a + pat + b;
    assert s[|a|..|a| + |pat|] == pat;
    forall j | 0 <= j < |a| ensures !OccursAt(s, pat, j) {
      if j + |pat| <= |s| {
        assert s[j..j + |pat|][0] == s[j] == a[j];
      }
    }
    IndexOfFirst(s, pat, |a|);
    assert s[..|a|] == a && s[|a| + |pat|..] == b;
    ReplaceAbsent(b, pat, rep);
  }

  /** `rep.join(s.split(pat))` is what `replace` computes. */
  lemma {:induction false} ReplaceIsJoinSplit(s: string, pat: string, rep: string)
    requires |pat| > 0
    ensures Replace(s, pat, rep) == Join(Split(s, pat), rep)
    decreases |s|
  {
    match IndexOf(s, pat)
    case None =>
    case Some(i) =>
      ReplaceIsJoinSplit(s[i + |pat|..], pat, rep);
  }

  // ----- whitespace collapse ---------------------------------------------

  /** No two adjacent whitespace characters. */
  predicate NoDoubleSpace(s: string) {
    forall i :: 0 <= i < |s| - 1 ==> !(IsSpace(s[i]) && IsSpace(s[i + 1]))
  }

  /** Every whitespace character is a plain space. */
  predicate OnlyPlainSpaces(s: string) {
    forall i :: 0 <= i < |s| && IsSpace(s[i]) ==> s[i] == ' '
  }

  lemma OnlyPlainSpacesSlice(s: string, a: nat, b: nat)
    requires a <= b <= |s| && OnlyPlainSpaces(s)
    ensures OnlyPlainSpaces(s[a..b])
  {
    forall i | 0 <= i < b - a && IsSpace(s[a..b][i]) ensures s[a..b][i] == ' ' {
      assert s[a..b][i] == s[a + i];
    }
  }

  /** Stripping keeps a string free of whitespace other than plain spaces. */
  lemma OnlyPlainSpacesStrip(s: string)
    requires OnlyPlainSpaces(s)
    ensures OnlyPlainSpaces(Strip(s))
  {
    var a, b := StripBounds(s);
    OnlyPlainSpacesSlice(s, a, b);
  }

  /** `re.sub(r'\s+', ' ', s)`: each maximal whitespace run becomes one space. */
  function CollapseSpaces(s: string): (r: string)
    ensures |r| <= |s|
    ensures s != [] ==> |r| > 0 && (IsSpace(s[0]) <==> IsSpace(r[0]))
    ensures NoDoubleSpace(r) && OnlyPlainSpaces(r)
    decreases |s|
  {
    if s == [] then []
    else if IsSpace(s[0]) then
      var rest := CollapseSpaces(TrimStart(s[1..]));
      [' '] + rest
    else
      [s[0]] + CollapseSpaces(s[1..])
  }

  lemma NoDoubleSpaceSlice(s: string, a: int, b: int)
    requires 0 <= a <= b <= |s| && NoDoubleSpace(s)
    ensures NoDoubleSpace(s[a..b])
  {
    var t := s[a..b];
    forall i | 0 <= i < |t| - 1 ensures !(IsSpace(t[i]) && IsSpace(t[i + 1])) {
      assert t[i] == s[a + i] && t[i + 1] == s[a + i + 1];
    }
  }

  /** A text whose whitespace is already single plain spaces is left as it is. */
  lemma {:induction false} CollapseFixed(s: string)
    requires NoDoubleSpace(s) && OnlyPlainSpaces(s)
    ensures CollapseSpaces(s) == s
    decreases |s|
  {
    if s != [] {
      var t := s[1..];
      NoDoubleSpaceSlice(s, 1, |s|);
      forall i | 0 <= i < |t| && IsSpace(t[i]) ensures t[i] == ' ' {
        assert t[i] == s[i + 1];
      }
      CollapseFixed(t);
      if IsSpace(s[0]) {
        assert t != [] ==> t[0] == s[1];
        TrimStartOfNonSpace(t);
        assert s[0] == ' ';
      }
      assert s == [s[0]] + t;
    }
  }

  /** After collapsing and stripping, no whitespace run is longer than one. */
  lemma CollapsedStripped(s: string)
    ensures NoDoubleSpace(Strip(CollapseSpaces(s)))
    ensures Stripped(Strip(CollapseSpaces(s)))
  {
    var c := CollapseSpaces(s);
    var a, b := StripBounds(c);
    NoDoubleSpaceSlice(c, a, b);
  }

  // ----- repetition and sequence helpers ---------------------------------

  /** `ch * n`. */
  function Repeat(ch: char, n: nat): (r: string)
    ensures |r| == n && forall i :: 0 <= i < n ==> r[i] == ch
  {
    seq(n, _ => ch)
  }

  /** `s[-n:]`: the last `n` elements (all of them when there are fewer). */
  function LastN<T>(s: seq<T>, n: nat): (r: seq<T>)
    ensures |r| == if |s| < n then |s| else n
    ensures r == s[|s| - |r|..]
  {
    if |s| <= n then s else s[|s| - n..]
  }

  /** `s[:n]`: the first `n` elements. */
  function FirstN<T>(s: seq<T>, n: nat): (r: seq<T>)
    ensures |r| == if |s| < n then |s| else n
    ensures r == s[..|r|]
  {
    if |s| <= n then s else s[..n]
  }
}
