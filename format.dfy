/**
 * Numbers as the pipeline prints and reads them: `round(x, d)`, the
 * fixed-point format `f"{x:.{d}f}"`, `str(n)` for naturals, and the decimal
 * subset of `float(s)`. Values are exact reals; ties are rounded away from
 * zero (Python rounds the nearest binary double half-to-even instead).
 */
module Format {
  import opened Wrappers
  import Strings

  function Pow10(n: nat): (r: nat)
    ensures r >= 1
  {
    if n == 0 then 1 else 10 * Pow10(n - 1)
  }

  function Abs(x: real): (r: real)
    ensures r >= 0.0 && (r == x || r == -x)
  {
    if x < 0.0 then -x else x
  }

  /** `|x| * 10^d` rounded to the nearest integer, ties away from zero. */
  function ScaledRound(x: real, d: nat): (m: nat)
    ensures Abs(x) * Pow10(d) as real - 0.5 < m as real <= Abs(x) * Pow10(d) as real + 0.5
  {
    var m := (Abs(x) * Pow10(d) as real + 0.5).Floor;
    m
  }

  /** `round(x, d)`: within half a unit of the last kept decimal place. */
  function Round(x: real, d: nat): (r: real)
    ensures Abs(r * Pow10(d) as real - x * Pow10(d) as real) <= 0.5
    ensures x >= 0.0 ==> r >= 0.0
    ensures x <= 0.0 ==> r <= 0.0
  {
    var p := Pow10(d) as real;
    var m := ScaledRound(x, d) as real;
    var r := if x < 0.0 then -(m / p) else m / p;
    ScaledBack(m, p);
    assert Abs(x) * p - 0.5 < m <= Abs(x) * p + 0.5;
    assert x < 0.0 ==> r * p == -m && x * p == -(Abs(x) * p);
    assert x >= 0.0 ==> r * p == m && x * p == Abs(x) * p;
    r
  }

  lemma ScaledBack(m: real, p: real)
    requires p >= 1.0 && m >= 0.0
    ensures (m / p) * p == m && m / p >= 0.0
  {
  }

  /** Rounding never leaves the unit interval. */
  lemma RoundUnit(x: real, d: nat)
    requires 0.0 <= x <= 1.0
    ensures 0.0 <= Round(x, d) <= 1.0
  {
    var p := Pow10(d) as real;
    var m := ScaledRound(x, d);
    assert x * p <= p by { MulLeOne(x, p); }
    assert Abs(x) == x;
    assert m as real <= x * p + 0.5;
    assert m as real <= Pow10(d) as real + 0.5;
    assert m <= Pow10(d);
    assert Round(x, d) == m as real / p;
    DivLeOne(m as real, p);
  }

  lemma MulLeOne(x: real, p: real)
    requires 0.0 <= x <= 1.0 && p >= 1.0
    ensures x * p <= p
  {
  }

  lemma DivLeOne(m: real, p: real)
    requires 0.0 <= m <= p && p >= 1.0
    ensures m / p <= 1.0
  {
  }

  /** Rounding is monotone. */
  lemma RoundMonotone(x: real, y: real, d: nat)
    requires 0.0 <= x <= y
    ensures Round(x, d) <= Round(y, d)
  {
    var p := Pow10(d) as real;
    var xs := x * p + 0.5;
    var ys := y * p + 0.5;
    MulMono(x, y, p);
    assert xs <= ys;
    FloorMono(xs, ys);
    assert ScaledRound(x, d) == xs.Floor;
    assert ScaledRound(y, d) == ys.Floor;
    var mx := ScaledRound(x, d) as real;
    var my := ScaledRound(y, d) as real;
    assert ScaledRound(x, d) <= ScaledRound(y, d);
    assert mx <= my;
    DivMono(mx, my, p);
  }

  lemma FloorMono(a: real, b: real)
    requires a <= b
    ensures a.Floor <= b.Floor
  {
  }

  lemma MulMono(x: real, y: real, p: real)
    requires 0.0 <= x <= y && p >= 1.0
    ensures x * p <= y * p
  {
  }

  lemma DivMono(a: real, b: real, p: real)
    requires 0.0 <= a <= b && p >= 1.0
    ensures a / p <= b / p
  {
  }

  // ----- digits ----------------------------------------------------------

  predicate IsDigit(c: char) { '0' <= c <= '9' }

  predicate AllDigits(s: string) {
    forall i :: 0 <= i < |s| ==> IsDigit(s[i])
  }

  function DigitChar(k: nat): (c: char)
    requires k < 10
    ensures IsDigit(c)
  {
    ('0' as int + k) as char
  }

  function DigitValue(c: char): (k: nat)
    requires IsDigit(c)
    ensures k < 10
  {
    c as int - '0' as int
  }

  /** The value of a string of decimal digits (leading zeros allowed). */
  function ParseNat(s: string): (n: nat)
    requires AllDigits(s)
    ensures n < Pow10(|s|)
  {
    if s == [] then 0 else ParseNat(s[..|s| - 1]) * 10 + DigitValue(s[|s| - 1])
  }

  /** `str(n)`. */
  function NatToString(n: nat): (s: string)
    ensures |s| >= 1 && AllDigits(s)
  {
    if n < 10 then [DigitChar(n)] else NatToString(n / 10) + [DigitChar(n % 10)]
  }

  /** The last `d` decimal digits of `n`, zero-padded: `f"{n:0{d}d}"` for `n < 10^d`. */
  function DigitsN(n: nat, d: nat): (s: string)
    ensures |s| == d && AllDigits(s)
  {
    if d == 0 then [] else DigitsN(n / 10, d - 1) + [DigitChar(n % 10)]
  }

  lemma {:induction false} ParseNatToString(n: nat)
    ensures ParseNat(NatToString(n)) == n
  {
    if n >= 10 {
      var s := NatToString(n);
      assert s[..|s| - 1] == NatToString(n / 10);
      ParseNatToString(n / 10);
    }
  }

  lemma {:induction false} ParseDigitsN(n: nat, d: nat)
    requires n < Pow10(d)
    ensures ParseNat(DigitsN(n, d)) == n
  {
    if d > 0 {
      var s := DigitsN(n, d);
      assert s[..|s| - 1] == DigitsN(n / 10, d - 1);
      assert n / 10 < Pow10(d - 1);
      ParseDigitsN(n / 10, d - 1);
    }
  }

  lemma DivMod(m: nat, p: nat)
    requires p >= 1
    ensures m / p >= 0 && 0 <= m % p < p && m == (m / p) * p + m % p
  {
  }

  // ----- fixed point -----------------------------------------------------

  /** `f"{x:.{d}f}"`: optional '-', integer digits, and `d` fraction digits after a '.'. */
  function Fixed(x: real, d: nat): (s: string)
    ensures |s| >= 1
  {
    (if x < 0.0 then "-" else "") + Magnitude(ScaledRound(x, d), d)
  }

  /** The unsigned rendering of `m / 10^d` with exactly `d` fraction digits. */
  function Magnitude(m: nat, d: nat): (s: string)
    ensures |s| >= 1 && IsDigit(s[0])
  {
    var p := Pow10(d);
    DivMod(m, p);
    NatToString(m / p) + (if d == 0 then "" else "." + DigitsN(m % p, d))
  }

  /** The characters a fixed-point rendering can contain. */
  predicate NumericChar(c: char) { IsDigit(c) || c == '-' || c == '.' }

  lemma FixedChars(x: real, d: nat)
    ensures forall i :: 0 <= i < |Fixed(x, d)| ==> NumericChar(Fixed(x, d)[i])
  {
  }

  /** Index of the first '.', or `|s|` when there is none. */
  function FirstDot(s: string): (r: nat)
    ensures r <= |s| && (r < |s| ==> s[r] == '.')
    ensures forall j :: 0 <= j < r ==> s[j] != '.'
  {
    if s == [] || s[0] == '.' then 0 else 1 + FirstDot(s[1..])
  }

  /** `float(s)` for an unsigned decimal `digits[.digits]`, at least one digit in all. */
  function ParseUnsigned(s: string): (r: Option<real>)
    ensures r.Some? ==> r.value >= 0.0
  {
    var i := FirstDot(s);
    if i == |s| then
      if s != [] && AllDigits(s) then Some(ParseNat(s) as real) else None
    else
      var a := s[..i];
      var b := s[i + 1..];
      if AllDigits(a) && AllDigits(b) && |a| + |b| > 0
      then Some(DecimalValue(a, b))
      else None
  }

  /** The value of `a.b` for digit strings `a` and `b`. */
  function DecimalValue(a: string, b: string): (v: real)
    requires AllDigits(a) && AllDigits(b)
    ensures v >= ParseNat(a) as real
  {
    ParseNat(a) as real + ParseNat(b) as real / Pow10(|b|) as real
  }

  /** `float(s)` for decimal text: surrounding whitespace, an optional sign, then a decimal. */
  function ParseFloat(s: string): (r: Option<real>)
  {
    var t := Strings.Strip(s);
    if |t| > 0 && t[0] == '-' then
      match ParseUnsigned(t[1..])
      case Some(v) => Some(-v)
      case None => None
    else if |t| > 0 && t[0] == '+' then ParseUnsigned(t[1..])
    else ParseUnsigned(t)
  }

  lemma ParseUnsignedDot(a: string, b: string)
    requires AllDigits(a) && AllDigits(b) && |a| > 0
    ensures ParseUnsigned(a + "." + b) == Some(DecimalValue(a, b))
  {
    var s := a + "." + b;
    assert s[|a|] == '.';
    var i := FirstDot(s);
    assert i <= |a|;
    assert s[..|a|] == a && s[|a| + 1..] == b;
  }

  /** `float(str(n)) == n`. */
  lemma ParseNatString(n: nat)
    ensures ParseFloat(NatToString(n)) == Some(n as real)
  {
    var s := NatToString(n);
    assert FirstDot(s) == |s|;
    ParseNatToString(n);
    assert IsDigit(s[0]) && IsDigit(s[|s| - 1]);
    Strings.StripStripped(s);
  }

  lemma StripFixed(x: real, d: nat)
    ensures Strings.Strip(Fixed(x, d)) == Fixed(x, d)
  {
    var s := Fixed(x, d);
    FixedChars(x, d);
    assert NumericChar(s[0]) && NumericChar(s[|s| - 1]);
    Strings.StripStripped(s);
  }
}
