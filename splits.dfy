/**
 * `train_test_split` as scikit-learn and Hugging Face `datasets` perform it:
 * the input positions are shuffled (the shuffle is an input permutation),
 * the first `n_test` shuffled positions form the test side and the rest the
 * training side. A fractional `test_size` asks for `ceil(test_size * n)`
 * test items; an empty side is an error.
 */
module Splits {
  import opened Wrappers

  /** `perm` lists each of `0 .. n-1` exactly once. */
  predicate IsPermutation(perm: seq<nat>, n: nat) {
    |perm| == n
    && (forall k :: 0 <= k < n ==> perm[k] < n)
    && (forall i :: 0 <= i < n ==> i in perm)
    && (forall k, j :: 0 <= k < j < n ==> perm[k] != perm[j])
  }

  predicate Distinct(xs: seq<nat>) {
    forall k, j :: 0 <= k < j < |xs| ==> xs[k] != xs[j]
  }

  /** `list(range(n))`. */
  function Range(n: nat): (r: seq<nat>)
    ensures |r| == n && forall i :: 0 <= i < n ==> r[i] == i
  {
    seq(n, i requires 0 <= i < n => i)
  }

  /** `xs[pos]` for an index array `pos`. */
  function Pick(xs: seq<nat>, pos: seq<nat>): (r: seq<nat>)
    requires forall k :: 0 <= k < |pos| ==> pos[k] < |xs|
    ensures |r| == |pos| && forall k :: 0 <= k < |pos| ==> r[k] == xs[pos[k]]
  {
    seq(|pos|, k requires 0 <= k < |pos| => xs[pos[k]])
  }

  /** `ceil(num / den * n)`, computed exactly. */
  function TestCount(n: nat, num: nat, den: nat): (t: nat)
    requires den > 0
    ensures t * den >= num * n && t * den < num * n + den
  {
    var x := num * n + den - 1;
    var t := x / den;
    assert x == t * den + x % den;
    t
  }

  /** A fraction below one never asks for more than all of the input. */
  lemma TestCountBounded(n: nat, num: nat, den: nat)
    requires 0 < num < den
    ensures TestCount(n, num, den) <= n
    ensures n > 0 ==> TestCount(n, num, den) > 0
  {
    var t := TestCount(n, num, den);
    assert num * n <= den * n by { MulLe(num, den, n); }
    if t > n {
      MulLe(n + 1, t, den);
      assert false;
    }
  }

  lemma MulLe(a: nat, b: nat, c: nat)
    requires a <= b
    ensures a * c <= b * c
  {
  }

  /**
   * Why a split is refused: a side would be empty, or (for a stratified
   * split) a class has a single member, or a side has fewer samples than
   * there are classes.
   */
  datatype SplitError = EmptySide | SingleMemberClass | FewerSamplesThanClasses

  /**
   * `train_test_split(xs, test_size=t)` for an integer `t`: the test side is
   * `xs` at the first `t` shuffled positions, the training side the rest.
   * Both sides must be non-empty.
   */
  function HoldOut(xs: seq<nat>, perm: seq<nat>, t: nat): (r: Result<(seq<nat>, seq<nat>), SplitError>)
    requires IsPermutation(perm, |xs|)
    ensures r.Err? <==> t == 0 || t >= |xs|
    ensures r.Ok? ==> |r.value.0| == |xs| - t && |r.value.1| == t
    ensures r.Ok? ==> forall k :: 0 <= k < t ==> r.value.1[k] == xs[perm[k]]
    ensures r.Ok? ==> forall k :: 0 <= k < |xs| - t ==> r.value.0[k] == xs[perm[t + k]]
  {
    if t == 0 || t >= |xs| then Err(EmptySide)
    else Ok((Pick(xs, perm[t..]), Pick(xs, perm[..t])))
  }

  /** `train_test_split(xs, test_size=num/den)`. */
  function FractionSplit(xs: seq<nat>, perm: seq<nat>, num: nat, den: nat): (r: Result<(seq<nat>, seq<nat>), SplitError>)
    requires IsPermutation(perm, |xs|) && 0 < num < den
    ensures r.Err? <==> |xs| <= TestCount(|xs|, num, den)
    ensures r.Ok? ==> |r.value.1| == TestCount(|xs|, num, den)
  {
    TestCountBounded(|xs|, num, den);
    HoldOut(xs, perm, TestCount(|xs|, num, den))
  }

  /** `a` and `b` together hold each element of `xs` once, and nothing else. */
  predicate PartitionOf(xs: seq<nat>, a: seq<nat>, b: seq<nat>) {
    (forall e :: e in xs ==> e in a || e in b)
    && (forall e :: e in a ==> e in xs && e !in b)
    && (forall e :: e in b ==> e in xs)
    && Distinct(a) && Distinct(b)
  }

  /** Splitting distinct items partitions them. */
  lemma HoldOutPartition(xs: seq<nat>, perm: seq<nat>, t: nat)
    requires IsPermutation(perm, |xs|) && Distinct(xs)
    requires HoldOut(xs, perm, t).Ok?
    ensures PartitionOf(xs, HoldOut(xs, perm, t).value.0, HoldOut(xs, perm, t).value.1)
  {
    var n := |xs|;
    var train := HoldOut(xs, perm, t).value.0;
    var test := HoldOut(xs, perm, t).value.1;
    forall e | e in xs ensures e in train || e in test {
      var p :| 0 <= p < n && xs[p] == e;
      assert p in perm;
      var q :| 0 <= q < n && perm[q] == p;
      if q < t {
        assert test[q] == e;
      } else {
        assert train[q - t] == e;
      }
    }
    forall k | 0 <= k < |train| ensures train[k] in xs {
      assert perm[t + k] < n;
    }
    forall j | 0 <= j < |test| ensures test[j] in xs {
      assert perm[j] < n;
    }
    forall k, j | 0 <= k < |train| && 0 <= j < |test| ensures train[k] != test[j] {
      PickDistinct(xs, perm, t + k, j);
    }
    forall k, j | 0 <= k < j < |train| ensures train[k] != train[j] {
      PickDistinct(xs, perm, t + k, t + j);
    }
    forall k, j | 0 <= k < j < |test| ensures test[k] != test[j] {
      PickDistinct(xs, perm, k, j);
    }
  }

  /** Distinct shuffled positions hold distinct items. */
  lemma PickDistinct(xs: seq<nat>, perm: seq<nat>, k: nat, j: nat)
    requires IsPermutation(perm, |xs|) && Distinct(xs)
    requires k < |xs| && j < |xs| && k != j
    ensures xs[perm[k]] != xs[perm[j]]
  {
    if k < j {
      assert perm[k] != perm[j];
    } else {
      assert perm[j] != perm[k];
    }
  }

  lemma RangeDistinct(n: nat)
    ensures Distinct(Range(n))
  {
  }

  /** Two successive splits partition `range(n)` into three sides. */
  lemma TwoSplitsPartition(n: nat, train: seq<nat>, temp: seq<nat>, val: seq<nat>, test: seq<nat>)
    requires PartitionOf(Range(n), train, temp) && PartitionOf(temp, val, test)
    ensures forall i :: 0 <= i < n ==> i in train || i in val || i in test
    ensures forall i :: i in train ==> i < n && i !in val && i !in test
    ensures forall i :: i in val ==> i < n && i !in test
    ensures forall i :: i in test ==> i < n
  {
    forall i | 0 <= i < n ensures i in train || i in val || i in test {
      assert Range(n)[i] == i;
    }
    forall i | i in val || i in test ensures i in temp && i in Range(n) {
    }
  }

  datatype Sides = Sides(train: seq<nat>, val: seq<nat>, test: seq<nat>)

  /** Size of the held-out part of the first split: `ceil(0.3 n)`. */
  function TempSize(n: nat): nat {
    TestCount(n, 3, 10)
  }

  /**
   * `train_test_split(test_size=0.3)`, then `train_test_split(test_size=0.5)`
   * of the held-out part, on sample indices; the shuffles are the inputs.
   */
  function ThreeWaySplit(n: nat, perm1: seq<nat>, perm2: seq<nat>): (r: Result<Sides, SplitError>)
    requires IsPermutation(perm1, n) && IsPermutation(perm2, TempSize(n))
    ensures r.Err? <==> n < 4
    ensures r.Ok? ==> |r.value.train| == n - TempSize(n)
    ensures r.Ok? ==> |r.value.test| == TestCount(TempSize(n), 1, 2)
    ensures r.Ok? ==> |r.value.val| == TempSize(n) - |r.value.test|
  {
    match FractionSplit(Range(n), perm1, 3, 10)
    case Err(e) => Err(e)
    case Ok(first) =>
      match FractionSplit(first.1, perm2, 1, 2)
      case Err(e) => Err(e)
      case Ok(second) => Ok(Sides(first.0, second.0, second.1))
  }

  /** Train, validation and test together hold each sample index exactly once. */
  lemma ThreeWayPartition(n: nat, perm1: seq<nat>, perm2: seq<nat>)
    requires IsPermutation(perm1, n) && IsPermutation(perm2, TempSize(n))
    requires n >= 4
    ensures var s := ThreeWaySplit(n, perm1, perm2).value;
      (forall i :: 0 <= i < n ==> i in s.train || i in s.val || i in s.test)
      && (forall i :: i in s.train ==> i < n && i !in s.val && i !in s.test)
      && (forall i :: i in s.val ==> i < n && i !in s.test)
      && (forall i :: i in s.test ==> i < n)
      && Distinct(s.train) && Distinct(s.val) && Distinct(s.test)
  {
    var t1 := TempSize(n);
    RangeDistinct(n);
    TestCountBounded(n, 3, 10);
    var first := FractionSplit(Range(n), perm1, 3, 10).value;
    HoldOutPartition(Range(n), perm1, t1);
    var second := FractionSplit(first.1, perm2, 1, 2).value;
    HoldOutPartition(first.1, perm2, TestCount(t1, 1, 2));
    TwoSplitsPartition(n, first.0, first.1, second.0, second.1);
  }
}
