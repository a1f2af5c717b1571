/** Sequence helpers shared by the loaders: mapping a function over a sequence, and keeping the present values of options. */
module Seqs {
  import opened Wrappers

  /** `f` applied to each element, in order. */
  function Mapped<A, B>(xs: seq<A>, f: A -> B): (r: seq<B>)
    ensures |r| == |xs|
    decreases |xs|
  {
    if xs == [] then [] else Mapped(xs[..|xs| - 1], f) + [f(xs[|xs| - 1])]
  }

  lemma {:induction false} MappedAt<A, B>(xs: seq<A>, f: A -> B, k: nat)
    requires k < |xs|
    ensures Mapped(xs, f)[k] == f(xs[k])
    decreases |xs|
  {
    var init := xs[..|xs| - 1];
    if k < |init| {
      MappedAt(init, f, k);
      assert xs[k] == init[k];
    }
  }

  /** The present values, in order. */
  function Somes<T>(os: seq<Option<T>>): (r: seq<T>)
    ensures |r| <= |os|
    decreases |os|
  {
    if os == [] then []
    else Somes(os[..|os| - 1]) + (if os[|os| - 1].Some? then [os[|os| - 1].value] else [])
  }

  lemma {:induction false} SomesMembers<T>(os: seq<Option<T>>, x: T)
    ensures x in Somes(os) <==> Some(x) in os
    decreases |os|
  {
    if os != [] {
      var init := os[..|os| - 1];
      SomesMembers(init, x);
      assert os == init + [os[|os| - 1]];
    }
  }

  lemma SomesSnoc<T>(os: seq<Option<T>>, i: nat)
    requires i < |os|
    ensures Somes(os[..i + 1]) == Somes(os[..i]) + if os[i].Some? then [os[i].value] else []
  {
    assert os[..i + 1][..i] == os[..i];
  }

  lemma MappedSnoc<A, B>(xs: seq<A>, f: A -> B, i: nat)
    requires i < |xs|
    ensures Mapped(xs[..i + 1], f) == Mapped(xs[..i], f) + [f(xs[i])]
  {
    assert xs[..i + 1][..i] == xs[..i];
  }

  /** The elements' concatenation, in order. */
  function Concat<T>(xs: seq<seq<T>>): (r: seq<T>)
    decreases |xs|
  {
    if xs == [] then [] else Concat(xs[..|xs| - 1]) + xs[|xs| - 1]
  }

  lemma ConcatSnoc<T>(xs: seq<seq<T>>, i: nat)
    requires i < |xs|
    ensures Concat(xs[..i + 1]) == Concat(xs[..i]) + xs[i]
  {
    assert xs[..i + 1][..i] == xs[..i];
  }

  /** The same step behind a fixed prefix. */
  lemma ConcatSnocAfter<T>(pre: seq<T>, xs: seq<seq<T>>, i: nat)
    requires i < |xs|
    ensures pre + Concat(xs[..i + 1]) == pre + Concat(xs[..i]) + xs[i]
  {
    ConcatSnoc(xs, i);
    var a, b := Concat(xs[..i]), xs[i];
    assert pre + (a + b) == pre + a + b;
  }

  /**
   * The ids (positions counted from 1) of the rows that satisfy `p`,
   * highest first: a table filtered and ordered newest first.
   */
  function IdsWhere<T>(xs: seq<T>, p: T -> bool): (r: seq<nat>)
    ensures forall id :: id in r <==> 1 <= id <= |xs| && p(xs[id - 1])
    ensures forall i, j :: 0 <= i < j < |r| ==> r[i] > r[j]
    ensures |r| <= |xs|
    decreases |xs|
  {
    if xs == [] then []
    else
      var rest := IdsWhere(xs[..|xs| - 1], p);
      assert forall k :: 0 <= k < |rest| ==> rest[k] in rest && rest[k] < |xs|;
      (if p(xs[|xs| - 1]) then [|xs|] else []) + rest
  }

  /** The id of the newest row that satisfies `p` (`.first()` under newest-first ordering). */
  function Newest<T>(xs: seq<T>, p: T -> bool): (r: Option<nat>)
    ensures r.None? <==> forall k :: 0 <= k < |xs| ==> !p(xs[k])
    ensures r.Some? ==> 1 <= r.value <= |xs| && p(xs[r.value - 1])
    ensures r.Some? ==> forall k :: r.value <= k < |xs| ==> !p(xs[k])
  {
    var ids := IdsWhere(xs, p);
    if ids == [] then
      IdsWhereEmpty(xs, p);
      None
    else
      IdsWhereHead(xs, p);
      Some(ids[0])
  }

  /** No ids: no row satisfies `p`. */
  lemma {:induction false} IdsWhereEmpty<T>(xs: seq<T>, p: T -> bool)
    requires IdsWhere(xs, p) == []
    ensures forall k :: 0 <= k < |xs| ==> !p(xs[k])
  {
    if xs != [] {
      var init := xs[..|xs| - 1];
      IdsWhereEmpty(init, p);
      assert forall k :: 0 <= k < |init| ==> init[k] == xs[k];
    }
  }

  /** The first id is a row that satisfies `p`, and no later row does. */
  lemma {:induction false} IdsWhereHead<T>(xs: seq<T>, p: T -> bool)
    requires IdsWhere(xs, p) != []
    ensures var h := IdsWhere(xs, p)[0];
      1 <= h <= |xs| && p(xs[h - 1]) && forall k :: h <= k < |xs| ==> !p(xs[k])
  {
    var init := xs[..|xs| - 1];
    if !p(xs[|xs| - 1]) {
      IdsWhereHead(init, p);
      assert forall k :: 0 <= k < |init| ==> init[k] == xs[k];
    }
  }

  /** How many rows satisfy `p` (a `.count()` over a filter). */
  function CountWhere<T>(xs: seq<T>, p: T -> bool): (r: nat)
    ensures r <= |xs|
  {
    if xs == [] then 0 else CountWhere(xs[..|xs| - 1], p) + (if p(xs[|xs| - 1]) then 1 else 0)
  }

  /** The count is the number of ids the filter keeps. */
  lemma {:induction false} CountWhereIds<T>(xs: seq<T>, p: T -> bool)
    ensures CountWhere(xs, p) == |IdsWhere(xs, p)|
  {
    if xs != [] {
      CountWhereIds(xs[..|xs| - 1], p);
    }
  }

  /** Appending a row adds one to the count exactly when the row satisfies `p`. */
  lemma CountWhereSnoc<T>(xs: seq<T>, x: T, p: T -> bool)
    ensures CountWhere(xs + [x], p) == CountWhere(xs, p) + (if p(x) then 1 else 0)
  {
    assert (xs + [x])[..|xs|] == xs;
  }

  /** A row appended that satisfies `p` is the newest such row. */
  lemma NewestSnoc<T>(xs: seq<T>, x: T, p: T -> bool)
    requires p(x)
    ensures Newest(xs + [x], p) == Some(|xs| + 1)
  {
    var r := Newest(xs + [x], p);
    assert p((xs + [x])[|xs|]);
  }

  /** A row appended that fails `p` leaves the newest such row where it was. */
  lemma NewestSnocOther<T>(xs: seq<T>, x: T, p: T -> bool)
    requires !p(x)
    ensures Newest(xs + [x], p) == Newest(xs, p)
  {
    var r := Newest(xs + [x], p);
    var q := Newest(xs, p);
    assert forall k :: 0 <= k < |xs| ==> (xs + [x])[k] == xs[k];
    if r.Some? {
      assert r.value <= |xs|;
      assert xs[r.value - 1] == (xs + [x])[r.value - 1];
    }
    if q.Some? {
      assert (xs + [x])[q.value - 1] == xs[q.value - 1];
    }
  }

  /** The rows that satisfy `p`, in table order. */
  function Filter<T>(xs: seq<T>, p: T -> bool): (r: seq<T>)
    ensures |r| <= |xs|
    ensures forall i :: 0 <= i < |r| ==> p(r[i]) && r[i] in xs
    ensures forall k :: 0 <= k < |xs| && p(xs[k]) ==> xs[k] in r
  {
    if xs == [] then []
    else
      var rest := Filter(xs[..|xs| - 1], p);
      assert forall k :: 0 <= k < |xs| - 1 ==> xs[..|xs| - 1][k] == xs[k];
      rest + (if p(xs[|xs| - 1]) then [xs[|xs| - 1]] else [])
  }

  /** Filtering after an append is filtering before it, then the new row if it satisfies `p`. */
  lemma FilterSnoc<T>(xs: seq<T>, x: T, p: T -> bool)
    ensures Filter(xs + [x], p) == Filter(xs, p) + (if p(x) then [x] else [])
  {
    assert (xs + [x])[..|xs|] == xs;
  }

  /** Tables whose rows agree on `p` and `q` position by position keep the same ids. */
  lemma {:induction false} IdsWhereSame<T, U>(xs: seq<T>, p: T -> bool, ys: seq<U>, q: U -> bool)
    requires |xs| == |ys| && forall k :: 0 <= k < |xs| ==> p(xs[k]) == q(ys[k])
    ensures IdsWhere(xs, p) == IdsWhere(ys, q)
    ensures Newest(xs, p) == Newest(ys, q)
    decreases |xs|
  {
    if xs != [] {
      IdsWhereSame(xs[..|xs| - 1], p, ys[..|ys| - 1], q);
    }
  }

  /** A count with no row satisfying `p` is zero. */
  lemma {:induction false} CountWhereNone<T>(xs: seq<T>, p: T -> bool)
    requires forall k :: 0 <= k < |xs| ==> !p(xs[k])
    ensures CountWhere(xs, p) == 0
    decreases |xs|
  {
    if xs != [] {
      CountWhereNone(xs[..|xs| - 1], p);
    }
  }

  /** Every id the filter keeps names a row. */
  lemma IdsWhereRange<T>(xs: seq<T>, p: T -> bool)
    ensures forall i :: 0 <= i < |IdsWhere(xs, p)| ==> 1 <= IdsWhere(xs, p)[i] <= |xs|
  {
    var ids := IdsWhere(xs, p);
    assert forall i :: 0 <= i < |ids| ==> ids[i] in ids;
  }

  /** The count is the length of the filtered table. */
  lemma {:induction false} CountWhereFilter<T>(xs: seq<T>, p: T -> bool)
    ensures CountWhere(xs, p) == |Filter(xs, p)|
    decreases |xs|
  {
    if xs != [] {
      CountWhereFilter(xs[..|xs| - 1], p);
    }
  }
}
