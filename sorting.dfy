/**
 * Python's `sorted(..., key=k, reverse=True)` and `list.sort` with the same
 * arguments (a stable sort, descending), and `np.argmax` / `max(..., key=k)`,
 * which pick the first maximal element.
 */
module Sorting {

  /** An element with its sort key and its position in the input. */
  datatype Ranked<T> = Ranked(pos: nat, key: real, item: T)

  /** Descending by key; on a tie the earlier input position first. */
  predicate Before<T>(a: Ranked<T>, b: Ranked<T>) {
    a.key > b.key || (a.key == b.key && a.pos < b.pos)
  }

  predicate SortedDesc<T>(r: seq<Ranked<T>>) {
    forall i, j :: 0 <= i < j < |r| ==> Before(r[i], r[j])
  }

  /** `[Ranked(i, key(xs[i]), xs[i]) for i in range(len(xs))]`. */
  function Rank<T>(xs: seq<T>, key: T -> real): (r: seq<Ranked<T>>)
    ensures |r| == |xs|
    ensures forall i :: 0 <= i < |xs| ==> r[i] == Ranked(i, key(xs[i]), xs[i])
  {
    seq(|xs|, i requires 0 <= i < |xs| => Ranked(i, key(xs[i]), xs[i]))
  }

  function Items<T>(r: seq<Ranked<T>>): (s: seq<T>)
    ensures |s| == |r| && forall i :: 0 <= i < |r| ==> s[i] == r[i].item
  {
    seq(|r|, i requires 0 <= i < |r| => r[i].item)
  }

  predicate DistinctPos<T>(r: seq<Ranked<T>>) {
    forall i, j :: 0 <= i < j < |r| ==> r[i].pos != r[j].pos
  }

  function Insert<T>(x: Ranked<T>, r: seq<Ranked<T>>): (s: seq<Ranked<T>>)
    ensures multiset(s) == multiset(r) + multiset{x}
    ensures |s| == |r| + 1
  {
    if r == [] then [x]
    else if Before(x, r[0]) then [x] + r
    else
      var t := Insert(x, r[1..]);
      assert r == [r[0]] + r[1..];
      [r[0]] + t
  }

  lemma {:induction false} InsertSorted<T>(x: Ranked<T>, r: seq<Ranked<T>>)
    requires SortedDesc(r)
    requires forall k :: 0 <= k < |r| ==> r[k].pos != x.pos
    ensures SortedDesc(Insert(x, r))
  {
    if r != [] && !Before(x, r[0]) {
      var t := Insert(x, r[1..]);
      InsertSorted(x, r[1..]);
      assert Before(r[0], x);
      forall e | e in multiset(t) ensures Before(r[0], e) {
        assert e in multiset(r[1..]) + multiset{x};
        if e in multiset(r[1..]) {
          var k :| 0 <= k < |r[1..]| && r[1..][k] == e;
          assert r[k + 1] == e;
        }
      }
      var s := [r[0]] + t;
      forall i, j | 0 <= i < j < |s| ensures Before(s[i], s[j]) {
        if i == 0 {
          assert s[j] == t[j - 1];
          assert t[j - 1] in multiset(t);
        } else {
          assert s[i] == t[i - 1] && s[j] == t[j - 1];
        }
      }
    } else if r != [] {
      var s := [x] + r;
      forall i, j | 0 <= i < j < |s| ensures Before(s[i], s[j]) {
        if i == 0 {
          BeforeTrans(x, r[0], r[j - 1]);
        }
      }
    }
  }

  lemma BeforeTrans<T>(a: Ranked<T>, b: Ranked<T>, c: Ranked<T>)
    requires Before(a, b) && (b == c || Before(b, c))
    ensures Before(a, c)
  {
  }

  /** Insertion sort: the model of the stable descending sort. */
  function SortDesc<T>(r: seq<Ranked<T>>): (s: seq<Ranked<T>>)
    ensures multiset(s) == multiset(r) && |s| == |r|
  {
    if r == [] then []
    else
      assert r == [r[0]] + r[1..];
      Insert(r[0], SortDesc(r[1..]))
  }

  /** With distinct positions the result is in descending key order, ties by position. */
  lemma {:induction false} SortDescSorted<T>(r: seq<Ranked<T>>)
    requires DistinctPos(r)
    ensures SortedDesc(SortDesc(r))
  {
    if r != [] {
      assert DistinctPos(r[1..]) by {
        forall i, j | 0 <= i < j < |r[1..]| ensures r[1..][i].pos != r[1..][j].pos {
          assert r[1..][i] == r[i + 1] && r[1..][j] == r[j + 1];
        }
      }
      SortDescSorted(r[1..]);
      var t := SortDesc(r[1..]);
      forall k | 0 <= k < |t| ensures t[k].pos != r[0].pos {
        assert t[k] in multiset(r[1..]);
        var m :| 0 <= m < |r[1..]| && r[1..][m] == t[k];
        assert r[m + 1] == t[k];
      }
      InsertSorted(r[0], t);
    }
  }

  lemma RankDistinct<T>(xs: seq<T>, key: T -> real)
    ensures DistinctPos(Rank(xs, key))
  {
  }

  /** Sorting a ranked sequence yields exactly its elements, each once. */
  lemma SortDescMembers<T>(r: seq<Ranked<T>>, e: Ranked<T>)
    ensures e in SortDesc(r) <==> e in r
  {
    assert e in multiset(SortDesc(r)) <==> e in multiset(r);
  }

  /** A sorted sequence's keys never increase. */
  lemma SortedKeys<T>(r: seq<Ranked<T>>, i: int, j: int)
    requires SortedDesc(r) && 0 <= i <= j < |r|
    ensures r[i].key >= r[j].key
  {
  }

  /** Each element of a sorted ranking came from the input with its own key. */
  lemma SortRankMembers<T>(xs: seq<T>, key: T -> real, e: Ranked<T>)
    requires e in SortDesc(Rank(xs, key))
    ensures e.pos < |xs| && e.item == xs[e.pos] && e.key == key(e.item)
  {
    SortDescMembers(Rank(xs, key), e);
  }

  lemma ItemsCons<T>(x: Ranked<T>, r: seq<Ranked<T>>)
    ensures Items([x] + r) == [x.item] + Items(r)
  {
    var a, b := Items([x] + r), [x.item] + Items(r);
    assert |a| == |b|;
    forall i | 0 <= i < |a| ensures a[i] == b[i] {
      if i > 0 {
        assert ([x] + r)[i] == r[i - 1];
      }
    }
  }

  lemma {:induction false} ItemsInsert<T>(x: Ranked<T>, r: seq<Ranked<T>>)
    ensures multiset(Items(Insert(x, r))) == multiset(Items(r)) + multiset{x.item}
  {
    if r == [] {
      assert Items(Insert(x, r)) == [x.item];
    } else if Before(x, r[0]) {
      ItemsCons(x, r);
    } else {
      var t := Insert(x, r[1..]);
      ItemsInsert(x, r[1..]);
      assert Insert(x, r) == [r[0]] + t;
      ItemsCons(r[0], t);
      assert r == [r[0]] + r[1..];
      ItemsCons(r[0], r[1..]);
    }
  }

  lemma {:induction false} ItemsSortDesc<T>(r: seq<Ranked<T>>)
    ensures multiset(Items(SortDesc(r))) == multiset(Items(r))
  {
    if r != [] {
      ItemsSortDesc(r[1..]);
      ItemsInsert(r[0], SortDesc(r[1..]));
      assert Items(r) == [r[0].item] + Items(r[1..]);
    }
  }

  /**
   * `sorted(xs, key=key, reverse=True)`: a permutation of `xs` whose keys
   * never increase.
   */
  function SortedBy<T>(xs: seq<T>, key: T -> real): (r: seq<T>)
    ensures |r| == |xs| && multiset(r) == multiset(xs)
    ensures forall i, j :: 0 <= i < j < |r| ==> key(r[i]) >= key(r[j])
  {
    var t := SortDesc(Rank(xs, key));
    RankDistinct(xs, key);
    SortDescSorted(Rank(xs, key));
    ItemsSortDesc(Rank(xs, key));
    assert Items(Rank(xs, key)) == xs;
    forall i | 0 <= i < |t| ensures t[i].key == key(t[i].item) {
      SortRankMembers(xs, key, t[i]);
    }
    Items(t)
  }

  /** `np.argmax`: the index of the first maximal element. */
  function ArgMax(xs: seq<real>): (k: nat)
    requires |xs| > 0
    ensures k < |xs|
    ensures forall j :: 0 <= j < |xs| ==> xs[j] <= xs[k]
    ensures forall j :: 0 <= j < k ==> xs[j] < xs[k]
  {
    if |xs| == 1 then 0
    else
      var k := ArgMax(xs[..|xs| - 1]);
      if xs[|xs| - 1] > xs[k] then |xs| - 1 else k
  }

  /** Python's `<` on strings: code-point lexicographic order. */
  predicate StrLess(a: string, b: string) {
    if a == [] then b != []
    else if b == [] then false
    else if a[0] != b[0] then a[0] < b[0]
    else StrLess(a[1..], b[1..])
  }

  lemma StrLessIrreflexive(a: string)
    ensures !StrLess(a, a)
  {
  }

  lemma {:induction false} StrLessTrans(a: string, b: string, c: string)
    requires StrLess(a, b) && StrLess(b, c)
    ensures StrLess(a, c)
  {
    if a != [] && b != [] && c != [] && a[0] == b[0] && b[0] == c[0] {
      StrLessTrans(a[1..], b[1..], c[1..]);
    }
  }

  lemma {:induction false} StrLessTotal(a: string, b: string)
    requires a != b
    ensures StrLess(a, b) || StrLess(b, a)
  {
    if a != [] && b != [] && a[0] == b[0] {
      assert a == [a[0]] + a[1..] && b == [b[0]] + b[1..];
      StrLessTotal(a[1..], b[1..]);
    }
  }

  predicate StrictlyIncreasing(xs: seq<string>) {
    forall i, j :: 0 <= i < j < |xs| ==> StrLess(xs[i], xs[j])
  }

  /** Adds `x` to a strictly increasing list, keeping it strictly increasing. */
  function InsertUnique(x: string, xs: seq<string>): (r: seq<string>)
    ensures forall y :: y in r <==> y == x || y in xs
  {
    if xs == [] then [x]
    else if x == xs[0] then xs
    else if StrLess(x, xs[0]) then [x] + xs
    else [xs[0]] + InsertUnique(x, xs[1..])
  }

  lemma {:induction false} InsertUniqueIncreasing(x: string, xs: seq<string>)
    requires StrictlyIncreasing(xs)
    ensures StrictlyIncreasing(InsertUnique(x, xs))
  {
    if xs != [] && x != xs[0] && !StrLess(x, xs[0]) {
      StrLessTotal(x, xs[0]);
      InsertUniqueIncreasing(x, xs[1..]);
      var t := InsertUnique(x, xs[1..]);
      var r := [xs[0]] + t;
      forall i, j | 0 <= i < j < |r| ensures StrLess(r[i], r[j]) {
        if i == 0 {
          assert r[j] == t[j - 1] && t[j - 1] in t;
          if r[j] != x {
            var k :| 0 <= k < |xs[1..]| && xs[1..][k] == r[j];
            assert xs[k + 1] == r[j];
          }
        } else {
          assert r[i] == t[i - 1] && r[j] == t[j - 1];
        }
      }
    } else if xs != [] && x != xs[0] {
      var r := [x] + xs;
      forall i, j | 0 <= i < j < |r| ensures StrLess(r[i], r[j]) {
        if i == 0 && j > 1 {
          StrLessTrans(x, xs[0], xs[j - 1]);
        }
      }
    }
  }

  /** `sorted(set(xs))` for strings: the distinct elements in increasing order. */
  function SortedUnique(xs: seq<string>): (r: seq<string>)
    ensures forall y :: y in r <==> y in xs
  {
    if xs == [] then []
    else
      var r := InsertUnique(xs[|xs| - 1], SortedUnique(xs[..|xs| - 1]));
      assert xs == xs[..|xs| - 1] + [xs[|xs| - 1]];
      r
  }

  lemma {:induction false} SortedUniqueIncreasing(xs: seq<string>)
    ensures StrictlyIncreasing(SortedUnique(xs))
  {
    if xs != [] {
      SortedUniqueIncreasing(xs[..|xs| - 1]);
      InsertUniqueIncreasing(xs[|xs| - 1], SortedUnique(xs[..|xs| - 1]));
    }
  }

  /** A strictly increasing list holds each element once. */
  lemma IncreasingDistinct(xs: seq<string>, i: nat, j: nat)
    requires StrictlyIncreasing(xs) && i < |xs| && j < |xs| && xs[i] == xs[j]
    ensures i == j
  {
    if i < j {
      StrLessIrreflexive(xs[i]);
    } else if j < i {
      StrLessIrreflexive(xs[j]);
    }
  }
}
