/**
 * The two list idioms the pipeline is built from: `filter` and a filter-map (a loop
 * that pushes a result for some elements and skips the others). Both are defined from
 * the end of the list, the way the loops that build them grow their output.
 */
module Seqs {
  import opened Wrappers

  /** The elements that satisfy `keep`, in order. */
  function Filter<T>(xs: seq<T>, keep: T -> bool): seq<T> {
    if xs == [] then []
    else Filter(xs[..|xs| - 1], keep) + (if keep(xs[|xs| - 1]) then [xs[|xs| - 1]] else [])
  }

  /** One more element is appended when it is kept. */
  lemma FilterStep<T>(xs: seq<T>, i: int, keep: T -> bool)
    requires 0 <= i < |xs|
    ensures Filter(xs[..i + 1], keep) == Filter(xs[..i], keep) + (if keep(xs[i]) then [xs[i]] else [])
  {
    assert xs[..i + 1][..i] == xs[..i];
  }

  /** Exactly the elements that satisfy `keep` survive, and none is invented. */
  lemma {:induction false} FilterSpec<T>(xs: seq<T>, keep: T -> bool)
    ensures |Filter(xs, keep)| <= |xs|
    ensures forall x :: x in Filter(xs, keep) ==> x in xs && keep(x)
    ensures forall x :: x in xs && keep(x) ==> x in Filter(xs, keep)
    ensures multiset(Filter(xs, keep)) <= multiset(xs)
  {
    if xs != [] {
      var n := |xs| - 1;
      FilterSpec(xs[..n], keep);
      assert xs == xs[..n] + [xs[n]];
    }
  }

  /** A single element is kept exactly when it satisfies `keep`. */
  lemma FilterOne<T>(x: T, keep: T -> bool)
    ensures Filter([x], keep) == if keep(x) then [x] else []
  {
    assert [x][..0] == [];
  }

  /** Filtering distributes over concatenation. */
  lemma {:induction false} FilterConcat<T>(a: seq<T>, b: seq<T>, keep: T -> bool)
    ensures Filter(a + b, keep) == Filter(a, keep) + Filter(b, keep)
  {
    if b != [] {
      var n := |b| - 1;
      FilterConcat(a, b[..n], keep);
      assert (a + b)[..|a + b| - 1] == a + b[..n];
    } else {
      assert a + b == a;
    }
  }

  /** A list whose elements all satisfy `keep` is its own filter. */
  lemma {:induction false} FilterAll<T>(xs: seq<T>, keep: T -> bool)
    requires forall x :: x in xs ==> keep(x)
    ensures Filter(xs, keep) == xs
  {
    if xs != [] {
      var n := |xs| - 1;
      var ys, x := xs[..n], xs[n];
      assert keep(x);
      forall y | y in ys
        ensures keep(y)
      {
        var i :| 0 <= i < n && ys[i] == y;
        assert xs[i] == y;
      }
      FilterAll(ys, keep);
      assert Filter(xs, keep) == ys + [x];
      assert xs == ys + [x];
    }
  }

  /** A list none of whose elements satisfies `keep` filters to nothing. */
  lemma {:induction false} FilterNone<T>(xs: seq<T>, keep: T -> bool)
    requires forall x :: x in xs ==> !keep(x)
    ensures Filter(xs, keep) == []
  {
    if xs != [] {
      var n := |xs| - 1;
      var ys, x := xs[..n], xs[n];
      assert !keep(x);
      forall y | y in ys
        ensures !keep(y)
      {
        var i :| 0 <= i < n && ys[i] == y;
        assert xs[i] == y;
      }
      FilterNone(ys, keep);
    }
  }

  /** The negation of a test. */
  function Not<T>(keep: T -> bool): T -> bool {
    x => !keep(x)
  }

  /** Filters with tests that agree everywhere are equal. */
  lemma {:induction false} FilterSame<T>(xs: seq<T>, a: T -> bool, b: T -> bool)
    requires forall x :: a(x) == b(x)
    ensures Filter(xs, a) == Filter(xs, b)
  {
    if xs != [] {
      FilterSame(xs[..|xs| - 1], a, b);
    }
  }

  /** A test and its negation split a list into two parts that together are a permutation of it. */
  lemma {:induction false} FilterComplement<T>(xs: seq<T>, keep: T -> bool)
    ensures multiset(Filter(xs, keep)) + multiset(Filter(xs, Not(keep))) == multiset(xs)
  {
    if xs != [] {
      var n := |xs| - 1;
      var ys, x := xs[..n], xs[n];
      FilterComplement(ys, keep);
      assert xs == ys + [x];
      var k, d := Filter(ys, keep), Filter(ys, Not(keep));
      if keep(x) {
        assert Filter(xs, keep) == k + [x];
        assert Filter(xs, Not(keep)) == d;
        assert multiset(k + [x]) == multiset(k) + multiset{x};
      } else {
        assert Filter(xs, keep) == k;
        assert Filter(xs, Not(keep)) == d + [x];
        assert multiset(d + [x]) == multiset(d) + multiset{x};
      }
    }
  }

  /** The same split, for any test that is the negation of `keep`. */
  lemma FilterPartition<T>(xs: seq<T>, keep: T -> bool, drop: T -> bool)
    requires forall x :: drop(x) == !keep(x)
    ensures multiset(Filter(xs, keep)) + multiset(Filter(xs, drop)) == multiset(xs)
  {
    FilterSame(xs, drop, Not(keep));
    FilterComplement(xs, keep);
  }

  /** Two disjoint tests whose union is `keep` split the elements `keep` selects. */
  lemma {:induction false} FilterSplit<T>(xs: seq<T>, keep: T -> bool, a: T -> bool, b: T -> bool)
    requires forall x :: keep(x) == (a(x) || b(x)) && !(a(x) && b(x))
    ensures multiset(Filter(xs, a)) + multiset(Filter(xs, b)) == multiset(Filter(xs, keep))
  {
    if xs != [] {
      var n := |xs| - 1;
      FilterSplit(xs[..n], keep, a, b);
    }
  }

  /** The test "the key is `k`". */
  function KeyIs<T>(key: T -> int, k: int): T -> bool {
    x => key(x) == k
  }

  /** The test "the key is at most `k`". */
  function KeyAtMost<T>(key: T -> int, k: int): T -> bool {
    x => key(x) <= k
  }

  /**
   * A stable sort by non-increasing key, for keys in 0..m: the elements of key m, then
   * those of key m - 1, and so on down to 0, each group in input order.
   */
  function BucketSort<T>(xs: seq<T>, key: T -> int, m: int): seq<T>
    decreases m + 1
  {
    if m < 0 then [] else Filter(xs, KeyIs(key, m)) + BucketSort(xs, key, m - 1)
  }

  /** Sorting keeps exactly the elements whose key is in 0..m, each as often as in the input. */
  lemma {:induction false} BucketSortCount<T>(xs: seq<T>, key: T -> int, m: int)
    requires forall x :: x in xs ==> key(x) >= 0
    ensures multiset(BucketSort(xs, key, m)) == multiset(Filter(xs, KeyAtMost(key, m)))
    decreases m + 1
  {
    if m < 0 {
      FilterNone(xs, KeyAtMost(key, m));
    } else {
      BucketSortCount(xs, key, m - 1);
      FilterSplit(xs, KeyAtMost(key, m), KeyIs(key, m), KeyAtMost(key, m - 1));
    }
  }

  /** With every key in 0..m, the sorted list is a permutation of the input. */
  lemma BucketSortPermutation<T>(xs: seq<T>, key: T -> int, m: int)
    requires forall x :: x in xs ==> 0 <= key(x) <= m
    ensures multiset(BucketSort(xs, key, m)) == multiset(xs)
  {
    BucketSortCount(xs, key, m);
    FilterAll(xs, KeyAtMost(key, m));
  }

  /** Non-increasing by key. */
  predicate SortedDown<T>(xs: seq<T>, key: T -> int) {
    forall i, j :: 0 <= i < j < |xs| ==> key(xs[i]) >= key(xs[j])
  }

  /** The sorted list is non-increasing by key and holds no key above m. */
  lemma {:induction false} BucketSortSorted<T>(xs: seq<T>, key: T -> int, m: int)
    ensures SortedDown(BucketSort(xs, key, m), key)
    ensures forall x :: x in BucketSort(xs, key, m) ==> key(x) <= m
    decreases m + 1
  {
    if m >= 0 {
      BucketSortSorted(xs, key, m - 1);
      var a := Filter(xs, KeyIs(key, m));
      var b := BucketSort(xs, key, m - 1);
      FilterSpec(xs, KeyIs(key, m));
      assert forall x :: x in a ==> key(x) == m by {
        forall x | x in a
          ensures key(x) == m
        {
          assert x in Filter(xs, KeyIs(key, m));
        }
      }
      var c := a + b;
      forall i, j | 0 <= i < j < |c|
        ensures key(c[i]) >= key(c[j])
      {
        if j < |a| {
          assert c[i] == a[i] && c[j] == a[j] && a[i] in a && a[j] in a;
        } else if i >= |a| {
          assert c[i] == b[i - |a|] && c[j] == b[j - |a|];
        } else {
          assert c[i] == a[i] && a[i] in a && c[j] == b[j - |a|] && b[j - |a|] in b;
        }
      }
    }
  }

  /** Filtering one key's group by a key keeps all of it or none of it. */
  lemma GroupByKey<T>(xs: seq<T>, key: T -> int, m: int, k: int)
    ensures Filter(Filter(xs, KeyIs(key, m)), KeyIs(key, k)) == if k == m then Filter(xs, KeyIs(key, m)) else []
  {
    var a := Filter(xs, KeyIs(key, m));
    FilterSpec(xs, KeyIs(key, m));
    forall x | x in a
      ensures key(x) == m
    {
      assert x in Filter(xs, KeyIs(key, m));
    }
    if k == m {
      FilterAll(a, KeyIs(key, k));
    } else {
      FilterNone(a, KeyIs(key, k));
    }
  }

  /** The groups below key m hold no element of key m or above. */
  lemma BelowHasNone<T>(xs: seq<T>, key: T -> int, m: int, k: int)
    requires k >= m
    ensures Filter(BucketSort(xs, key, m - 1), KeyIs(key, k)) == []
  {
    BucketSortSorted(xs, key, m - 1);
    FilterNone(BucketSort(xs, key, m - 1), KeyIs(key, k));
  }

  /**
   * Stability: the elements of any one key appear in the sorted list exactly as they
   * appear in the input.
   */
  lemma {:induction false} BucketSortStable<T>(xs: seq<T>, key: T -> int, m: int, k: int)
    requires 0 <= k <= m
    ensures Filter(BucketSort(xs, key, m), KeyIs(key, k)) == Filter(xs, KeyIs(key, k))
    decreases m + 1
  {
    var a := Filter(xs, KeyIs(key, m));
    var b := BucketSort(xs, key, m - 1);
    assert BucketSort(xs, key, m) == a + b;
    FilterConcat(a, b, KeyIs(key, k));
    GroupByKey(xs, key, m, k);
    if k == m {
      BelowHasNone(xs, key, m, k);
      assert Filter(a, KeyIs(key, k)) + [] == a;
    } else {
      BucketSortStable(xs, key, m - 1, k);
      assert [] + Filter(b, KeyIs(key, k)) == Filter(b, KeyIs(key, k));
    }
  }

  /** `f` applied to each element, keeping the present results in order. */
  function Collect<T, U>(xs: seq<T>, f: T -> Option<U>): seq<U> {
    if xs == [] then []
    else
      var init := Collect(xs[..|xs| - 1], f);
      match f(xs[|xs| - 1])
      case Some(y) => init + [y]
      case None => init
  }

  /** One more element adds its result, or nothing. */
  lemma CollectStep<T, U>(xs: seq<T>, i: int, f: T -> Option<U>)
    requires 0 <= i < |xs|
    ensures Collect(xs[..i + 1], f) ==
      Collect(xs[..i], f) + (if f(xs[i]).Some? then [f(xs[i]).value] else [])
  {
    assert xs[..i + 1][..i] == xs[..i];
  }

  /**
   * Collecting keeps no more than it is given, every result comes from some element,
   * and every present result is kept.
   */
  lemma {:induction false} CollectSpec<T, U>(xs: seq<T>, f: T -> Option<U>)
    ensures |Collect(xs, f)| <= |xs|
    ensures forall y :: y in Collect(xs, f) ==> exists i :: 0 <= i < |xs| && f(xs[i]) == Some(y)
    ensures forall i :: 0 <= i < |xs| && f(xs[i]).Some? ==> f(xs[i]).value in Collect(xs, f)
  {
    if xs != [] {
      var n := |xs| - 1;
      CollectSpec(xs[..n], f);
      forall i | 0 <= i < n && f(xs[i]).Some?
        ensures f(xs[i]).value in Collect(xs, f)
      {
        assert xs[i] == xs[..n][i];
      }
      forall y | y in Collect(xs, f)
        ensures exists i :: 0 <= i < |xs| && f(xs[i]) == Some(y)
      {
        if y in Collect(xs[..n], f) {
          var i :| 0 <= i < n && f(xs[..n][i]) == Some(y);
          assert xs[..n][i] == xs[i];
        } else {
          assert f(xs[n]) == Some(y);
        }
      }
    }
  }
}
