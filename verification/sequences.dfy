/** Generic sequence helpers the ledger needs twice: sums over a sequence and
    the stable ascending sort that `Array.prototype.sort` performs. */
module Sequences {

  /** The sum of `f` over the elements of `xs`, 0 for the empty sequence. */
  function SumBy<T>(xs: seq<T>, f: T -> int): int
  {
    if |xs| == 0 then 0 else f(xs[0]) + SumBy(xs[1..], f)
  }

  lemma {:induction false} SumByAppend<T>(xs: seq<T>, ys: seq<T>, f: T -> int)
    ensures SumBy(xs + ys, f) == SumBy(xs, f) + SumBy(ys, f)
  {
    if |xs| == 0 {
      assert xs + ys == ys;
    } else {
      assert (xs + ys)[1..] == xs[1..] + ys;
      SumByAppend(xs[1..], ys, f);
    }
  }

  /** Two functions that agree on every element give the same sum. */
  lemma {:induction false} SumByAgree<T>(xs: seq<T>, f: T -> int, g: T -> int)
    requires forall i :: 0 <= i < |xs| ==> f(xs[i]) == g(xs[i])
    ensures SumBy(xs, f) == SumBy(xs, g)
  {
    if |xs| > 0 {
      SumByAgree(xs[1..], f, g);
    }
  }

  /** The last element's contribution can be split off. */
  lemma SumBySnoc<T>(xs: seq<T>, f: T -> int)
    requires |xs| > 0
    ensures SumBy(xs, f) == SumBy(xs[..|xs| - 1], f) + f(xs[|xs| - 1])
  {
    assert xs == xs[..|xs| - 1] + [xs[|xs| - 1]];
    SumByAppend(xs[..|xs| - 1], [xs[|xs| - 1]], f);
  }

  lemma {:induction false} SumByNonNegative<T>(xs: seq<T>, f: T -> int)
    requires forall i :: 0 <= i < |xs| ==> f(xs[i]) >= 0
    ensures SumBy(xs, f) >= 0
  {
    if |xs| > 0 {
      SumByNonNegative(xs[1..], f);
    }
  }

  predicate SortedBy<T>(xs: seq<T>, key: T -> int)
  {
    forall i, j :: 0 <= i < j < |xs| ==> key(xs[i]) <= key(xs[j])
  }

  /** No two elements of `xs` share an `id`. */
  predicate DistinctBy<T, K(==)>(xs: seq<T>, id: T -> K)
  {
    forall i, j :: 0 <= i < j < |xs| ==> id(xs[i]) != id(xs[j])
  }

  /** Inserts `x` in front of the first element whose key is not smaller, so
      that `x` stays ahead of the elements it ties with: this is what keeps
      `SortBy` stable. */
  function InsertBy<T>(x: T, xs: seq<T>, key: T -> int): (r: seq<T>)
    ensures |r| == |xs| + 1
    ensures multiset(r) == multiset(xs) + multiset{x}
  {
    if |xs| == 0 || key(x) <= key(xs[0]) then [x] + xs
    else
      assert xs == [xs[0]] + xs[1..];
      [xs[0]] + InsertBy(x, xs[1..], key)
  }

  /** Inserting into a sorted sequence keeps it sorted. */
  lemma {:induction false} InsertBySorted<T>(x: T, xs: seq<T>, key: T -> int)
    requires SortedBy(xs, key)
    ensures SortedBy(InsertBy(x, xs, key), key)
    ensures |xs| > 0 ==> InsertBy(x, xs, key)[0] == x || InsertBy(x, xs, key)[0] == xs[0]
    decreases |xs|
  {
    if |xs| > 0 && key(xs[0]) < key(x) {
      var rest := InsertBy(x, xs[1..], key);
      InsertBySorted(x, xs[1..], key);
      assert key(xs[0]) <= key(rest[0]);
      var r := [xs[0]] + rest;
      forall i, j | 0 <= i < j < |r|
        ensures key(r[i]) <= key(r[j])
      {
        assert r[j] == rest[j - 1];
        if i > 0 {
          assert r[i] == rest[i - 1];
        } else {
          assert key(rest[0]) <= key(rest[j - 1]);
        }
      }
    }
  }

  /** Stable insertion sort, ascending by `key`. */
  function SortBy<T>(xs: seq<T>, key: T -> int): (r: seq<T>)
    ensures |r| == |xs|
    ensures multiset(r) == multiset(xs)
    ensures SortedBy(r, key)
  {
    if |xs| == 0 then []
    else
      assert xs == [xs[0]] + xs[1..];
      InsertBySorted(xs[0], SortBy(xs[1..], key), key);
      InsertBy(xs[0], SortBy(xs[1..], key), key)
  }

  lemma {:induction false} InsertBySum<T>(x: T, xs: seq<T>, key: T -> int, f: T -> int)
    ensures SumBy(InsertBy(x, xs, key), f) == f(x) + SumBy(xs, f)
  {
    if |xs| == 0 || key(x) <= key(xs[0]) {
      assert ([x] + xs)[1..] == xs;
    } else {
      var rest := InsertBy(x, xs[1..], key);
      assert ([xs[0]] + rest)[1..] == rest;
      InsertBySum(x, xs[1..], key, f);
    }
  }

  /** Sorting is a permutation, so it keeps every sum. */
  lemma {:induction false} SortBySum<T>(xs: seq<T>, key: T -> int, f: T -> int)
    ensures SumBy(SortBy(xs, key), f) == SumBy(xs, f)
  {
    if |xs| > 0 {
      SortBySum(xs[1..], key, f);
      InsertBySum(xs[0], SortBy(xs[1..], key), key, f);
    }
  }

  lemma {:induction false} InsertByDistinct<T, K>(x: T, xs: seq<T>, key: T -> int, id: T -> K)
    requires DistinctBy(xs, id)
    requires forall i :: 0 <= i < |xs| ==> id(xs[i]) != id(x)
    ensures DistinctBy(InsertBy(x, xs, key), id)
  {
    if |xs| == 0 || key(x) <= key(xs[0]) {
      var r := [x] + xs;
      forall i, j | 0 <= i < j < |r|
        ensures id(r[i]) != id(r[j])
      {
        if i > 0 {
          assert r[i] == xs[i - 1] && r[j] == xs[j - 1];
        }
      }
    } else {
      var rest := InsertBy(x, xs[1..], key);
      InsertByDistinct(x, xs[1..], key, id);
      var r := [xs[0]] + rest;
      forall j | 0 < j < |r|
        ensures id(r[0]) != id(r[j])
      {
        var y := rest[j - 1];
        assert y in multiset(rest);
        if y != x {
          assert y in multiset(xs[1..]);
          var k :| 0 <= k < |xs[1..]| && xs[1..][k] == y;
          assert xs[k + 1] == y;
        }
      }
      assert DistinctBy(r, id);
    }
  }

  /** Sorting cannot create two elements with the same id. */
  lemma {:induction false} SortByDistinct<T, K>(xs: seq<T>, key: T -> int, id: T -> K)
    requires DistinctBy(xs, id)
    ensures DistinctBy(SortBy(xs, key), id)
  {
    if |xs| > 0 {
      var tail := xs[1..];
      assert DistinctBy(tail, id);
      SortByDistinct(tail, key, id);
      var sorted := SortBy(tail, key);
      forall i | 0 <= i < |sorted|
        ensures id(sorted[i]) != id(xs[0])
      {
        var y := sorted[i];
        assert y in multiset(sorted);
        assert y in multiset(tail);
        var k :| 0 <= k < |tail| && tail[k] == y;
        assert xs[k + 1] == y;
      }
      InsertByDistinct(xs[0], sorted, key, id);
    }
  }
}
