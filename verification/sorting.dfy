/**
 * Python's `list.sort(key=..., reverse=...)` and slicing, as functions on sequences.
 *
 * A sort order is given as `le(a, b)`: "`a` may be placed before `b`".  Python's
 * sort is stable, also with `reverse=True`, so elements whose keys compare equal
 * keep the order in which they were encountered.  `SortBy` is a stable insertion
 * sort; the lemmas below prove it yields a sorted permutation that keeps the
 * relative order of every class of equal keys.
 */
module Sorting {

  ghost predicate TotalPreorder<T(!new)>(le: (T, T) -> bool) {
    && (forall a, b :: le(a, b) || le(b, a))
    && (forall a, b, c :: le(a, b) && le(b, c) ==> le(a, c))
  }

  predicate Sorted<T>(s: seq<T>, le: (T, T) -> bool) {
    forall i, j :: 0 <= i < j < |s| ==> le(s[i], s[j])
  }

  /** The elements of `s` whose key is equal to that of `x`, in their order in `s`. */
  function SameKey<T>(s: seq<T>, x: T, le: (T, T) -> bool): seq<T> {
    if s == [] then []
    else (if le(s[0], x) && le(x, s[0]) then [s[0]] else []) + SameKey(s[1..], x, le)
  }

  /** Puts `x` in front of the first element it may precede. */
  function Insert<T>(x: T, s: seq<T>, le: (T, T) -> bool): (r: seq<T>)
    ensures multiset(r) == multiset(s) + multiset{x}
  {
    if s == [] || le(x, s[0]) then [x] + s
    else
      var rest := Insert(x, s[1..], le);
      assert s == [s[0]] + s[1..];
      [s[0]] + rest
  }

  /** `sorted(xs, ...)`: the stable sort of `xs` under `le`. */
  function SortBy<T>(xs: seq<T>, le: (T, T) -> bool): (r: seq<T>)
    ensures multiset(r) == multiset(xs)
    ensures |r| == |xs|
  {
    if xs == [] then []
    else
      assert xs == [xs[0]] + xs[1..];
      Insert(xs[0], SortBy(xs[1..], le), le)
  }

  /** Sorting neither adds nor drops an element. */
  lemma SortByMembers<T>(xs: seq<T>, le: (T, T) -> bool)
    ensures forall x :: x in SortBy(xs, le) <==> x in xs
  {
    var r := SortBy(xs, le);
    forall x ensures x in r <==> x in xs {
      assert x in r <==> x in multiset(r);
      assert x in xs <==> x in multiset(xs);
    }
  }

  /** An element that may precede every element of a sorted list may be put in front of it. */
  lemma ConsSorted<T>(h: T, t: seq<T>, le: (T, T) -> bool)
    requires Sorted(t, le) && forall k :: 0 <= k < |t| ==> le(h, t[k])
    ensures Sorted([h] + t, le)
  {
    var r := [h] + t;
    forall i, j | 0 <= i < j < |r| ensures le(r[i], r[j]) {
      assert r[j] == t[j - 1];
      if i > 0 {
        assert r[i] == t[i - 1];
      }
    }
  }

  /** A lower bound of `x` and of every element of `s` bounds every element of `Insert(x, s)`. */
  lemma InsertBounded<T>(lo: T, x: T, s: seq<T>, le: (T, T) -> bool)
    requires le(lo, x) && forall k :: 0 <= k < |s| ==> le(lo, s[k])
    ensures forall k :: 0 <= k < |Insert(x, s, le)| ==> le(lo, Insert(x, s, le)[k])
  {
    var r := Insert(x, s, le);
    forall k | 0 <= k < |r| ensures le(lo, r[k]) {
      var y := r[k];
      assert y in multiset(r);
      assert y in multiset(s) + multiset{x};
      if y != x {
        assert y in s;
        var m :| 0 <= m < |s| && s[m] == y;
      }
    }
  }

  lemma {:induction false} InsertSorted<T(!new)>(x: T, s: seq<T>, le: (T, T) -> bool)
    requires TotalPreorder(le) && Sorted(s, le)
    ensures Sorted(Insert(x, s, le), le)
  {
    if s == [] {
    } else if le(x, s[0]) {
      forall k | 0 <= k < |s| ensures le(x, s[k]) {
        if k > 0 {
          assert le(s[0], s[k]);
        }
      }
      ConsSorted(x, s, le);
    } else {
      var t := s[1..];
      InsertSorted(x, t, le);
      assert le(s[0], x);
      forall k | 0 <= k < |t| ensures le(s[0], t[k]) {
        assert t[k] == s[k + 1];
      }
      InsertBounded(s[0], x, t, le);
      ConsSorted(s[0], Insert(x, t, le), le);
    }
  }

  /** The result of `SortBy` is in order. */
  lemma {:induction false} SortBySorted<T(!new)>(xs: seq<T>, le: (T, T) -> bool)
    requires TotalPreorder(le)
    ensures Sorted(SortBy(xs, le), le)
  {
    if xs != [] {
      SortBySorted(xs[1..], le);
      InsertSorted(xs[0], SortBy(xs[1..], le), le);
    }
  }

  lemma {:induction false} InsertSameKey<T(!new)>(x: T, s: seq<T>, z: T, le: (T, T) -> bool)
    requires TotalPreorder(le)
    ensures SameKey(Insert(x, s, le), z, le)
         == (if le(x, z) && le(z, x) then [x] else []) + SameKey(s, z, le)
  {
    if s != [] && !le(x, s[0]) {
      InsertSameKey(x, s[1..], z, le);
      if le(x, z) && le(z, x) {
        // s[0] sorts strictly before x, so it cannot share z's key
        assert !(le(s[0], z) && le(z, s[0]));
      }
    }
  }

  /** `SortBy` is stable: each class of equal keys keeps its original order. */
  lemma {:induction false} SortByStable<T(!new)>(xs: seq<T>, z: T, le: (T, T) -> bool)
    requires TotalPreorder(le)
    ensures SameKey(SortBy(xs, le), z, le) == SameKey(xs, z, le)
  {
    if xs != [] {
      SortByStable(xs[1..], z, le);
      InsertSameKey(xs[0], SortBy(xs[1..], le), z, le);
    }
  }

  /** Every two elements of `s`, taken in order, are related by `ne`. */
  predicate Pairwise<T>(s: seq<T>, ne: (T, T) -> bool) {
    forall i, j :: 0 <= i < j < |s| ==> ne(s[i], s[j])
  }

  lemma ConsPairwise<T>(h: T, t: seq<T>, ne: (T, T) -> bool)
    requires Pairwise(t, ne) && forall k :: 0 <= k < |t| ==> ne(h, t[k])
    ensures Pairwise([h] + t, ne)
  {
    var r := [h] + t;
    forall i, j | 0 <= i < j < |r| ensures ne(r[i], r[j]) {
      assert r[j] == t[j - 1];
      if i > 0 {
        assert r[i] == t[i - 1];
      }
    }
  }

  lemma TailPairwise<T>(s: seq<T>, ne: (T, T) -> bool)
    requires s != [] && Pairwise(s, ne)
    ensures Pairwise(s[1..], ne)
  {
    var t := s[1..];
    forall i, j | 0 <= i < j < |t| ensures ne(t[i], t[j]) {
      assert t[i] == s[i + 1] && t[j] == s[j + 1];
    }
  }

  lemma {:induction false} InsertPairwise<T(!new)>(x: T, s: seq<T>, le: (T, T) -> bool, ne: (T, T) -> bool)
    requires forall a, b :: ne(a, b) == ne(b, a)
    requires Pairwise(s, ne) && forall y :: y in s ==> ne(x, y)
    ensures Pairwise(Insert(x, s, le), ne)
  {
    if s != [] && !le(x, s[0]) {
      var t := s[1..];
      TailPairwise(s, ne);
      forall y | y in t ensures ne(x, y) {
        var k :| 0 <= k < |t| && t[k] == y;
        assert s[k + 1] == y;
      }
      InsertPairwise(x, t, le, ne);
      var rest := Insert(x, t, le);
      forall k | 0 <= k < |rest| ensures ne(s[0], rest[k]) {
        var y := rest[k];
        assert y in multiset(rest);
        if y != x {
          assert y in multiset(t);
          var m :| 0 <= m < |t| && t[m] == y;
          assert s[m + 1] == y;
        } else {
          assert s[0] in s;
        }
      }
      ConsPairwise(s[0], rest, ne);
    } else {
      forall k | 0 <= k < |s| ensures ne(x, s[k]) {
        assert s[k] in s;
      }
      ConsPairwise(x, s, ne);
    }
  }

  lemma {:induction false} SortByPairwise<T(!new)>(xs: seq<T>, le: (T, T) -> bool, ne: (T, T) -> bool)
    requires forall a, b :: ne(a, b) == ne(b, a)
    requires Pairwise(xs, ne)
    ensures Pairwise(SortBy(xs, le), ne)
  {
    if xs != [] {
      var tail := xs[1..];
      assert Pairwise(tail, ne) by {
        forall i, j | 0 <= i < j < |tail| ensures ne(tail[i], tail[j]) {
          assert tail[i] == xs[i + 1] && tail[j] == xs[j + 1];
        }
      }
      SortByPairwise(tail, le, ne);
      var sorted := SortBy(tail, le);
      forall y | y in sorted ensures ne(xs[0], y) {
        assert y in multiset(sorted);
        assert y in multiset(tail);
        var k :| 0 <= k < |tail| && tail[k] == y;
        assert xs[k + 1] == y;
      }
      InsertPairwise(xs[0], sorted, le, ne);
    }
  }

  /** Python's normalisation of a slice bound `i` against a length `n`. */
  function SliceBound(i: int, n: nat): (k: nat)
    ensures k <= n
  {
    if i < 0 then (if n + i < 0 then 0 else n + i) else if i > n then n else i
  }

  /** Python's `s[lo:hi]`, negative bounds included. */
  function Slice<T>(s: seq<T>, lo: int, hi: int): (r: seq<T>)
    ensures |r| <= |s|
  {
    var a := SliceBound(lo, |s|);
    var b := SliceBound(hi, |s|);
    if a <= b then s[a..b] else []
  }

  function Min(a: int, b: int): int {
    if a <= b then a else b
  }

  /** For bounds `0 <= lo <= hi` a Python slice is the part of `s` between them, cut at its end. */
  lemma SliceNonNegative<T>(s: seq<T>, lo: int, hi: int)
    requires 0 <= lo <= hi
    ensures Slice(s, lo, hi) == s[Min(lo, |s|)..Min(hi, |s|)]
    ensures |Slice(s, lo, hi)| == Min(hi, |s|) - Min(lo, |s|)
  {
  }

  /** Python's `s[:n]`. */
  function Take<T>(s: seq<T>, n: int): (r: seq<T>)
    ensures n >= 0 ==> r == s[..Min(n, |s|)]
    ensures n < 0 ==> r == s[..if |s| + n < 0 then 0 else |s| + n]
  {
    Slice(s, 0, n)
  }

  /** `s[:n]` is a prefix of `s`: it keeps only elements of `s`, and keeps `s` sorted and pairwise related. */
  lemma TakePrefix<T>(s: seq<T>, n: int, le: (T, T) -> bool, ne: (T, T) -> bool)
    ensures |Take(s, n)| <= |s| && Take(s, n) == s[..|Take(s, n)|]
    ensures forall x :: x in Take(s, n) ==> x in s
    ensures Sorted(s, le) ==> Sorted(Take(s, n), le)
    ensures Pairwise(s, ne) ==> Pairwise(Take(s, n), ne)
  {
    var r := Take(s, n);
    assert forall k :: 0 <= k < |r| ==> r[k] == s[k];
  }
}
