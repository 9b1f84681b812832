/**
 * Two list idioms that recur in the system: keeping the first element of
 * each key among those a filter accepts (a loop with a `seen` set), and
 * returning the first element a test accepts (a loop with an early return).
 */
module Dedup {
  import opened Options

  /** The keys of `xs`. */
  function Keys<T, K(==)>(xs: seq<T>, key: T -> K): (keys: set<K>)
    ensures forall k :: 0 <= k < |xs| ==> key(xs[k]) in keys
    ensures forall x :: x in keys ==> exists k :: 0 <= k < |xs| && key(xs[k]) == x
  {
    if xs == [] then {}
    else Keys(xs[..|xs| - 1], key) + {key(xs[|xs| - 1])}
  }

  lemma KeysAppend<T, K>(xs: seq<T>, x: T, key: T -> K)
    ensures Keys(xs + [x], key) == Keys(xs, key) + {key(x)}
  {
    assert (xs + [x])[..|xs + [x]| - 1] == xs;
  }

  /** Walking `xs` in order, the accepted elements whose key has not been kept yet. */
  function FirstOfEachKey<T, K(==)>(xs: seq<T>, key: T -> K, accept: T -> bool): seq<T> {
    if xs == [] then []
    else
      var prev := FirstOfEachKey(xs[..|xs| - 1], key, accept);
      var x := xs[|xs| - 1];
      if key(x) !in Keys(prev, key) && accept(x) then prev + [x] else prev
  }

  /** Every kept element is an accepted element of `xs`. */
  lemma {:induction false} KeptAccepted<T, K>(xs: seq<T>, key: T -> K, accept: T -> bool)
    ensures forall y :: y in FirstOfEachKey(xs, key, accept) ==> y in xs && accept(y)
  {
    if xs != [] {
      var init := xs[..|xs| - 1];
      KeptAccepted(init, key, accept);
      forall y | y in init ensures y in xs {
        var k :| 0 <= k < |init| && init[k] == y;
        assert xs[k] == y;
      }
    }
  }

  ghost predicate DistinctKeys<T, K>(r: seq<T>, key: T -> K) {
    forall i, j :: 0 <= i < j < |r| ==> key(r[i]) != key(r[j])
  }

  /** No two kept elements share a key. */
  lemma {:induction false} KeptDistinct<T, K>(xs: seq<T>, key: T -> K, accept: T -> bool)
    ensures DistinctKeys(FirstOfEachKey(xs, key, accept), key)
  {
    if xs != [] {
      var init := xs[..|xs| - 1];
      KeptDistinct(init, key, accept);
      var prev := FirstOfEachKey(init, key, accept);
      var r := FirstOfEachKey(xs, key, accept);
      forall i, j | 0 <= i < j < |r| ensures key(r[i]) != key(r[j]) {
        assert r[i] == prev[i];
        if j < |prev| {
          assert r[j] == prev[j];
        } else {
          assert r == prev + [xs[|xs| - 1]];
          assert key(prev[i]) in Keys(prev, key);
        }
      }
    }
  }

  /** Every accepted element of `xs` has its key among the kept ones. */
  lemma {:induction false} KeptComplete<T, K>(xs: seq<T>, key: T -> K, accept: T -> bool)
    ensures forall i :: 0 <= i < |xs| && accept(xs[i]) ==> key(xs[i]) in Keys(FirstOfEachKey(xs, key, accept), key)
  {
    if xs != [] {
      var init := xs[..|xs| - 1];
      KeptComplete(init, key, accept);
      var prev := FirstOfEachKey(init, key, accept);
      var r := FirstOfEachKey(xs, key, accept);
      assert Keys(prev, key) <= Keys(r, key) by {
        forall x | x in Keys(prev, key) ensures x in Keys(r, key) {
          var k :| 0 <= k < |prev| && key(prev[k]) == x;
          assert r[k] == prev[k];
        }
      }
      forall i | 0 <= i < |xs| && accept(xs[i]) ensures key(xs[i]) in Keys(r, key) {
        if i < |init| {
          assert init[i] == xs[i];
        }
      }
    }
  }

  /** As soon as one element is accepted, something is kept. */
  lemma KeptNonEmpty<T, K>(xs: seq<T>, k: nat, key: T -> K, accept: T -> bool)
    requires k < |xs| && accept(xs[k])
    ensures FirstOfEachKey(xs, key, accept) != []
  {
    KeptComplete(xs, key, accept);
    assert key(xs[k]) in Keys(FirstOfEachKey(xs, key, accept), key);
  }

  /** No accepted element before index `i` has the key of `xs[i]`. */
  ghost predicate EarliestOfKey<T, K>(xs: seq<T>, i: nat, key: T -> K, accept: T -> bool)
    requires i < |xs|
  {
    forall j :: 0 <= j < i && accept(xs[j]) ==> key(xs[j]) != key(xs[i])
  }

  lemma EarliestInPrefix<T, K>(xs: seq<T>, n: nat, i: nat, key: T -> K, accept: T -> bool)
    requires i < n <= |xs| && EarliestOfKey(xs[..n], i, key, accept)
    ensures EarliestOfKey(xs, i, key, accept)
  {
    forall j | 0 <= j < i && accept(xs[j]) ensures key(xs[j]) != key(xs[i]) {
      assert xs[..n][j] == xs[j];
    }
  }

  /** Each element of `r` is an element of `xs` that no accepted element before it shares a key with. */
  ghost predicate EachEarliest<T, K>(r: seq<T>, xs: seq<T>, key: T -> K, accept: T -> bool) {
    forall k :: 0 <= k < |r| ==> exists i :: 0 <= i < |xs| && xs[i] == r[k] && EarliestOfKey(xs, i, key, accept)
  }

  /** An accepted last element whose key nothing kept before it has is the earliest of its key. */
  lemma NewKeyEarliest<T, K>(xs: seq<T>, key: T -> K, accept: T -> bool)
    requires xs != []
    requires key(xs[|xs| - 1]) !in Keys(FirstOfEachKey(xs[..|xs| - 1], key, accept), key)
    ensures EarliestOfKey(xs, |xs| - 1, key, accept)
  {
    var n := |xs| - 1;
    var init := xs[..n];
    KeptComplete(init, key, accept);
    forall j | 0 <= j < n && accept(xs[j]) ensures key(xs[j]) != key(xs[n]) {
      assert init[j] == xs[j];
    }
  }

  /** Each kept element is the earliest accepted element of `xs` with its key. */
  lemma {:induction false} KeptEarliest<T, K>(xs: seq<T>, key: T -> K, accept: T -> bool)
    ensures EachEarliest(FirstOfEachKey(xs, key, accept), xs, key, accept)
  {
    if xs != [] {
      var n := |xs| - 1;
      var init := xs[..n];
      KeptEarliest(init, key, accept);
      var prev := FirstOfEachKey(init, key, accept);
      var r := FirstOfEachKey(xs, key, accept);
      forall k | 0 <= k < |r|
        ensures exists i :: 0 <= i < |xs| && xs[i] == r[k] && EarliestOfKey(xs, i, key, accept)
      {
        if k < |prev| {
          assert r[k] == prev[k];
          var i :| 0 <= i < |init| && init[i] == prev[k] && EarliestOfKey(init, i, key, accept);
          EarliestInPrefix(xs, n, i, key, accept);
          assert xs[i] == r[k];
        } else {
          assert r == prev + [xs[n]];
          NewKeyEarliest(xs, key, accept);
          assert xs[n] == r[k];
        }
      }
    }
  }

  /** An element that occurs once, after an accepted element with the same key, is never kept. */
  lemma LaterDuplicateNotKept<T, K>(xs: seq<T>, i: nat, j: nat, key: T -> K, accept: T -> bool)
    requires i < j < |xs| && accept(xs[i]) && key(xs[i]) == key(xs[j])
    requires forall k :: 0 <= k < |xs| && xs[k] == xs[j] ==> k == j
    ensures xs[j] !in FirstOfEachKey(xs, key, accept)
  {
    KeptEarliest(xs, key, accept);
  }

  lemma {:induction false} KeptLength<T, K>(xs: seq<T>, key: T -> K, accept: T -> bool)
    ensures |FirstOfEachKey(xs, key, accept)| <= |xs|
  {
    if xs != [] {
      KeptLength(xs[..|xs| - 1], key, accept);
    }
  }

  /** Extending the input only appends to what is kept. */
  lemma {:induction false} KeptGrows<T, K>(xs: seq<T>, i: nat, key: T -> K, accept: T -> bool)
    requires i <= |xs|
    ensures FirstOfEachKey(xs[..i], key, accept) <= FirstOfEachKey(xs, key, accept)
  {
    if i < |xs| {
      var init := xs[..|xs| - 1];
      KeptGrows(init, i, key, accept);
      assert init[..i] == xs[..i];
    } else {
      assert xs[..i] == xs;
    }
  }

  /**
   * Reference definition without a `seen` set: the accepted elements of `xs`
   * that no earlier accepted element shares a key with, in their order in `xs`.
   */
  ghost function FirstOccurrences<T, K>(xs: seq<T>, key: T -> K, accept: T -> bool): seq<T> {
    if xs == [] then []
    else
      var n := |xs| - 1;
      FirstOccurrences(xs[..n], key, accept)
        + if accept(xs[n]) && EarliestOfKey(xs, n, key, accept) then [xs[n]] else []
  }

  /** The loop with a `seen` set keeps exactly the first occurrences. */
  lemma {:induction false} KeptIsFirstOccurrences<T, K>(xs: seq<T>, key: T -> K, accept: T -> bool)
    ensures FirstOfEachKey(xs, key, accept) == FirstOccurrences(xs, key, accept)
  {
    if xs != [] {
      var n := |xs| - 1;
      var init := xs[..n];
      KeptIsFirstOccurrences(init, key, accept);
      KeptAccepted(init, key, accept);
      KeptComplete(init, key, accept);
      var prev := FirstOfEachKey(init, key, accept);
      if accept(xs[n]) {
        if key(xs[n]) in Keys(prev, key) {
          var k :| 0 <= k < |prev| && key(prev[k]) == key(xs[n]);
          assert prev[k] in init;
          var j :| 0 <= j < |init| && init[j] == prev[k];
          assert accept(xs[j]) && key(xs[j]) == key(xs[n]);
          assert !EarliestOfKey(xs, n, key, accept);
        } else {
          forall j | 0 <= j < n && accept(xs[j]) ensures key(xs[j]) != key(xs[n]) {
            assert init[j] == xs[j];
          }
        }
      }
    }
  }

  /** The first element of `xs` that `test` accepts, None when there is none. */
  function First<T(==)>(xs: seq<T>, test: T -> bool): (r: Option<T>)
    ensures r.None? <==> forall k :: 0 <= k < |xs| ==> !test(xs[k])
    ensures r.Some? ==> exists i :: 0 <= i < |xs| && xs[i] == r.value && test(xs[i]) &&
                                   forall j :: 0 <= j < i ==> !test(xs[j])
  {
    if xs == [] then None
    else if test(xs[0]) then Some(xs[0])
    else
      var r := First(xs[1..], test);
      assert forall k :: 0 < k < |xs| ==> xs[k] == xs[1..][k - 1];
      if r.Some? then
        var i :| 0 <= i < |xs[1..]| && xs[1..][i] == r.value && test(xs[1..][i]) &&
                 forall j :: 0 <= j < i ==> !test(xs[1..][j]);
        assert xs[i + 1] == r.value;
        r
      else r
  }
}
