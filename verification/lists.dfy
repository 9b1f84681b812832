/**
 * The list comprehension `[f(x) for x in xs if f(x) is not None]` as a
 * function, with what it keeps and drops.
 */
module Lists {
  import opened Options

  /** The present results of `f` over `xs`, in order. */
  function FilterMap<A, B>(xs: seq<A>, f: A -> Option<B>): (r: seq<B>)
    ensures |r| <= |xs|
  {
    if xs == [] then []
    else
      var prev := FilterMap(xs[..|xs| - 1], f);
      var y := f(xs[|xs| - 1]);
      if y.Some? then prev + [y.value] else prev
  }

  lemma FilterMapNext<A, B>(xs: seq<A>, i: nat, f: A -> Option<B>)
    requires i < |xs|
    ensures FilterMap(xs[..i + 1], f)
            == if f(xs[i]).Some? then FilterMap(xs[..i], f) + [f(xs[i]).value] else FilterMap(xs[..i], f)
  {
    assert xs[..i + 1][..i] == xs[..i];
  }

  /** `y` is the result of `f` on some element of `xs`. */
  ghost predicate Produced<A, B>(xs: seq<A>, f: A -> Option<B>, y: B) {
    exists i :: 0 <= i < |xs| && f(xs[i]) == Some(y)
  }

  /** Every kept value is the result of `f` on some element. */
  lemma {:induction false} FilterMapSound<A, B>(xs: seq<A>, f: A -> Option<B>)
    ensures forall k :: 0 <= k < |FilterMap(xs, f)| ==> Produced(xs, f, FilterMap(xs, f)[k])
  {
    if xs != [] {
      var n := |xs| - 1;
      var init := xs[..n];
      FilterMapSound(init, f);
      var prev := FilterMap(init, f);
      var r := FilterMap(xs, f);
      forall k | 0 <= k < |r| ensures Produced(xs, f, r[k]) {
        if k < |prev| {
          assert r[k] == prev[k];
          assert Produced(init, f, prev[k]);
          var i :| 0 <= i < |init| && f(init[i]) == Some(prev[k]);
          assert xs[i] == init[i];
        } else {
          assert f(xs[n]) == Some(r[k]);
        }
      }
    }
  }

  /** Every present result of `f` is kept. */
  lemma {:induction false} FilterMapComplete<A, B>(xs: seq<A>, f: A -> Option<B>)
    ensures forall i :: 0 <= i < |xs| && f(xs[i]).Some? ==> f(xs[i]).value in FilterMap(xs, f)
  {
    if xs != [] {
      var n := |xs| - 1;
      var init := xs[..n];
      FilterMapComplete(init, f);
      forall i | 0 <= i < n && f(xs[i]).Some? ensures f(xs[i]).value in FilterMap(xs, f) {
        assert xs[i] == init[i];
      }
    }
  }

  /** Filtering a concatenation concatenates the filtered parts. */
  lemma {:induction false} FilterMapAppend<A, B>(xs: seq<A>, ys: seq<A>, f: A -> Option<B>)
    ensures FilterMap(xs + ys, f) == FilterMap(xs, f) + FilterMap(ys, f)
    decreases |ys|
  {
    if ys == [] {
      assert xs + ys == xs;
    } else {
      var init, y := ys[..|ys| - 1], ys[|ys| - 1];
      var last := FilterMap([y], f);
      calc {
        FilterMap(xs + ys, f);
      == { assert xs + ys == (xs + init) + [y]; }
        FilterMap((xs + init) + [y], f);
      == { FilterMapSnoc(xs + init, y, f); }
        FilterMap(xs + init, f) + last;
      == { FilterMapAppend(xs, init, f); }
        (FilterMap(xs, f) + FilterMap(init, f)) + last;
      ==
        FilterMap(xs, f) + (FilterMap(init, f) + last);
      == { FilterMapSnoc(init, y, f); assert ys == init + [y]; }
        FilterMap(xs, f) + FilterMap(ys, f);
      }
    }
  }

  lemma FilterMapSnoc<A, B>(zs: seq<A>, y: A, f: A -> Option<B>)
    ensures FilterMap(zs + [y], f) == FilterMap(zs, f) + FilterMap([y], f)
  {
    assert (zs + [y])[..|zs|] == zs;
    assert [y][..0] == [];
  }

  /** `[f(x) for x in xs]`. */
  function Map<A, B>(xs: seq<A>, f: A -> B): (r: seq<B>)
    ensures |r| == |xs|
  {
    if xs == [] then [] else Map(xs[..|xs| - 1], f) + [f(xs[|xs| - 1])]
  }

  /** Element `k` of the mapped list is `f` of element `k`. */
  lemma {:induction false} MapAt<A, B>(xs: seq<A>, f: A -> B)
    ensures forall k :: 0 <= k < |xs| ==> Map(xs, f)[k] == f(xs[k])
  {
    if xs != [] {
      var n := |xs| - 1;
      MapAt(xs[..n], f);
      forall k | 0 <= k < n ensures Map(xs, f)[k] == f(xs[k]) {
        assert xs[..n][k] == xs[k];
      }
    }
  }

  lemma MapNext<A, B>(xs: seq<A>, i: nat, f: A -> B)
    requires i < |xs|
    ensures Map(xs[..i + 1], f) == Map(xs[..i], f) + [f(xs[i])]
  {
    assert xs[..i + 1][..i] == xs[..i];
  }

  /** `[x for x in xs if p(x)]`. */
  function Filter<T>(xs: seq<T>, p: T -> bool): (r: seq<T>)
    ensures |r| <= |xs|
  {
    if xs == [] then []
    else
      var prev := Filter(xs[..|xs| - 1], p);
      if p(xs[|xs| - 1]) then prev + [xs[|xs| - 1]] else prev
  }

  /** `[x for x in xs if not p(x)]`. */
  function Reject<T>(xs: seq<T>, p: T -> bool): (r: seq<T>)
    ensures |r| <= |xs|
  {
    if xs == [] then []
    else
      var prev := Reject(xs[..|xs| - 1], p);
      if p(xs[|xs| - 1]) then prev else prev + [xs[|xs| - 1]]
  }

  lemma FilterNext<T>(xs: seq<T>, i: nat, p: T -> bool)
    requires i < |xs|
    ensures Filter(xs[..i + 1], p) == if p(xs[i]) then Filter(xs[..i], p) + [xs[i]] else Filter(xs[..i], p)
  {
    assert xs[..i + 1][..i] == xs[..i];
  }

  /** The filter keeps exactly the elements that pass. */
  lemma {:induction false} FilterMembers<T>(xs: seq<T>, p: T -> bool)
    ensures forall x :: x in Filter(xs, p) <==> x in xs && p(x)
  {
    if xs != [] {
      var init := xs[..|xs| - 1];
      FilterMembers(init, p);
      assert xs == init + [xs[|xs| - 1]];
    }
  }

  /** The rejecting filter keeps exactly the elements that fail. */
  lemma {:induction false} RejectMembers<T>(xs: seq<T>, p: T -> bool)
    ensures forall x :: x in Reject(xs, p) <==> x in xs && !p(x)
  {
    if xs != [] {
      var init := xs[..|xs| - 1];
      RejectMembers(init, p);
      assert xs == init + [xs[|xs| - 1]];
    }
  }

  /** Every element goes to exactly one side: the two sides together are a permutation of the input. */
  lemma {:induction false} FilterRejectPermutation<T>(xs: seq<T>, p: T -> bool)
    ensures multiset(Filter(xs, p)) + multiset(Reject(xs, p)) == multiset(xs)
  {
    if xs != [] {
      var init := xs[..|xs| - 1];
      FilterRejectPermutation(init, p);
      assert xs == init + [xs[|xs| - 1]];
    }
  }

  lemma FilterSnoc<T>(zs: seq<T>, y: T, p: T -> bool)
    ensures Filter(zs + [y], p) == Filter(zs, p) + Filter([y], p)
  {
    assert (zs + [y])[..|zs|] == zs;
    assert [y][..0] == [];
  }

  lemma RejectSnoc<T>(zs: seq<T>, y: T, p: T -> bool)
    ensures Reject(zs + [y], p) == Reject(zs, p) + Reject([y], p)
  {
    assert (zs + [y])[..|zs|] == zs;
    assert [y][..0] == [];
  }

  lemma {:induction false} FilterAppend<T>(xs: seq<T>, ys: seq<T>, p: T -> bool)
    ensures Filter(xs + ys, p) == Filter(xs, p) + Filter(ys, p)
    decreases |ys|
  {
    if ys == [] {
      assert xs + ys == xs;
    } else {
      var init, y := ys[..|ys| - 1], ys[|ys| - 1];
      var last := Filter([y], p);
      calc {
        Filter(xs + ys, p);
      == { assert xs + ys == (xs + init) + [y]; }
        Filter((xs + init) + [y], p);
      == { FilterSnoc(xs + init, y, p); }
        Filter(xs + init, p) + last;
      == { FilterAppend(xs, init, p); }
        (Filter(xs, p) + Filter(init, p)) + last;
      ==
        Filter(xs, p) + (Filter(init, p) + last);
      == { FilterSnoc(init, y, p); assert ys == init + [y]; }
        Filter(xs, p) + Filter(ys, p);
      }
    }
  }

  lemma {:induction false} RejectAppend<T>(xs: seq<T>, ys: seq<T>, p: T -> bool)
    ensures Reject(xs + ys, p) == Reject(xs, p) + Reject(ys, p)
    decreases |ys|
  {
    if ys == [] {
      assert xs + ys == xs;
    } else {
      var init, y := ys[..|ys| - 1], ys[|ys| - 1];
      var last := Reject([y], p);
      calc {
        Reject(xs + ys, p);
      == { assert xs + ys == (xs + init) + [y]; }
        Reject((xs + init) + [y], p);
      == { RejectSnoc(xs + init, y, p); }
        Reject(xs + init, p) + last;
      == { RejectAppend(xs, init, p); }
        (Reject(xs, p) + Reject(init, p)) + last;
      ==
        Reject(xs, p) + (Reject(init, p) + last);
      == { RejectSnoc(init, y, p); assert ys == init + [y]; }
        Reject(xs, p) + Reject(ys, p);
      }
    }
  }

  /** Filtering what already passed changes nothing, and the rejected elements hold none that pass. */
  lemma {:induction false} FilterOfSides<T>(xs: seq<T>, p: T -> bool)
    ensures Filter(Filter(xs, p), p) == Filter(xs, p) && Filter(Reject(xs, p), p) == []
    ensures Reject(Reject(xs, p), p) == Reject(xs, p) && Reject(Filter(xs, p), p) == []
  {
    if xs != [] {
      var init := xs[..|xs| - 1];
      var x := xs[|xs| - 1];
      FilterOfSides(init, p);
      if p(x) {
        FilterAppend(Filter(init, p), [x], p);
        RejectAppend(Filter(init, p), [x], p);
        assert [x][..0] == [];
      } else {
        FilterAppend(Reject(init, p), [x], p);
        RejectAppend(Reject(init, p), [x], p);
        assert [x][..0] == [];
      }
    }
  }

  /** `[x for x in xs if p(x)] + [x for x in xs if not p(x)]`. */
  function Partition<T>(xs: seq<T>, p: T -> bool): (r: seq<T>)
    ensures |r| == |xs|
  {
    FilterRejectPermutation(xs, p);
    assert |multiset(Filter(xs, p)) + multiset(Reject(xs, p))| == |multiset(xs)|;
    Filter(xs, p) + Reject(xs, p)
  }

  /** The partition is a permutation of the input. */
  lemma PartitionPermutation<T>(xs: seq<T>, p: T -> bool)
    ensures multiset(Partition(xs, p)) == multiset(xs)
  {
    FilterRejectPermutation(xs, p);
  }

  lemma FilterPasses<T>(xs: seq<T>, p: T -> bool, k: nat)
    requires k < |Filter(xs, p)|
    ensures p(Filter(xs, p)[k])
  {
    FilterMembers(xs, p);
    assert Filter(xs, p)[k] in Filter(xs, p);
  }

  lemma RejectFails<T>(xs: seq<T>, p: T -> bool, k: nat)
    requires k < |Reject(xs, p)|
    ensures !p(Reject(xs, p)[k])
  {
    RejectMembers(xs, p);
    assert Reject(xs, p)[k] in Reject(xs, p);
  }

  /** The passing elements come first, then the failing ones. */
  lemma PartitionFront<T>(xs: seq<T>, p: T -> bool)
    ensures forall k :: 0 <= k < |Partition(xs, p)| ==> (p(Partition(xs, p)[k]) <==> k < |Filter(xs, p)|)
  {
    var a := Filter(xs, p);
    var b := Reject(xs, p);
    forall k | 0 <= k < |a + b| ensures p((a + b)[k]) <==> k < |a| {
      if k < |a| {
        FilterPasses(xs, p, k);
      } else {
        RejectFails(xs, p, k - |a|);
      }
    }
  }

  /** The partition is stable: each side keeps the order the elements had in the input. */
  lemma PartitionStable<T>(xs: seq<T>, p: T -> bool)
    ensures Filter(Partition(xs, p), p) == Filter(xs, p)
    ensures Reject(Partition(xs, p), p) == Reject(xs, p)
  {
    var a := Filter(xs, p);
    var b := Reject(xs, p);
    FilterAppend(a, b, p);
    RejectAppend(a, b, p);
    FilterOfSides(xs, p);
    assert a + [] == a && [] + b == b;
  }
}
