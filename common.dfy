/** Small value types and collection helpers shared by every analyser. */
module Common {

  datatype Option<T> = None | Some(value: T)

  /** The elements of a list, as Python's `set(xs)` sees them. */
  function AsSet<T>(xs: seq<T>): set<T>
  {
    set x | x in xs
  }

  predicate NoDuplicates<T(==)>(xs: seq<T>)
  {
    forall i, j :: 0 <= i < j < |xs| ==> xs[i] != xs[j]
  }

  /** Python's `list(s)` for a set `s`: every element exactly once, in an
      order the caller may not rely on (string hashing is randomised). */
  method ListOfSet<T>(s: set<T>) returns (xs: seq<T>)
    ensures NoDuplicates(xs)
    ensures AsSet(xs) == s
    ensures |xs| == |s|
  {
    xs := [];
    var rest := s;
    while rest != {}
      invariant rest <= s
      invariant AsSet(xs) == s - rest
      invariant NoDuplicates(xs)
      invariant |xs| + |rest| == |s|
      decreases rest
    {
      var x :| x in rest;
      assert AsSet(xs + [x]) == AsSet(xs) + {x};
      xs := xs + [x];
      rest := rest - {x};
    }
  }

  /** A list without repeats has as many elements as its set. */
  lemma {:induction false} DistinctCardinality<T>(xs: seq<T>)
    requires NoDuplicates(xs)
    ensures |AsSet(xs)| == |xs|
  {
    if xs != [] {
      var init := xs[..|xs| - 1];
      var last := xs[|xs| - 1];
      assert NoDuplicates(init) by {
        forall i, j | 0 <= i < j < |init| ensures init[i] != init[j] {
          assert init[i] == xs[i] && init[j] == xs[j];
        }
      }
      DistinctCardinality(init);
      assert AsSet(xs) == AsSet(init) + {last};
      forall i | 0 <= i < |init| ensures init[i] != last {
        assert init[i] == xs[i];
      }
    }
  }

  /** The list built by calling `fields.extend(f(x))` for each `x` in turn. */
  function FlatMap<T, U>(f: T -> seq<U>, xs: seq<T>): seq<U>
  {
    if xs == [] then [] else FlatMap(f, xs[..|xs| - 1]) + f(xs[|xs| - 1])
  }

  lemma {:induction false} InFlatMap<T, U>(f: T -> seq<U>, xs: seq<T>, w: U)
    ensures w in FlatMap(f, xs) <==> exists j :: 0 <= j < |xs| && w in f(xs[j])
  {
    if xs != [] {
      var init := xs[..|xs| - 1];
      InFlatMap(f, init, w);
      if w in FlatMap(f, xs) && w !in f(xs[|xs| - 1]) {
        var j :| 0 <= j < |init| && w in f(init[j]);
        assert xs[j] == init[j];
      }
      if j :| 0 <= j < |xs| && w in f(xs[j]) {
        if j < |init| { assert init[j] == xs[j]; }
      }
    }
  }

  /** Flattening distributes over concatenation: each element's list
      keeps its place. */
  lemma {:induction false} FlatMapAppend<T, U>(f: T -> seq<U>, xs: seq<T>, ys: seq<T>)
    ensures FlatMap(f, xs + ys) == FlatMap(f, xs) + FlatMap(f, ys)
    decreases |ys|
  {
    if ys == [] {
      assert xs + ys == xs;
    } else {
      var init := ys[..|ys| - 1];
      assert (xs + ys)[..|xs + ys| - 1] == xs + init;
      assert (xs + ys)[|xs + ys| - 1] == ys[|ys| - 1];
      FlatMapAppend(f, xs, init);
    }
  }

  /** With at most `k` elements per list, at most `k` times as many in all. */
  lemma {:induction false} FlatMapBound<T, U>(f: T -> seq<U>, xs: seq<T>, k: nat)
    requires forall x :: x in xs ==> |f(x)| <= k
    ensures |FlatMap(f, xs)| <= k * |xs|
  {
    if xs != [] {
      var init := xs[..|xs| - 1];
      assert forall x :: x in init ==> x in xs;
      FlatMapBound(f, init, k);
      assert xs[|xs| - 1] in xs;
      assert |FlatMap(f, xs)| == |FlatMap(f, init)| + |f(xs[|xs| - 1])|;
      assert k * |xs| == k * |init| + k by {
        assert |xs| == |init| + 1;
      }
    }
  }

  /** Sequences that differ at some index are different. */
  lemma Differ<T>(x: seq<T>, y: seq<T>, k: nat)
    requires k < |x| && k < |y| && x[k] != y[k]
    ensures x != y
  {
  }

  /** Sequences whose tails differ at some distance from the end are
      different. */
  lemma SuffixesDiffer<T>(a: seq<T>, x: seq<T>, b: seq<T>, y: seq<T>, k: nat)
    requires k < |x| && k < |y| && x[|x| - 1 - k] != y[|y| - 1 - k]
    ensures a + x != b + y
  {
    assert (a + x)[|a + x| - 1 - k] == x[|x| - 1 - k];
    assert (b + y)[|b + y| - 1 - k] == y[|y| - 1 - k];
  }
}
