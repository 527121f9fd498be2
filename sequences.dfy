/** The two ways `generateTypes` accumulates results in a loop: pushing a
    few items per element (`ConcatMap`) and storing one value per key
    (`MapEntries`). */
module Sequences {

  /** The items `f` gives for each element of `xs`, in order. */
  function ConcatMap<T, U>(f: T -> seq<U>, xs: seq<T>): seq<U> {
    if xs == [] then []
    else ConcatMap(f, xs[..|xs| - 1]) + f(xs[|xs| - 1])
  }

  /** An object built by storing `f(key, value)` under each key in turn. */
  function MapEntries<T, U>(f: (string, T) -> U, xs: seq<(string, T)>): seq<(string, U)> {
    if xs == [] then []
    else
      var n := |xs| - 1;
      MapEntries(f, xs[..n]) + [(xs[n].0, f(xs[n].0, xs[n].1))]
  }

  lemma {:induction false} ConcatMapAppend<T, U>(f: T -> seq<U>, a: seq<T>, b: seq<T>)
    ensures ConcatMap(f, a + b) == ConcatMap(f, a) + ConcatMap(f, b)
    decreases |b|
  {
    if b == [] {
      assert a + b == a;
    } else {
      var n := |b| - 1;
      assert (a + b)[..|a + b| - 1] == a + b[..n];
      assert (a + b)[|a + b| - 1] == b[n];
      ConcatMapAppend(f, a, b[..n]);
    }
  }

  /** The items of element `k` sit between those of the elements before it
      and those of the elements after it. */
  lemma ConcatMapSplit<T, U>(f: T -> seq<U>, xs: seq<T>, k: nat)
    requires k < |xs|
    ensures ConcatMap(f, xs) == ConcatMap(f, xs[..k]) + f(xs[k]) + ConcatMap(f, xs[k + 1..])
  {
    ConcatMapCut(f, xs, k);
    ConcatMapFrom(f, xs, k);
    AppendAssoc(ConcatMap(f, xs[..k]), f(xs[k]), ConcatMap(f, xs[k + 1..]));
  }

  lemma ConcatMapCut<T, U>(f: T -> seq<U>, xs: seq<T>, k: nat)
    requires k <= |xs|
    ensures ConcatMap(f, xs) == ConcatMap(f, xs[..k]) + ConcatMap(f, xs[k..])
  {
    assert xs == xs[..k] + xs[k..];
    ConcatMapAppend(f, xs[..k], xs[k..]);
  }

  lemma ConcatMapFrom<T, U>(f: T -> seq<U>, xs: seq<T>, k: nat)
    requires k < |xs|
    ensures ConcatMap(f, xs[k..]) == f(xs[k]) + ConcatMap(f, xs[k + 1..])
  {
    var one := [xs[k]];
    assert xs[k..] == one + xs[k + 1..];
    ConcatMapAppend(f, one, xs[k + 1..]);
    assert one[..0] == [];
  }

  lemma AppendAssoc<U>(a: seq<U>, b: seq<U>, c: seq<U>)
    ensures a + (b + c) == a + b + c
  {
  }

  /** An item is produced exactly when some element produces it. */
  lemma {:induction false} ConcatMapMembership<T, U>(f: T -> seq<U>, xs: seq<T>, y: U)
    ensures y in ConcatMap(f, xs) <==> exists k :: 0 <= k < |xs| && y in f(xs[k])
    decreases |xs|
  {
    if xs != [] {
      var n := |xs| - 1;
      var init := xs[..n];
      ConcatMapMembership(f, init, y);
      if y in ConcatMap(f, xs) && y !in f(xs[n]) {
        var k :| 0 <= k < n && y in f(init[k]);
        assert init[k] == xs[k];
      }
      if exists k :: 0 <= k < |xs| && y in f(xs[k]) {
        var k :| 0 <= k < |xs| && y in f(xs[k]);
        if k < n {
          assert init[k] == xs[k];
        }
      }
    }
  }

  /** One stored entry per element, in order, under the element's key. */
  lemma {:induction false} MapEntriesAt<T, U>(f: (string, T) -> U, xs: seq<(string, T)>)
    ensures |MapEntries(f, xs)| == |xs|
    ensures forall m :: 0 <= m < |xs| ==> MapEntries(f, xs)[m] == (xs[m].0, f(xs[m].0, xs[m].1))
    decreases |xs|
  {
    if xs != [] {
      var n := |xs| - 1;
      MapEntriesAt(f, xs[..n]);
      forall m | 0 <= m < n ensures xs[..n][m] == xs[m] { }
    }
  }
}
