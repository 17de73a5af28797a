/**
 * Keeping some elements of a sequence and transforming them, in order: the
 * shape of a loop that appends to a list only for the elements it accepts.
 */
module Sequences {

  import opened Wrappers

  /** The images `f` gives, for the elements it gives one, in order. */
  function FilterMap<T, U>(xs: seq<T>, f: T -> Option<U>): seq<U> {
    if xs == [] then []
    else
      var last := f(xs[|xs| - 1]);
      FilterMap(xs[..|xs| - 1], f) + (if last.Some? then [last.value] else [])
  }

  lemma FilterMapStep<T, U>(xs: seq<T>, i: nat, f: T -> Option<U>)
    requires i < |xs|
    ensures FilterMap(xs[..i + 1], f)
         == FilterMap(xs[..i], f) + (if f(xs[i]).Some? then [f(xs[i]).value] else [])
  {
    assert xs[..i + 1][..i] == xs[..i];
  }

  /** The image of every element, in order. */
  function Map<T, U>(xs: seq<T>, f: T -> U): seq<U> {
    if xs == [] then [] else Map(xs[..|xs| - 1], f) + [f(xs[|xs| - 1])]
  }

  lemma MapStep<T, U>(xs: seq<T>, i: nat, f: T -> U)
    requires i < |xs|
    ensures Map(xs[..i + 1], f) == Map(xs[..i], f) + [f(xs[i])]
  {
    assert xs[..i + 1][..i] == xs[..i];
  }

  /** The j-th image is the image of the j-th element. */
  lemma {:induction false} MapAt<T, U>(xs: seq<T>, f: T -> U)
    ensures |Map(xs, f)| == |xs|
    ensures forall j :: 0 <= j < |xs| ==> Map(xs, f)[j] == f(xs[j])
  {
    if xs != [] {
      var init := xs[..|xs| - 1];
      MapAt(init, f);
      assert forall j :: 0 <= j < |init| ==> init[j] == xs[j];
    }
  }

  /** The positions of the elements `f` gives an image, in increasing order. */
  function KeptIndices<T, U>(xs: seq<T>, f: T -> Option<U>): seq<nat> {
    if xs == [] then []
    else KeptIndices(xs[..|xs| - 1], f) + (if f(xs[|xs| - 1]).Some? then [|xs| - 1] else [])
  }

  /** The kept positions are in range, increasing, and each has an image. */
  lemma {:induction false} KeptIndicesSound<T, U>(xs: seq<T>, f: T -> Option<U>)
    ensures var idx := KeptIndices(xs, f);
      && |idx| <= |xs|
      && (forall k :: 0 <= k < |idx| ==> idx[k] < |xs| && f(xs[idx[k]]).Some?)
      && (forall k, l :: 0 <= k < l < |idx| ==> idx[k] < idx[l])
  {
    if xs != [] {
      var init := xs[..|xs| - 1];
      KeptIndicesSound(init, f);
      var idx0 := KeptIndices(init, f);
      var idx := KeptIndices(xs, f);
      forall k | 0 <= k < |idx0| ensures idx[k] < |xs| - 1 && f(xs[idx[k]]).Some? {
        assert idx[k] == idx0[k];
        assert init[idx0[k]] == xs[idx0[k]];
      }
    }
  }

  /** Every position whose element has an image is kept. */
  lemma {:induction false} KeptIndicesComplete<T, U>(xs: seq<T>, f: T -> Option<U>, j: nat)
    requires j < |xs| && f(xs[j]).Some?
    ensures j in KeptIndices(xs, f)
  {
    var n := |xs|;
    var idx := KeptIndices(xs, f);
    if j < n - 1 {
      var init := xs[..n - 1];
      assert init[j] == xs[j];
      KeptIndicesComplete(init, f, j);
      assert idx == KeptIndices(init, f) + (if f(xs[n - 1]).Some? then [n - 1] else []);
    } else {
      assert idx[|idx| - 1] == j;
    }
  }

  /** The k-th result is the image of the element at the k-th kept position. */
  lemma {:induction false} FilterMapAt<T, U>(xs: seq<T>, f: T -> Option<U>)
    ensures |FilterMap(xs, f)| == |KeptIndices(xs, f)|
    ensures forall k :: 0 <= k < |KeptIndices(xs, f)| ==>
      KeptIndices(xs, f)[k] < |xs| && f(xs[KeptIndices(xs, f)[k]]) == Some(FilterMap(xs, f)[k])
  {
    KeptIndicesSound(xs, f);
    if xs != [] {
      var init := xs[..|xs| - 1];
      FilterMapAt(init, f);
      KeptIndicesSound(init, f);
      var idx0 := KeptIndices(init, f);
      var idx := KeptIndices(xs, f);
      var r := FilterMap(xs, f);
      forall k | 0 <= k < |idx0| ensures f(xs[idx[k]]) == Some(r[k]) {
        assert idx[k] == idx0[k];
        assert init[idx0[k]] == xs[idx0[k]];
        assert r[k] == FilterMap(init, f)[k];
      }
    }
  }

}
