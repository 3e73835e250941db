/** `itertools.batched(xs, n)` and the flattening that undoes it. */
module Batching {
  /**
   * Consecutive slices of `xs` of `n` elements each, the last one possibly
   * shorter; no slice is empty.
   */
  function Batches<T>(xs: seq<T>, n: nat): (bs: seq<seq<T>>)
    requires n > 0
    ensures forall i :: 0 <= i < |bs| ==> 0 < |bs[i]| <= n
    ensures forall i :: 0 <= i < |bs| - 1 ==> |bs[i]| == n
    decreases |xs|
  {
    if xs == [] then []
    else if |xs| <= n then [xs]
    else [xs[..n]] + Batches(xs[n..], n)
  }

  /** The slices written one after another. */
  function Flatten<T>(bs: seq<seq<T>>): seq<T> {
    if bs == [] then [] else Flatten(bs[..|bs| - 1]) + bs[|bs| - 1]
  }

  lemma {:induction false} FlattenCons<T>(b: seq<T>, bs: seq<seq<T>>)
    ensures Flatten([b] + bs) == b + Flatten(bs)
    decreases |bs|
  {
    if bs != [] {
      var n := |bs| - 1;
      assert ([b] + bs)[..|[b] + bs| - 1] == [b] + bs[..n];
      FlattenCons(b, bs[..n]);
    }
  }

  /** Processing the batches in order visits exactly the elements, in order. */
  lemma {:induction false} FlattenBatches<T>(xs: seq<T>, n: nat)
    requires n > 0
    ensures Flatten(Batches(xs, n)) == xs
    decreases |xs|
  {
    if xs != [] && |xs| > n {
      FlattenBatches(xs[n..], n);
      FlattenCons(xs[..n], Batches(xs[n..], n));
      assert xs[..n] + xs[n..] == xs;
    } else if xs != [] {
      assert Flatten([xs]) == Flatten([]) + xs;
    }
  }

  /** What a batch holds is among the flattened elements. */
  lemma {:induction false} FlattenMember<T>(bs: seq<seq<T>>, k: nat, x: T)
    requires k < |bs| && x in bs[k]
    ensures x in Flatten(bs)
  {
    if k < |bs| - 1 {
      FlattenMember(bs[..|bs| - 1], k, x);
    }
  }

  lemma FlattenSnoc<T>(bs: seq<seq<T>>, k: nat)
    requires k < |bs|
    ensures Flatten(bs[..k + 1]) == Flatten(bs[..k]) + bs[k]
  {
    assert bs[..k + 1][..k] == bs[..k];
  }

  /** What the first `k` batches hold is among the flattened elements. */
  lemma {:induction false} FlattenPrefixMember<T>(bs: seq<seq<T>>, k: nat, x: T)
    requires k <= |bs| && x in Flatten(bs[..k])
    ensures x in Flatten(bs)
  {
    if k < |bs| {
      var init := bs[..|bs| - 1];
      assert init[..k] == bs[..k];
      FlattenPrefixMember(init, k, x);
    } else {
      assert bs[..k] == bs;
    }
  }
}
