/** Element-wise maps over sequences, the shape of a list comprehension. */
module Sequences {
  /** `[f(x) for x in s]`. */
  function MapSeq<A, B>(f: A --> B, s: seq<A>): (r: seq<B>)
    requires forall x :: x in s ==> f.requires(x)
    ensures |r| == |s|
    ensures forall i :: 0 <= i < |s| ==> r[i] == f(s[i])
  {
    seq(|s|, i requires 0 <= i < |s| => f(s[i]))
  }

  /** Mapping one more element of a prefix appends that element's image. */
  lemma MapSeqSnoc<A, B>(f: A --> B, s: seq<A>, k: nat)
    requires k < |s|
    requires forall x :: x in s[..k + 1] ==> f.requires(x)
    ensures forall x :: x in s[..k] ==> f.requires(x)
    ensures MapSeq(f, s[..k + 1]) == MapSeq(f, s[..k]) + [f(s[k])]
  {
    assert s[..k + 1] == s[..k] + [s[k]];
  }
}
