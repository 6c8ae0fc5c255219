/** Picking some elements of a sequence, in order. */
module Picks {
  // The indices of the elements that were picked.
  predicate Increasing(ks: seq<nat>)
  {
    forall i, j :: 0 <= i < j < |ks| ==> ks[i] < ks[j]
  }

  lemma {:induction false} OneMorePick(ks: seq<nat>, n: nat)
    requires Increasing(ks) && forall k :: k in ks ==> k < n
    ensures Increasing(ks + [n])
  {
    forall i, j | 0 <= i < j < |ks + [n]|
      ensures (ks + [n])[i] < (ks + [n])[j]
    {
      assert (ks + [n])[i] in ks;
    }
  }
}
