/** Places in a ring of slots, counted on from any of them. */
module Rings {

  /** The slot `k` places on from `p` in a ring of `n`. */
  function Slot(p: nat, k: nat, n: nat): (slot: nat)
    requires p < n && k <= n
    ensures slot < n
  {
    if p + k < n then p + k else p + k - n
  }

  /** Going on twice is going on once by the sum. */
  lemma SlotSum(p: nat, i: nat, j: nat, n: nat)
    requires p < n && i + j <= n && i < n
    ensures Slot(Slot(p, i, n), j, n) == Slot(p, i + j, n)
  {
  }
}
