/** The size arithmetic tying messages, sealed packets and frames together. */
module Limits {
  import opened Bytes
  import Cobs

  /** By how much a sealed message is longer. */
  const SEAL_OVERHEAD := 16

  /** A message of `size` bytes, sealed and framed, is sure to fit a frame. */
  predicate Carries(max: nat, size: nat) {
    Cobs.EncodeBound(size + SEAL_OVERHEAD) <= max
  }

  /**
   The largest message a frame limit carries, counted down from the limit itself.
   None stands for the subtraction underflowing, which happens exactly when not even
   the empty message can be carried.
   */
  method MaxMessageSize(max: nat) returns (r: Option<nat>)
    ensures r == Limit(max)
  {
    var size: nat := max;
    while !Carries(max, size)
      invariant size <= max
      invariant forall s :: size < s <= max ==> !Carries(max, s)
      decreases size
    {
      if size == 0 {
        ClosedForm(max);
        return None;
      }
      size := size - 1;
    }
    ClosedForm(max);
    assert Carries(max, size) && Limit(max).Some? && Carries(max, Limit(max).value);
    return Some(size);
  }

  /** The loop's result in closed form. */
  function Limit(max: nat): Option<nat> {
    if max <= SEAL_OVERHEAD then None else Some(max - 1 - max / 255 - SEAL_OVERHEAD)
  }

  /** The closed form is the exact threshold. */
  lemma ClosedForm(max: nat)
    ensures Limit(max) == None <==> forall size: nat :: !Carries(max, size)
    ensures Limit(max).Some? ==> forall size: nat :: Carries(max, size) <==> size <= Limit(max).value
  {
    forall size: nat
      ensures Carries(max, size) <==> max > SEAL_OVERHEAD && size <= max - 1 - max / 255 - SEAL_OVERHEAD
    {
      Threshold(max, size + SEAL_OVERHEAD);
    }
    assert max > SEAL_OVERHEAD ==> Carries(max, 0);
  }

  lemma Threshold(max: nat, n: nat)
    ensures Cobs.EncodeBound(n) <= max <==> n <= max - 1 - max / 255
  {}
}
