/** Bytes and the two wrappers every other module shares. */
module Bytes {

  type Byte = b: int | 0 <= b < 256
  type Bytes = seq<Byte>

  datatype Option<+T> = None | Some(value: T)

  datatype Result<+T, +E> = Ok(value: T) | Err(error: E)

  /** No frame delimiter occurs in `s`. */
  predicate ZeroFree(s: Bytes) {
    forall k :: 0 <= k < |s| ==> s[k] != 0
  }

  /** Index of the first delimiter of `s`, or its length when there is none. */
  function FirstZero(s: Bytes): (i: nat)
    ensures i <= |s|
    ensures forall k :: 0 <= k < i ==> s[k] != 0
    ensures i < |s| ==> s[i] == 0
  {
    FirstZeroFrom(s, 0)
  }

  function FirstZeroFrom(s: Bytes, from: nat): (i: nat)
    requires from <= |s|
    ensures from <= i <= |s|
    ensures forall k :: from <= k < i ==> s[k] != 0
    ensures i < |s| ==> s[i] == 0
    decreases |s| - from
  {
    if from == |s| || s[from] == 0 then from else FirstZeroFrom(s, from + 1)
  }

  /** The first delimiter is the only index with a zero-free prefix and a zero after it. */
  lemma FirstZeroAt(pre: Bytes, post: Bytes)
    requires ZeroFree(pre)
    ensures FirstZero(pre + [0] + post) == |pre|
  {
    var s := pre + [0] + post;
    assert s[|pre|] == 0;
    assert forall k :: 0 <= k < |pre| ==> s[k] == pre[k];
  }

  lemma FirstZeroNone(s: Bytes)
    ensures FirstZero(s) == |s| <==> ZeroFree(s)
  {}
}
