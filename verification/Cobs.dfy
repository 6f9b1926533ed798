/**
 Consistent Overhead Byte Stuffing (Cheshire and Baker, IEEE/ACM Transactions on
 Networking, 1999), in the variant where a full run of 254 bytes ending the packet
 is not followed by an empty block.
 */
module Cobs {
  import opened Bytes

  /** Longest run of data bytes one block can carry. */
  const MAX_RUN := 254

  /** Length of the delimiter-free run a packet starts with, as far as one block reaches. */
  function RunLength(p: Bytes): (k: nat)
    ensures k <= |p| && k <= MAX_RUN
    ensures forall i :: 0 <= i < k ==> p[i] != 0
    ensures k < MAX_RUN && k < |p| ==> p[k] == 0
  {
    var i := FirstZero(p);
    if i < MAX_RUN then i else MAX_RUN
  }

  function Encode(p: Bytes): (e: Bytes)
    decreases |p|
  {
    var k := RunLength(p);
    var block: Bytes := [k + 1] + p[..k];
    if k == |p| then block
    else if k == MAX_RUN then block + Encode(p[k..])
    else block + Encode(p[k + 1..])
  }

  /** The packet a delimiter-free frame stands for, or None when a block is cut short. */
  function Decode(e: Bytes): (p: Option<Bytes>)
    decreases |e|
  {
    if e == [] || e[0] == 0 || |e| < e[0] then None
    else
      var block, rest := e[1..e[0]], e[e[0]..];
      if rest == [] then Some(block)
      else
        match Decode(rest)
        case None => None
        case Some(tail) => Some(block + (if e[0] == MAX_RUN + 1 then [] else [0]) + tail)
  }

  /** Space an encoder needs for a packet of `n` bytes. */
  function EncodeBound(n: nat): nat {
    n + n / MAX_RUN + 1
  }

  // ------------------------------------------------------------- one block

  /** The block a non-final packet starts with and the packet after it. */
  function Block(p: Bytes): (b: Bytes)
    ensures ZeroFree(b) && |b| == RunLength(p) + 1 && b[0] == |b|
  {
    var k := RunLength(p);
    var b: Bytes := [k + 1] + p[..k];
    b
  }

  function Rest(p: Bytes): (r: Bytes)
    requires RunLength(p) < |p|
    ensures |r| < |p|
  {
    var k := RunLength(p);
    if k == MAX_RUN then p[k..] else p[k + 1..]
  }

  lemma EncodeStep(p: Bytes)
    ensures Encode(p) == if RunLength(p) == |p| then Block(p) else Block(p) + Encode(Rest(p))
  {}

  lemma DecodeStep(b: Bytes, rest: Bytes)
    requires b != [] && b[0] == |b|
    ensures Decode(b + rest) ==
            if rest == [] then Some(b[1..])
            else match Decode(rest)
                 case None => None
                 case Some(tail) => Some(b[1..] + (if |b| == MAX_RUN + 1 then [] else [0]) + tail)
  {}

  // ------------------------------------------------------------ properties

  lemma {:induction false} EncodeZeroFree(p: Bytes)
    ensures ZeroFree(Encode(p)) && Encode(p) != []
    decreases |p|
  {
    EncodeStep(p);
    if RunLength(p) < |p| {
      EncodeZeroFree(Rest(p));
    }
  }

  /** The overhead is at least one byte, and never exceeds the encoder's bound. */
  lemma {:induction false} EncodeLength(p: Bytes)
    ensures |p| < |Encode(p)| <= EncodeBound(|p|)
    decreases |p|
  {
    EncodeStep(p);
    if RunLength(p) < |p| {
      EncodeLength(Rest(p));
    }
  }

  lemma Reassemble(p: Bytes)
    requires RunLength(p) < |p|
    ensures p == Block(p)[1..] + (if |Block(p)| == MAX_RUN + 1 then [] else [0]) + Rest(p)
  {}

  /** Decoding undoes encoding. */
  lemma {:induction false} DecodeEncode(p: Bytes)
    ensures Decode(Encode(p)) == Some(p)
    decreases |p|
  {
    var k, b := RunLength(p), Block(p);
    EncodeStep(p);
    if k == |p| {
      assert b + [] == b && b[1..] == p;
      DecodeStep(b, []);
    } else {
      var r := Rest(p);
      EncodeZeroFree(r);
      DecodeEncode(r);
      DecodeStep(b, Encode(r));
      Reassemble(p);
    }
  }

  /** A decoded packet is shorter than its frame, so it fits a buffer of the frame limit. */
  lemma {:induction false} DecodeShrinks(e: Bytes)
    ensures Decode(e).Some? ==> |Decode(e).value| < |e|
    decreases |e|
  {
    if e != [] && 0 < e[0] <= |e| {
      DecodeShrinks(e[e[0]..]);
    }
  }

  /** A frame cut short decodes to less of its packet, if it decodes at all. */
  lemma {:induction false} DecodeCutShort(p: Bytes, e: Bytes)
    requires e < Encode(p) && Decode(e).Some?
    ensures Decode(e).value < p
    decreases |p|
  {
    var b := Block(p);
    EncodeStep(p);
    assert e[0] == b[0];
    var rest := e[|b|..];
    assert e == b + rest;
    DecodeStep(b, rest);
    Reassemble(p);
    if rest != [] {
      CutTail(b, rest, Encode(Rest(p)));
      DecodeCutShort(Rest(p), rest);
    }
  }

  lemma CutTail(b: Bytes, rest: Bytes, more: Bytes)
    requires b + rest < b + more
    ensures rest < more
  {
    assert (b + rest)[|b|..] == rest && (b + more)[|b|..] == more;
    assert (b + more)[..|b + rest|][|b|..] == more[..|rest|];
  }

  /** Every block but the last is followed by another one the encoder would have needed. */
  predicate Canonical(e: Bytes)
    decreases |e|
  {
    e != [] && 0 < e[0] <= |e| &&
    var rest := e[e[0]..];
    rest != [] ==> Canonical(rest) && !(e[0] == MAX_RUN + 1 && rest == [1])
  }

  /**
   Two frames stand for one packet only through the optional empty block after a
   full final run: re-encoding gives a frame back exactly when it lacks that block.
   */
  lemma {:induction false} EncodeDecode(e: Bytes)
    requires ZeroFree(e) && Decode(e).Some?
    ensures Encode(Decode(e).value) == e <==> Canonical(e)
    decreases |e|
  {
    var b, rest := e[..e[0]], e[e[0]..];
    assert e == b + rest;
    DecodeStep(b, rest);
    var p := Decode(e).value;
    if rest == [] {
      assert p == b[1..];
      OneBlock(p, b);
    } else {
      var q := Decode(rest).value;
      EncodeDecode(rest);
      assert b[1..] == e[1..e[0]];
      if e[0] == MAX_RUN + 1 {
        FullBlock(p, b, q);
      } else {
        ShortBlock(p, b, q);
      }
      TailsAgree(b, Encode(q), rest);
    }
  }

  lemma OneBlock(p: Bytes, b: Bytes)
    requires ZeroFree(b) && b != [] && b[0] == |b| && p == b[1..]
    ensures Encode(p) == b
  {}

  lemma FullBlock(p: Bytes, b: Bytes, q: Bytes)
    requires ZeroFree(b) && b != [] && b[0] == |b| == MAX_RUN + 1 && p == b[1..] + [] + q
    ensures Encode(p) == if q == [] then b else b + Encode(q)
  {}

  lemma ShortBlock(p: Bytes, b: Bytes, q: Bytes)
    requires ZeroFree(b) && b != [] && b[0] == |b| <= MAX_RUN && p == b[1..] + [0] + q
    ensures Encode(p) == b + Encode(q)
  {
    var k := |b| - 1;
    assert forall i :: 0 <= i < k ==> p[i] == b[i + 1];
    assert p[k] == 0;
    assert RunLength(p) == k;
    assert p[..k] == b[1..] && p[k + 1..] == q;
    assert b == [b[0]] + b[1..];
  }

  lemma TailsAgree(b: Bytes, x: Bytes, y: Bytes)
    ensures b + x == b + y <==> x == y
  {
    assert (b + x)[|b|..] == x && (b + y)[|b|..] == y;
  }
}
