/**
 Which byte strings are frames, said of their blocks: a frame is a sequence of whole
 blocks, each of which begins with its own length.
 */
module CobsBlocks {
  import opened Bytes
  import opened Cobs
  import opened Packets

  predicate IsBlock(b: Bytes) {
    b != [] && b[0] == |b|
  }

  predicate AreBlocks(blocks: seq<Bytes>) {
    forall i :: 0 <= i < |blocks| ==> IsBlock(blocks[i])
  }

  function Concat(blocks: seq<Bytes>): Bytes {
    if blocks == [] then [] else blocks[0] + Concat(blocks[1..])
  }

  /** What the blocks stand for: their data, with a zero behind each but the last and the full ones. */
  function Meant(blocks: seq<Bytes>): Bytes
    requires blocks != [] && AreBlocks(blocks)
  {
    if |blocks| == 1 then blocks[0][1..]
    else blocks[0][1..] + (if |blocks[0]| == 255 then [] else [0]) + Meant(blocks[1..])
  }

  ghost predicate MadeOf(e: Bytes, blocks: seq<Bytes>) {
    blocks != [] && AreBlocks(blocks) && Concat(blocks) == e
  }

  /** A sequence of whole blocks is decoded to what it stands for. */
  lemma {:induction false} BlocksDecode(blocks: seq<Bytes>)
    requires blocks != [] && AreBlocks(blocks)
    ensures Decode(Concat(blocks)) == Some(Meant(blocks)) && Concat(blocks) != []
    decreases |blocks|
  {
    var rest := Concat(blocks[1..]);
    DecodeStep(blocks[0], rest);
    if |blocks| > 1 {
      BlocksDecode(blocks[1..]);
    }
  }

  /** And nothing else is decoded. */
  lemma {:induction false} DecodedIsBlocks(e: Bytes) returns (blocks: seq<Bytes>)
    requires Decode(e).Some?
    ensures MadeOf(e, blocks)
    decreases |e|
  {
    var b, rest := e[..e[0]], e[e[0]..];
    assert e == b + rest;
    if rest == [] {
      blocks := [b];
      assert Concat(blocks[1..]) == [];
    } else {
      var more := DecodedIsBlocks(rest);
      blocks := [b] + more;
      assert blocks[1..] == more;
    }
  }

  /** A byte string decodes exactly if it is made of whole blocks, and then to what they stand for. */
  lemma DecodeExactly(e: Bytes)
    ensures Decode(e).Some? <==> exists blocks :: MadeOf(e, blocks)
    ensures forall blocks :: MadeOf(e, blocks) ==> Decode(e) == Some(Meant(blocks))
  {
    forall blocks | MadeOf(e, blocks)
      ensures Decode(e) == Some(Meant(blocks))
    {
      BlocksDecode(blocks);
    }
    if Decode(e).Some? {
      var blocks := DecodedIsBlocks(e);
      assert MadeOf(e, blocks);
    }
  }

  /** The three things a frame can be: empty, garbled, or whole blocks. */
  lemma InterpretExactly(frame: Bytes)
    ensures Interpret(frame) == Reset <==> frame == []
    ensures Interpret(frame) == Garbled <==> frame != [] && forall blocks :: !MadeOf(frame, blocks)
    ensures forall blocks :: MadeOf(frame, blocks) ==> Interpret(frame) == Packet(Meant(blocks))
  {
    DecodeExactly(frame);
    forall blocks | MadeOf(frame, blocks)
      ensures frame != []
    {
      BlocksDecode(blocks);
    }
  }

  // ------------------------------------------------------- frames cut short

  /** The blocks an encoding is made of. */
  function BlocksOf(p: Bytes): seq<Bytes>
    decreases |p|
  {
    if RunLength(p) == |p| then [Block(p)] else [Block(p)] + BlocksOf(Rest(p))
  }

  lemma {:induction false} EncodeIsBlocks(p: Bytes)
    ensures MadeOf(Encode(p), BlocksOf(p))
    decreases |p|
  {
    EncodeStep(p);
    if RunLength(p) == |p| {
      assert [Block(p)][1..] == [];
      assert Concat([Block(p)]) == Block(p) + [] == Block(p);
    } else {
      EncodeIsBlocks(Rest(p));
      assert ([Block(p)] + BlocksOf(Rest(p)))[1..] == BlocksOf(Rest(p));
    }
  }

  /** Whole blocks in front of whole blocks are the first of them. */
  lemma {:induction false} FrontBlocks(front: seq<Bytes>, blocks: seq<Bytes>)
    requires AreBlocks(front) && AreBlocks(blocks) && Concat(front) <= Concat(blocks)
    ensures |front| <= |blocks| && front == blocks[..|front|]
    decreases |front|
  {
    if front != [] {
      var a, b := front[0], blocks[0];
      assert Concat(front)[0] == a[0] && Concat(blocks)[0] == b[0];
      assert a == Concat(front)[..|a|] == Concat(blocks)[..|a|] == b;
      assert Concat(front[1..]) == Concat(front)[|a|..] && Concat(blocks[1..]) == Concat(blocks)[|a|..];
      assert Concat(front)[|a|..] <= Concat(blocks)[|a|..];
      FrontBlocks(front[1..], blocks[1..]);
    }
  }

  lemma {:induction false} FrontIsPrefix(blocks: seq<Bytes>, j: nat)
    requires j <= |blocks|
    ensures Concat(blocks[..j]) <= Concat(blocks)
    decreases j
  {
    if j > 0 {
      FrontIsPrefix(blocks[1..], j - 1);
      assert blocks[..j][1..] == blocks[1..][..j - 1];
    }
  }

  /**
   A frame of which only the first `k` bytes are there decodes exactly if it was cut
   between blocks, and is garbled otherwise.
   */
  lemma CutDecodesExactly(p: Bytes, k: nat)
    requires k <= |Encode(p)|
    ensures Decode(Encode(p)[..k]).Some?
            <==> exists j :: 1 <= j <= |BlocksOf(p)| && k == |Concat(BlocksOf(p)[..j])|
  {
    var e, blocks := Encode(p)[..k], BlocksOf(p);
    EncodeIsBlocks(p);
    if Decode(e).Some? {
      var front := DecodedIsBlocks(e);
      FrontBlocks(front, blocks);
      var j := |front|;
      assert 1 <= j <= |BlocksOf(p)| && k == |Concat(BlocksOf(p)[..j])|;
    }
    if j :| 1 <= j <= |blocks| && k == |Concat(blocks[..j])| {
      FrontIsPrefix(blocks, j);
      assert e == Concat(blocks[..j]);
      BlocksDecode(blocks[..j]);
    }
  }

  /** A cut in the middle of a block, in numbers: the frame is refused. */
  lemma CutExample()
    ensures Interpret([5, 65]) == Garbled
  {}

  /** A packet that ends with a full run ends its frame with a full block. */
  lemma FullRun(p: Bytes)
    requires ZeroFree(p) && |p| == 254
    ensures Encode(p) == [255] + p
  {
    assert RunLength(p) == 254 && p[..254] == p;
  }
}
