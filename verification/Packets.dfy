/** Packets over frames: what a stream of bytes means to the layer above the framer. */
module Packets {
  import opened Bytes
  import Cobs
  import opened Errors
  import opened Splitter
  import opened Transport

  /** What the framer hands up: an empty frame is a reset, any other is a packet or garbage. */
  datatype Input = Reset | Garbled | Packet(data: Bytes)

  function Interpret(frame: Bytes): Input {
    if frame == [] then Reset
    else match Cobs.Decode(frame)
         case None => Garbled
         case Some(p) => Packet(p)
  }

  /** Next input a stream gives, with the rest of the stream. */
  function NextInput(max: nat, s: Bytes): Option<(Input, Bytes)> {
    match NextFrame(max, s)
    case None => None
    case Some((frame, rest)) => Some((Interpret(frame), rest))
  }

  /** The first `n` inputs of a stream, if it has as many. */
  function Take(max: nat, s: Bytes, n: nat): Option<(seq<Input>, Bytes)> {
    if n == 0 then Some(([], s))
    else match Take(max, s, n - 1)
         case None => None
         case Some((ins, mid)) =>
           match NextInput(max, mid)
           case None => None
           case Some((input, rest)) => Some((ins + [input], rest))
  }

  /** Reading failed for good or for now: what is lost of the stream, and why no input came. */
  ghost predicate Stopped(max: nat, last: Bytes, e: Error, after: Bytes) {
    && Interrupted(max, last, after)
    && (e == RecvFailed || (e == Terminated && NextInput(max, last) == None))
  }

  // ------------------------------------------------------------ sending

  /** The bytes of a packet on the wire. */
  function Framed(packet: Bytes): Bytes {
    Cobs.Encode(packet) + [0]
  }

  /** The packet is short enough to be sent at all. */
  predicate Fits(max: nat, packet: Bytes) {
    Cobs.EncodeBound(|packet|) <= max
  }

  /** What an attempt to send a packet puts on the wire. */
  function Emitted(max: nat, packet: Bytes, w: Write): Bytes {
    if Fits(max, packet) then Delivered(Framed(packet), w) else []
  }

  predicate SendOk(max: nat, packet: Bytes, w: Write) {
    Fits(max, packet) && w.Whole?
  }

  function SendResult(max: nat, packet: Bytes, w: Write): (r: Result<(), Error>)
    ensures r.Ok? <==> SendOk(max, packet, w)
  {
    if !Fits(max, packet) then Err(FrameTooLarge(Cobs.EncodeBound(|packet|)))
    else if w.Whole? then Ok(()) else Err(SendFailed)
  }

  /** A packet that fits is the next input, whatever follows it. */
  lemma FramedIsNext(max: nat, packet: Bytes, rest: Bytes)
    requires Fits(max, packet)
    ensures NextInput(max, Framed(packet) + rest) == Some((Packet(packet), rest))
  {
    Cobs.EncodeZeroFree(packet);
    Cobs.EncodeLength(packet);
    Cobs.DecodeEncode(packet);
    NextOfFirst(max, Framed(packet) + rest, Cobs.Encode(packet), rest);
  }

  /** A delimiter at a frame boundary is a reset. */
  lemma ZeroIsReset(max: nat, rest: Bytes)
    ensures NextInput(max, [0] + rest) == Some((Reset, rest))
  {}

  lemma NextInputShrinks(max: nat, s: Bytes)
    ensures NextInput(max, s).Some? ==> |NextInput(max, s).value.1| < |s|
  {
    FramesUnfold(max, s);
  }

  // -------------------------------------------------------- taking in parts

  lemma {:induction false} TakeLength(max: nat, s: Bytes, n: nat)
    ensures Take(max, s, n).Some? ==> |Take(max, s, n).value.0| == n
  {
    if n > 0 {
      TakeLength(max, s, n - 1);
    }
  }

  lemma {:induction false} TakeSplit(max: nat, s: Bytes, n: nat, m: nat)
    requires Take(max, s, n).Some?
    ensures var (a, mid) := Take(max, s, n).value;
            match Take(max, mid, m)
            case None => Take(max, s, n + m) == None
            case Some((b, rest)) => Take(max, s, n + m) == Some((a + b, rest))
    decreases m
  {
    if m == 0 {
      var a := Take(max, s, n).value.0;
      assert a + [] == a;
    } else {
      TakeSplit(max, s, n, m - 1);
      var (a, mid) := Take(max, s, n).value;
      if Take(max, mid, m).Some? {
        var b := Take(max, mid, m - 1).value.0;
        Regroup(a, b, [NextInput(max, Take(max, mid, m - 1).value.1).value.0]);
      }
    }
  }

  lemma TakeThen(max: nat, s: Bytes, a: seq<Input>, mid: Bytes, b: seq<Input>, rest: Bytes)
    requires Take(max, s, |a|) == Some((a, mid)) && Take(max, mid, |b|) == Some((b, rest))
    ensures Take(max, s, |a + b|) == Some((a + b, rest))
  {
    TakeSplit(max, s, |a|, |b|);
  }

  lemma TakeOne(max: nat, s: Bytes)
    ensures Take(max, s, 1) == match NextInput(max, s)
                               case None => None
                               case Some((input, rest)) => Some(([input], rest))
  {
    assert Take(max, s, 0) == Some(([], s));
    if NextInput(max, s).Some? {
      var input := NextInput(max, s).value.0;
      assert [] + [input] == [input];
    }
  }

  /** Reading from the front: the first input, then the others. */
  lemma {:induction false} TakeFront(max: nat, s: Bytes, n: nat)
    requires n > 0 && Take(max, s, n).Some?
    ensures var (ins, end) := Take(max, s, n).value;
            && |ins| == n && NextInput(max, s).Some?
            && NextInput(max, s).value.0 == ins[0]
            && Take(max, NextInput(max, s).value.1, n - 1) == Some((ins[1..], end))
  {
    TakeLength(max, s, n);
    TakeOne(max, s);
    if n == 1 {
      assert NextInput(max, Take(max, s, 0).value.1) == NextInput(max, s);
    } else {
      TakeFront(max, s, n - 1);
      var (init, mid) := Take(max, s, n - 1).value;
      var (ins, end) := Take(max, s, n).value;
      assert ins[1..] == init[1..] + [ins[n - 1]];
    }
  }

  /** Reading less gives a prefix. */
  lemma {:induction false} TakePrefix(max: nat, s: Bytes, n: nat, k: nat)
    requires k <= n && Take(max, s, n).Some?
    ensures Take(max, s, k).Some? && |Take(max, s, n).value.0| == n
    ensures Take(max, s, k).value.0 == Take(max, s, n).value.0[..k]
  {
    TakeLength(max, s, n);
    if k < n {
      TakePrefix(max, s, n - 1, k);
      var init, all := Take(max, s, n - 1).value.0, Take(max, s, n).value.0;
      assert all[..k] == init[..k];
    }
  }
}
