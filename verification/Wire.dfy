/** What the promises of both sides are said in: bytes on the wire and packets that are next. */
module Wire {
  import opened Bytes
  import opened Crypto
  import opened Errors
  import opened Packets
  import opened Transport
  import Cobs

  /** The bytes a packet takes on the wire, and how much of them a write lets through. */
  function OnWire(packet: Bytes, write: Write): Bytes {
    match write
    case Whole => Cobs.Encode(packet) + [0]
    case Partial(size) =>
      var frame := Cobs.Encode(packet) + [0];
      frame[..if size < |frame| then size else |frame|]
  }

  /** The encoder's bound on a packet of this size. */
  function Bound(size: nat): nat {
    size + size / 254 + 1
  }

  /** Sending a packet: nothing above the limit, otherwise all of it, or a part and an error. */
  lemma SendingExactly(max: nat, packet: Bytes, write: Write)
    ensures SendResult(max, packet, write) ==
            if Bound(|packet|) > max then Err(FrameTooLarge(Bound(|packet|)))
            else if write.Whole? then Ok(()) else Err(SendFailed)
    ensures Emitted(max, packet, write) == if Bound(|packet|) > max then [] else OnWire(packet, write)
  {}

  /** The packet that is next for a receiver, and the message in it. */
  predicate IsNextPacket(suite: Suite, w: World, receiver: Endpoint, input: Input, msg: Bytes) {
    var Endpoint(ctx, n) := receiver;
    && n < |SealedIn(w, ctx)| && n < suite.limit && msg == SealedIn(w, ctx)[n]
    && input == Packet(suite.sealData(ctx, n, msg))
  }

  /** What a call that reads a message makes of an input. */
  predicate ReadAs(suite: Suite, link: Option<Link>, w: World, input: Input, r: Result<Bytes, Error>) {
    if !input.Packet? then r == Err(FrameDecodingFailed)
    else if link == None then r == Err(EncryptionFailed)
    else
      var Endpoint(ctx, n) := link.value.receiver;
      var msgs := SealedIn(w, ctx);
      if n < |msgs| && n < suite.limit && input.data == suite.sealData(ctx, n, msgs[n])
      then r == if suite.decodable(msgs[n]) then Ok(msgs[n]) else Err(PacketDecodingFailed)
      else r == Err(EncryptionFailed)
  }

  /**
   What sending a message through a session comes to: in the result, the session, the
   records and the bytes written.
   */
  ghost predicate Sent(max: nat, suite: Suite, link: Option<Link>, w: World, msg: Bytes, write: Write,
                       r: Result<(), Error>, link': Option<Link>, w': World, out: Bytes, out': Bytes)
  {
    match link
    case None => r == Err(EncryptionFailed) && link' == None && w' == w && out' == out
    case Some(Link(Endpoint(ctx, n), receiver)) =>
      if Bound(|msg| + 16) > max then r == Err(PacketTooLarge(|msg|)) && link' == link && w' == w && out' == out
      else if n >= suite.limit then r == Err(EncryptionFailed) && link' == None && w' == w && out' == out
      else
        && w' == World(w.used, w.honest, w.signed, w.sealed[ctx := SealedIn(w, ctx) + [msg]])
        && out' == out + OnWire(suite.sealData(ctx, n, msg), write)
        && r == (if write.Whole? then Ok(()) else Err(SendFailed))
        && link' == if write.Whole? then Some(Link(Endpoint(ctx, n + 1), receiver)) else None
  }
}
