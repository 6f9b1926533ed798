/** Sealing and opening within a session, and why neither loses a message. */
module Session {
  import opened Bytes
  import opened Crypto
  import opened Errors
  import Limits
  import Packets

  /** A byte buffer that grows as needed. */
  class Scratch {
    var bytes: Bytes

    constructor ()
      ensures bytes == []
    {
      bytes := [];
    }
  }

  /** What sealing a message comes to, in terms of the crypto state and the session's contexts. */
  function SealResult(max: nat, suite: Suite, w: World, l: Link, msg: Bytes): (World, Link, Result<Bytes, Error>) {
    if !Limits.Carries(max, |msg|) then (w, l, Err(PacketTooLarge(|msg|)))
    else match Seal(suite, w, l, msg)
         case None => (w, l, Err(EncryptionFailed))
         case Some((w', l', packet)) => (w', l', Ok(packet))
  }

  /** What opening a packet comes to: an undecodable message has been opened all the same. */
  function OpenResult(suite: Suite, w: World, l: Link, packet: Bytes): (Link, Result<Bytes, Error>) {
    match Open(suite, w, l, packet)
    case None => (l, Err(EncryptionFailed))
    case Some((l', msg)) => (l', if suite.decodable(msg) then Ok(msg) else Err(PacketDecodingFailed))
  }

  /**
   No message is lost to the size limits: sealing accepts exactly the messages whose
   sealed packet the framer sends, and such a packet is the receiver's next input.
   */
  lemma AcceptedIsDelivered(max: nat, suite: Suite, w: World, l: Link, msg: Bytes, rest: Bytes)
    requires Lawful(suite, Limits.SEAL_OVERHEAD)
    ensures Packets.Fits(max, suite.sealData(l.sender.ctx, l.sender.seqno, msg)) <==> Limits.Carries(max, |msg|)
    ensures match SealResult(max, suite, w, l, msg).2
            case Ok(packet) =>
              Packets.NextInput(max, Packets.Framed(packet) + rest) == Some((Packets.Packet(packet), rest))
            case Err(e) => (e.PacketTooLarge? && !Limits.Carries(max, |msg|)) || l.sender.seqno >= suite.limit
  {
    var packet := suite.sealData(l.sender.ctx, l.sender.seqno, msg);
    if Packets.Fits(max, packet) {
      Packets.FramedIsNext(max, packet, rest);
    }
  }

  /** The two ends a side holds of a session's contexts. */
  class Session {
    var sender: Endpoint // Where the next message is sealed
    var receiver: Endpoint // Where the next packet opens

    function Link(): Link
      reads this
    {
      Crypto.Link(sender, receiver)
    }

    constructor (link: Link)
      ensures Link() == link
    {
      sender, receiver := link.sender, link.receiver;
    }

    /**
     Seals a message as the next one of the outbound context. One that is too long
     changes nothing; one that cannot be sealed is left behind in the scratch buffer.
     */
    method Seal(crypto: Primitives, max: nat, maxMessage: nat, msg: Bytes, scratch: Scratch)
      returns (r: Result<Bytes, Error>)
      requires Limits.Limit(max) == Some(maxMessage)
      modifies this, crypto, scratch
      ensures (crypto.world, Link(), r) == SealResult(max, crypto.suite, old(crypto.world), old(Link()), msg)
      ensures r.Err? && r.error.PacketTooLarge? ==> scratch.bytes == old(scratch.bytes)
      ensures !(r.Err? && r.error.PacketTooLarge?) ==> scratch.bytes == msg
    {
      Limits.ClosedForm(max);
      if |msg| > maxMessage {
        return Err(PacketTooLarge(|msg|));
      }
      scratch.bytes := [];
      scratch.bytes := scratch.bytes + msg;
      assert scratch.bytes == msg;
      match Crypto.Seal(crypto.suite, crypto.world, Link(), scratch.bytes) {
        case None => return Err(EncryptionFailed);
        case Some((w, l, packet)) =>
          crypto.world, sender := w, l.sender;
          return Ok(packet);
      }
    }

    /**
     Opens the next packet of the inbound context. It is consumed even if what it holds
     is not a message; any other packet changes nothing.
     */
    method Open(crypto: Primitives, packet: Bytes) returns (r: Result<Bytes, Error>)
      modifies this
      ensures (Link(), r) == OpenResult(crypto.suite, crypto.world, old(Link()), packet)
    {
      match Crypto.Open(crypto.suite, crypto.world, Link(), packet) {
        case None => return Err(EncryptionFailed);
        case Some((l, msg)) =>
          receiver := l.receiver;
          return if crypto.suite.decodable(msg) then Ok(msg) else Err(PacketDecodingFailed);
      }
    }
  }
}
