/** Reading while the rest of the world goes on. */
module Listening {
  import opened Bytes
  import opened Crypto
  import opened Errors
  import F = Framing
  import Packets
  import opened Transport
  import opened Turns

  /** `now` is closer than `before` to running out of interludes and bytes. */
  predicate Less(now: (nat, nat), before: (nat, nat)) {
    now.0 < before.0 || (now.0 == before.0 && now.1 < before.1)
  }

  /** A failed read is reported only if the transport fails, and an end only at the end. */
  ghost predicate Excused(e: Error, schedule: seq<Chunk>, reader: Reader)
    reads reader
  {
    (e == RecvFailed ==> Fault in schedule) && (e == Terminated ==> reader.stream == [])
  }

  /** The outside world, as it is between the reads of one side: one interlude before each of them. */
  class Outside {
    var interludes: seq<Interlude>

    constructor (interludes: seq<Interlude>)
      ensures this.interludes == interludes
    {
      this.interludes := interludes;
    }

    method Pass(crypto: Primitives, reader: Reader) returns (ghost m: Interlude)
      modifies this, crypto, reader
      ensures m == if old(interludes) == [] then Nothing else old(interludes)[0]
      ensures interludes == if old(interludes) == [] then [] else old(interludes)[1..]
      ensures crypto.world == Grown(old(crypto.world), m.others)
      ensures reader.stream == old(reader.stream) + m.arrived && reader.schedule == old(reader.schedule)
    {
      var now := Nothing;
      if interludes != [] {
        now, interludes := interludes[0], interludes[1..];
      }
      crypto.world := Grown(crypto.world, now.others);
      reader.stream := reader.stream + now.arrived;
      m := now;
    }

    /** How much can still happen: interludes to come, and bytes to consume. */
    ghost function Left(framing: F.Framing): (nat, nat)
      requires framing.Valid()
      reads this, framing, framing.readerBuffer, framing.reader
    {
      (|interludes|, |framing.Rest()|)
    }

    /** Reads the next packet, whenever it comes. */
    method Listen(crypto: Primitives, framing: F.Framing)
      returns (next: Result<Option<nat>, Error>, ghost m: Interlude)
      requires framing.Valid()
      modifies this, crypto, framing, framing.reader, framing.readerBuffer, framing.decobsBuffer
      ensures framing.Valid() && crypto.world == Grown(old(crypto.world), m.others)
      ensures m == if old(interludes) == [] then Nothing else old(interludes)[0]
      ensures next.Ok? && next.value.Some? ==> next.value.value <= framing.decobsBuffer.Length
      ensures match F.Arrived(next, framing.decobsBuffer[..])
              case Some(input) =>
                && Packets.NextInput(framing.max, old(framing.Rest()) + m.arrived) == Some((input, framing.Rest()))
                && Less(Left(framing), old(Left(framing))) && (next.Err? ==> !IsTransport(next.error))
              case None =>
                && next.Err? && IsTransport(next.error)
                && Packets.Stopped(framing.max, old(framing.Rest()) + m.arrived, next.error, framing.Rest())
                && Excused(next.error, old(framing.reader.schedule), framing.reader)
      ensures Fault !in old(framing.reader.schedule) ==> Fault !in framing.reader.schedule
    {
      ghost var rest := framing.Rest();
      m := Pass(crypto, framing.reader);
      assert framing.Rest() == rest + m.arrived;
      assert m == Nothing ==> rest + m.arrived == rest;
      next := Read(framing);
    }

    /** The framer's next packet, and the blame if there is none. */
    static method Read(framing: F.Framing) returns (next: Result<Option<nat>, Error>)
      requires framing.Valid()
      modifies framing, framing.reader, framing.readerBuffer, framing.decobsBuffer
      ensures framing.Valid()
      ensures next.Ok? && next.value.Some? ==> next.value.value <= framing.decobsBuffer.Length
      ensures match F.Arrived(next, framing.decobsBuffer[..])
              case Some(input) =>
                && Packets.NextInput(framing.max, old(framing.Rest())) == Some((input, framing.Rest()))
                && |framing.Rest()| < |old(framing.Rest())| && (next.Err? ==> !IsTransport(next.error))
              case None =>
                && next.Err? && IsTransport(next.error)
                && Packets.Stopped(framing.max, old(framing.Rest()), next.error, framing.Rest())
                && Excused(next.error, old(framing.reader.schedule), framing.reader)
      ensures Fault !in old(framing.reader.schedule) ==> Fault !in framing.reader.schedule
    {
      Packets.NextInputShrinks(framing.max, framing.Rest());
      F.ReadsLeave(framing.max, framing.Pending(), false, framing.reader.stream, framing.reader.schedule);
      next := framing.NextPacket();
    }
  }
}
