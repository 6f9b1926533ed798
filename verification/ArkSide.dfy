/** The Ark as a class, with loops that wait for a reset, shake hands and take messages. */
module ArkSide {
  import ArkContract
  import opened ArkMachine
  import opened Bytes
  import opened Crypto
  import opened Errors
  import F = Framing
  import Limits
  import opened Listening
  import Packets
  import S = Session
  import opened Transport
  import opened Turns
  import opened Wire

  /** Hands out attestations: a new one as long as there are any, then the last one again. */
  class Attester {
    var attestations: seq<Bytes>

    constructor (attestations: seq<Bytes>)
      requires attestations != []
      ensures this.attestations == attestations
    {
      this.attestations := attestations;
    }

    method Attest() returns (attest: Bytes)
      modifies this
      ensures old(attestations) != [] ==> attest == old(attestations)[0]
      ensures attestations == if |old(attestations)| > 1 then old(attestations)[1..] else old(attestations)
    {
      attest := if attestations == [] then [] else attestations[0];
      attestations := if |attestations| > 1 then attestations[1..] else attestations;
    }
  }

  class ArkSide {
    const crypto: Primitives
    const outside: Outside // What goes on elsewhere between reads
    const framing: F.Framing // Where bytes come from and go to
    const encodeBuffer: S.Scratch // Where an outgoing message is laid out
    const maxMessage: nat
    const signer: Key // Key the Ark is known by
    const attester: Attester // Asked in every handshake
    var session: S.Session? // The contexts of the last handshake that went through, unless dropped since

    ghost predicate Valid()
      reads this, framing, framing.readerBuffer
    {
      framing.Valid() && Limits.Limit(framing.max) == Some(maxMessage)
    }

    ghost function Cfg(): Config {
      Config(framing.max, crypto.suite, signer)
    }

    ghost function Phase(): Phase
      reads this, session
    {
      if session == null then Idle else Live(session.Link())
    }

    /** The session's contexts, if there is a session. */
    ghost function Linked(): Option<Link>
      reads this, session
    {
      if session == null then None else Some(session.Link())
    }

    /** The Ark as seen from outside, were it in the given phase. */
    ghost function ViewAt(phase: Phase): View
      requires Valid()
      reads this, framing, framing.readerBuffer, framing.reader, framing.writer, crypto
    {
      View(framing.Rest(), framing.writer.sent, State(crypto.world, phase))
    }

    ghost function Now(): View
      requires Valid()
      reads this, framing, framing.readerBuffer, framing.reader, framing.writer, crypto, session
    {
      ViewAt(Phase())
    }

    constructor (crypto: Primitives, outside: Outside, framing: F.Framing, signer: Key, attester: Attester,
                 maxMessage: nat)
      requires framing.Valid() && Limits.Limit(framing.max) == Some(maxMessage)
      ensures Valid() && session == null
      ensures this.crypto == crypto && this.outside == outside && this.framing == framing && this.signer == signer
    {
      this.crypto, this.outside, this.framing, this.signer, this.attester :=
        crypto, outside, framing, signer, attester;
      this.maxMessage, session := maxMessage, null;
      encodeBuffer := new S.Scratch();
    }

    /** Seals and sends a message; whatever fails from sealing on drops the session. */
    method SendMessage(res: Bytes) returns (r: Result<(), Error>)
      requires Valid()
      modifies this`session, session, crypto, encodeBuffer, framing.encobsBuffer, framing.writer
      ensures Valid() && framing.Rest() == old(framing.Rest())
      ensures session == null || session == old(session)
      ensures var (s, out, result) := Send(Cfg(), old(Now().state), res, old(framing.writer.Next()));
              Now().state == s && framing.writer.sent == old(framing.writer.sent) + out && r == result
      ensures Lawful(crypto.suite, 16) ==>
                Sent(framing.max, crypto.suite, old(Linked()), old(crypto.world), res, old(framing.writer.Next()), r,
                     Linked(), crypto.world, old(framing.writer.sent), framing.writer.sent)
    {
      if Lawful(crypto.suite, 16) {
        ArkContract.SendsExactly(Cfg(), Now().state, res, framing.writer.Next());
      }
      if session == null {
        return Err(EncryptionFailed);
      }
      var sealed := session.Seal(crypto, framing.max, maxMessage, res, encodeBuffer);
      if sealed.Err? {
        if sealed.error.EncryptionFailed? {
          session := null;
        }
        return Err(sealed.error);
      }
      r := framing.SendPacket(sealed.value);
      if r.Err? {
        session := null;
      }
    }

    /** How much can still happen to this Ark. */
    ghost function Left(): (nat, nat)
      requires Valid()
      reads this, outside, framing, framing.readerBuffer, framing.reader
    {
      outside.Left(framing)
    }

    /** The transport failed after the Ark got to `last`; it may have lost input, and nothing else. */
    ghost predicate Broken(last: View, e: Error)
      requires Valid()
      reads this, framing, framing.readerBuffer, framing.reader, framing.writer, crypto
    {
      exists m: Interlude :: BrokenAfter(last, m, e)
    }

    ghost predicate BrokenAfter(last: View, m: Interlude, e: Error)
      requires Valid()
      reads this, framing, framing.readerBuffer, framing.reader, framing.writer, crypto
    {
      && framing.writer.sent == last.sent && crypto.world == Waited(last, m).state.world
      && Packets.Stopped(framing.max, Waited(last, m).rest, e, framing.Rest())
    }

    /** Reads packets until one is not a reset, that is until the host's hello. */
    method Greet(ghost a: View, ghost turns: seq<Turn>)
      returns (r: Result<(HostHello, Key, Endpoint), Error>, ghost turns': seq<Turn>, ghost last: View)
      requires Valid() && Journey(Cfg(), a, turns, ViewAt(AwaitHello), [])
      modifies outside, attester, crypto, framing, framing.reader, framing.readerBuffer,
               framing.decobsBuffer, framing.encobsBuffer, framing.writer
      ensures Valid() && Journey(Cfg(), a, turns', last, [])
      ensures match r
              case Ok((hello, eph, sender)) => last == ViewAt(AwaitAck(hello, eph, sender)) && Less(Left(), old(Left()))
              case Err(e) => HandshakeEnded(last, e) && (!IsTransport(e) ==> Less(Left(), old(Left())))
      ensures Fault !in old(framing.reader.schedule) ==> Fault !in framing.reader.schedule
      ensures r.Err? ==> Excused(r.error, old(framing.reader.schedule), framing.reader)
    {
      turns' := turns;
      while true
        invariant Valid() && Journey(Cfg(), a, turns', ViewAt(AwaitHello), [])
        invariant Left() == old(Left()) || Less(Left(), old(Left()))
        invariant Fault !in old(framing.reader.schedule) ==> Fault !in framing.reader.schedule
        decreases |outside.interludes|, |framing.Rest()|
      {
        var once;
        once, turns', last := GreetOnce(a, turns');
        if once.Some? {
          return once.value, turns', last;
        }
      }
    }

    /** Reads one packet before the hello; None means it was a reset. */
    method GreetOnce(ghost a: View, ghost turns: seq<Turn>)
      returns (r: Option<Result<(HostHello, Key, Endpoint), Error>>, ghost turns': seq<Turn>, ghost last: View)
      requires Valid() && Journey(Cfg(), a, turns, ViewAt(AwaitHello), [])
      modifies outside, attester, crypto, framing, framing.reader, framing.readerBuffer,
               framing.decobsBuffer, framing.encobsBuffer, framing.writer
      ensures Valid() && Journey(Cfg(), a, turns', last, [])
      ensures match r
              case None => last == ViewAt(AwaitHello) && Less(Left(), old(Left()))
              case Some(Ok((hello, eph, sender))) =>
                last == ViewAt(AwaitAck(hello, eph, sender)) && Less(Left(), old(Left()))
              case Some(Err(e)) => HandshakeEnded(last, e) && (!IsTransport(e) ==> Less(Left(), old(Left())))
      ensures Fault !in old(framing.reader.schedule) ==> Fault !in framing.reader.schedule
      ensures r.Some? && r.value.Err? ==> Excused(r.value.error, old(framing.reader.schedule), framing.reader)
    {
      last := ViewAt(AwaitHello);
      var next;
      ghost var m;
      next, m := outside.Listen(crypto, framing);
      if next.Err? {
        turns', last := NothingRead(a, turns, last, m, next.error);
        return Some(Err(next.error)), turns', last;
      }
      if next.value.Some? {
        var answered;
        answered, turns', last := Reply(framing.decobsBuffer[..next.value.value], a, turns, last, m);
        return Some(answered), turns', last;
      }
      turns' := JourneyTake(Cfg(), a, turns, last, m, Packets.Reset, ViewAt(AwaitHello));
      return None, turns', ViewAt(AwaitHello);
    }

    /** A handshake ends when the transport fails and when a frame does not decode. */
    lemma NothingRead(a: View, turns: seq<Turn>, b: View, m: Interlude, e: Error)
      returns (turns': seq<Turn>, last: View)
      requires Valid() && Journey(Cfg(), a, turns, b, []) && !b.state.phase.Live?
      requires framing.writer.sent == b.sent && crypto.world == Waited(b, m).state.world
      requires if IsTransport(e) then Packets.Stopped(framing.max, Waited(b, m).rest, e, framing.Rest())
               else Packets.NextInput(framing.max, Waited(b, m).rest) == Some((Packets.Garbled, framing.Rest()))
      ensures Journey(Cfg(), a, turns', last, []) && HandshakeEnded(last, e)
    {
      turns', last := turns, b;
      if IsTransport(e) {
        assert BrokenAfter(last, m, e);
      } else {
        last := ViewAt(Idle);
        turns' := JourneyTake(Cfg(), a, turns, b, m, Packets.Garbled, last);
      }
    }

    /** Answers a packet that ought to be the host's hello. */
    method Reply(data: Bytes, ghost a: View, ghost turns: seq<Turn>, ghost b: View, ghost m: Interlude)
      returns (r: Result<(HostHello, Key, Endpoint), Error>, ghost turns': seq<Turn>, ghost last: View)
      requires Valid() && Journey(Cfg(), a, turns, b, [])
      requires Waited(b, m) == ViewAt(AwaitHello).(rest := Waited(b, m).rest)
      requires Packets.NextInput(framing.max, Waited(b, m).rest) == Some((Packets.Packet(data), framing.Rest()))
      modifies attester, crypto, framing.encobsBuffer, framing.writer
      ensures Valid() && framing.Rest() == old(framing.Rest()) && Journey(Cfg(), a, turns', last, [])
      ensures match r
              case Ok((hello, eph, sender)) => last == ViewAt(AwaitAck(hello, eph, sender))
              case Err(e) => !IsTransport(e) && last == ViewAt(Idle)
    {
      var decoded := crypto.suite.decodeHello(data);
      if decoded.None? {
        turns' := JourneyTake(Cfg(), a, turns, b, m, Packets.Packet(data), ViewAt(Idle));
        return Err(HandshakeFailed), turns', ViewAt(Idle);
      }
      ghost var ev, phase;
      r, ev, phase := Answer(decoded.value, Packets.Packet(data));
      JourneyQuiet(Cfg(), a, turns, b, [], Turn(m, ev), ViewAt(phase));
      turns', last := turns + [Turn(m, ev)], ViewAt(phase);
    }

    /** Draws a key and an encapsulation and sends the hello that names them. */
    method Answer(hello: HostHello, ghost input: Packets.Input)
      returns (r: Result<(HostHello, Key, Endpoint), Error>, ghost ev: Event, ghost phase: Phase)
      requires Valid()
      modifies attester, crypto, framing.encobsBuffer, framing.writer
      ensures Valid() && framing.Rest() == old(framing.Rest())
      ensures ev.input == input && FreshReply(Cfg(), old(crypto.world), hello, ev)
      ensures crypto.suite.keyOk(hello.crypto) && old(attester.attestations) != [] ==>
                ev.attest == old(attester.attestations)[0]
      ensures var (s, effect) := ArkMachine.Reply(Cfg(), old(crypto.world), hello, ev);
              s == State(crypto.world, phase) && framing.writer.sent == old(framing.writer.sent) + effect.out
      ensures match r
              case Ok((h, eph, sender)) => phase == AwaitAck(h, eph, sender)
              case Err(e) => phase == Idle && !IsTransport(e)
    {
      phase := Idle;
      var eph := crypto.Generate();
      ev := Event(input, [], eph, 0, Whole);
      if !crypto.suite.keyOk(hello.crypto) {
        assert framing.writer.sent + [] == framing.writer.sent;
        return Err(HandshakeFailed), ev, phase;
      }
      var encap := crypto.Generate();
      var attestation := attester.Attest();
      ev := Event(input, attestation, eph, encap, framing.writer.Next());
      var sender := Endpoint(Context(hello.crypto, encap, ArkToHost), 0);
      var payload := ArkHello(attestation, eph, encap);
      var envelope := Envelope(payload, HelloAuth(hello.signer, hello.crypto), signer, hello.crypto);
      crypto.world := Sign(crypto.world, envelope);
      var sent := framing.SendPacket(crypto.suite.sealEnvelope(envelope));
      if sent.Err? {
        return Err(sent.error), ev, phase;
      }
      phase := AwaitAck(hello, eph, sender);
      return Ok((hello, eph, sender)), ev, phase;
    }

    /** Reads the host's acknowledgement; null means the host is starting over. */
    method Acknowledged(hello: HostHello, eph: Key, sender: Endpoint, ghost a: View, ghost turns: seq<Turn>)
      returns (r: Result<S.Session?, Error>, ghost turns': seq<Turn>, ghost last: View)
      requires Valid() && Journey(Cfg(), a, turns, ViewAt(AwaitAck(hello, eph, sender)), [])
      modifies outside, crypto, framing, framing.reader, framing.readerBuffer, framing.decobsBuffer
      ensures Valid() && Journey(Cfg(), a, turns', last, [])
      ensures match r
              case Ok(s) =>
                && last == ViewAt(if s == null then AwaitHello else Live(s.Link())) && (s != null ==> fresh(s))
                && Less(Left(), old(Left()))
              case Err(e) => HandshakeEnded(last, e) && (!IsTransport(e) ==> Less(Left(), old(Left())))
      ensures Fault !in old(framing.reader.schedule) ==> Fault !in framing.reader.schedule
      ensures r.Err? ==> Excused(r.error, old(framing.reader.schedule), framing.reader)
    {
      turns', last := turns, ViewAt(AwaitAck(hello, eph, sender));
      var next;
      ghost var m;
      next, m := outside.Listen(crypto, framing);
      if next.Err? {
        turns', last := NothingRead(a, turns', last, m, next.error);
        return Err(next.error), turns', last;
      }
      if next.value.None? {
        turns' := JourneyTake(Cfg(), a, turns', last, m, Packets.Reset, ViewAt(AwaitHello));
        return Ok(null), turns', ViewAt(AwaitHello);
      }
      r, turns', last := Conclude(framing.decobsBuffer[..next.value.value], hello, eph, sender, a, turns', last, m);
    }

    /** Judges a packet that ought to be the host's acknowledgement. */
    method Conclude(data: Bytes, hello: HostHello, eph: Key, sender: Endpoint, ghost a: View, ghost turns: seq<Turn>,
                    ghost b: View, ghost m: Interlude)
      returns (r: Result<S.Session?, Error>, ghost turns': seq<Turn>, ghost last: View)
      requires Valid() && Journey(Cfg(), a, turns, b, [])
      requires Waited(b, m) == ViewAt(AwaitAck(hello, eph, sender)).(rest := Waited(b, m).rest)
      requires Packets.NextInput(framing.max, Waited(b, m).rest) == Some((Packets.Packet(data), framing.Rest()))
      ensures Valid() && Journey(Cfg(), a, turns', last, [])
      ensures match r
              case Ok(s) => s != null && fresh(s) && last == ViewAt(Live(s.Link()))
              case Err(e) => !IsTransport(e) && last == ViewAt(Idle)
    {
      var link := Complete(Config(framing.max, crypto.suite, signer), crypto.world, hello, eph, sender, data);
      if link.None? {
        turns' := JourneyTake(Cfg(), a, turns, b, m, Packets.Packet(data), ViewAt(Idle));
        return Err(HandshakeFailed), turns', ViewAt(Idle);
      }
      turns' := JourneyTake(Cfg(), a, turns, b, m, Packets.Packet(data), ViewAt(Live(link.value)));
      last := ViewAt(Live(link.value));
      var s := new S.Session(link.value);
      return Ok(s), turns', last;
    }

    /** Shakes hands, from just after a reset, and over again whenever one more comes. */
    method Handshake(ghost a: View, ghost turns: seq<Turn>)
      returns (r: Result<S.Session, Error>, ghost turns': seq<Turn>, ghost last: View)
      requires Valid() && Journey(Cfg(), a, turns, ViewAt(AwaitHello), [])
      modifies outside, attester, crypto, framing, framing.reader, framing.readerBuffer,
               framing.decobsBuffer, framing.encobsBuffer, framing.writer
      ensures Valid() && Journey(Cfg(), a, turns', last, [])
      ensures match r
              case Ok(s) => fresh(s) && last == ViewAt(Live(s.Link())) && Less(Left(), old(Left()))
              case Err(e) => HandshakeEnded(last, e) && (!IsTransport(e) ==> Less(Left(), old(Left())))
      ensures Fault !in old(framing.reader.schedule) ==> Fault !in framing.reader.schedule
      ensures r.Err? ==> Excused(r.error, old(framing.reader.schedule), framing.reader)
    {
      turns' := turns;
      while true
        invariant Valid() && Journey(Cfg(), a, turns', ViewAt(AwaitHello), [])
        invariant Left() == old(Left()) || Less(Left(), old(Left()))
        invariant Fault !in old(framing.reader.schedule) ==> Fault !in framing.reader.schedule
        decreases |outside.interludes|, |framing.Rest()|
      {
        var greeted;
        greeted, turns', last := Greet(a, turns');
        if greeted.Err? {
          return Err(greeted.error), turns', last;
        }
        var (hello, eph, sender) := greeted.value;
        var acked;
        acked, turns', last := Acknowledged(hello, eph, sender, a, turns');
        if acked.Err? {
          return Err(acked.error), turns', last;
        }
        if acked.value != null {
          return Ok(acked.value), turns', last;
        }
      }
    }

    /** How a handshake ends without a session. */
    ghost predicate HandshakeEnded(last: View, e: Error)
      requires Valid()
      reads this, framing, framing.readerBuffer, framing.reader, framing.writer, crypto
    {
      if IsTransport(e) then Broken(last, e) && !last.state.phase.Live? else last == ViewAt(Idle)
    }

    /** Drops the session over a reset and runs the handshake; only transport errors are passed on. */
    method Restart(ghost a: View, ghost turns: seq<Turn>, ghost b: View, ghost m: Interlude)
      returns (failed: Option<Error>, ghost turns': seq<Turn>, ghost last: View)
      requires Valid() && Journey(Cfg(), a, turns, b, []) && Waited(b, m) == Now().(rest := Waited(b, m).rest)
      requires Packets.NextInput(framing.max, Waited(b, m).rest) == Some((Packets.Reset, framing.Rest()))
      modifies this`session, outside, attester, crypto, framing, framing.reader, framing.readerBuffer,
               framing.decobsBuffer, framing.encobsBuffer, framing.writer
      ensures Valid() && (session == null || fresh(session)) && Journey(Cfg(), a, turns', last, [])
      ensures match failed
              case None => last == Now() && Less(Left(), old(Left()))
              case Some(e) => IsTransport(e) && session == null && Broken(last, e) && !last.state.phase.Live?
      ensures Fault !in old(framing.reader.schedule) ==> Fault !in framing.reader.schedule
      ensures failed.Some? ==> Excused(failed.value, old(framing.reader.schedule), framing.reader)
    {
      session := null;
      turns' := JourneyTake(Cfg(), a, turns, b, m, Packets.Reset, ViewAt(AwaitHello));
      var done;
      done, turns', last := Handshake(a, turns');
      if done.Ok? {
        session := done.value;
      } else if IsTransport(done.error) {
        return Some(done.error), turns', last;
      }
      return None, turns', last;
    }

    /** Opens a packet within the session; None means it was junk or broke the session. */
    method Serve(data: Bytes, ghost a: View, ghost turns: seq<Turn>, ghost b: View, ghost m: Interlude)
      returns (req: Option<Result<Bytes, Error>>, ghost turns': seq<Turn>, ghost messages: seq<Bytes>)
      requires Valid() && Journey(Cfg(), a, turns, b, []) && Waited(b, m) == Now().(rest := Waited(b, m).rest)
      requires Packets.NextInput(framing.max, Waited(b, m).rest) == Some((Packets.Packet(data), framing.Rest()))
      modifies this`session, session
      ensures Valid() && (session == null || session == old(session))
      ensures Journey(Cfg(), a, turns', Now(), messages)
      ensures match req
              case None => messages == []
              case Some(r) => |messages| == 1 && r == Report(messages[0])
      ensures turns' == turns + [Turn(m, Plain(Packets.Packet(data)))]
    {
      messages := [];
      if session == null {
        turns' := JourneyTake(Cfg(), a, turns, b, m, Packets.Packet(data), ViewAt(Idle));
        return None, turns', messages;
      }
      req, turns', messages := ServeLive(data, a, turns, b, m);
    }

    /** The same with a session. */
    method ServeLive(data: Bytes, ghost a: View, ghost turns: seq<Turn>, ghost b: View, ghost m: Interlude)
      returns (req: Option<Result<Bytes, Error>>, ghost turns': seq<Turn>, ghost messages: seq<Bytes>)
      requires Valid() && Journey(Cfg(), a, turns, b, []) && Waited(b, m) == Now().(rest := Waited(b, m).rest)
      requires Packets.NextInput(framing.max, Waited(b, m).rest) == Some((Packets.Packet(data), framing.Rest()))
      requires session != null
      modifies this`session, session
      ensures Valid() && (session == null || session == old(session))
      ensures Journey(Cfg(), a, turns', Now(), messages)
      ensures match req
              case None => messages == []
              case Some(r) => |messages| == 1 && r == Report(messages[0])
      ensures turns' == turns + [Turn(m, Plain(Packets.Packet(data)))]
    {
      messages := [];
      ghost var before := Waited(b, m).state;
      var r := session.Open(crypto, data);
      Served(Cfg(), before, data);
      if r.Err? && r.error.EncryptionFailed? {
        session := null;
        turns' := JourneyTake(Cfg(), a, turns, b, m, Packets.Packet(data), ViewAt(Idle));
        return None, turns', messages;
      }
      ghost var turn := Turn(m, Plain(Packets.Packet(data)));
      messages := [Receive(Cfg(), before, turn.ev).1.message.value];
      assert b.sent + [] == b.sent && [] + messages == messages;
      JourneyStep(Cfg(), a, turns, b, [], turn, Now());
      return Some(r), turns + [turn], messages;
    }

    /** What the caller is told of an opened message. */
    function Report(msg: Bytes): Result<Bytes, Error> {
      if crypto.suite.decodable(msg) then Ok(msg) else Err(PacketDecodingFailed)
    }

    /** The last input taken, and no other, opened a message. */
    ghost predicate Delivered(a: View, turns: seq<Turn>, last: View, messages: seq<Bytes>)
      requires Valid()
      reads this, framing, framing.readerBuffer, framing.reader, framing.writer, crypto, session
    {
      && last == Now() && |messages| == 1 && turns != []
      && Run(Cfg(), Trace(a.state, a.sent, []), turns[..|turns| - 1]).messages == []
    }

    /** How a call to `NextMessage` that started at `a` ends. */
    ghost predicate Returned(a: View, r: Result<Bytes, Error>, turns: seq<Turn>, last: View, messages: seq<Bytes>)
      requires Valid()
      reads this, framing, framing.readerBuffer, framing.reader, framing.writer, crypto, session
    {
      && Journey(Cfg(), a, turns, last, messages)
      && if r.Err? && IsTransport(r.error)
         then messages == [] && Broken(last, r.error) && Phase() == Interrupt(last.state.phase)
         else
           && Delivered(a, turns, last, messages)
           && r == if crypto.suite.decodable(messages[0]) then Ok(messages[0]) else Err(PacketDecodingFailed)
    }

    /** Acts on what the framer handed up; None means there is nothing to return yet. */
    method Handle(next: Result<Option<nat>, Error>, ghost a: View, ghost turns: seq<Turn>, ghost b: View,
                  ghost m: Interlude)
      returns (r: Option<Result<Bytes, Error>>, ghost turns': seq<Turn>, ghost last: View, ghost messages: seq<Bytes>)
      requires Valid() && Journey(Cfg(), a, turns, b, []) && Waited(b, m) == Now().(rest := Waited(b, m).rest)
      requires next.Ok? && next.value.Some? ==> next.value.value <= framing.decobsBuffer.Length
      requires var input := F.Arrived(next, framing.decobsBuffer[..]);
               input.Some? && Packets.NextInput(framing.max, Waited(b, m).rest) == Some((input.value, framing.Rest()))
      modifies this`session, session, outside, attester, crypto, framing, framing.reader, framing.readerBuffer,
               framing.decobsBuffer, framing.encobsBuffer, framing.writer
      ensures Valid() && (session == null || session == old(session) || fresh(session))
      ensures match r
              case None =>
                && last == Now() && Journey(Cfg(), a, turns', last, [])
                && (Left() == old(Left()) || Less(Left(), old(Left())))
              case Some(result) => Returned(a, result, turns', last, messages)
      ensures Fault !in old(framing.reader.schedule) ==> Fault !in framing.reader.schedule
      ensures r.Some? && r.value.Err? ==> Excused(r.value.error, old(framing.reader.schedule), framing.reader)
    {
      messages := [];
      if next.Err? {
        session := null;
        turns' := JourneyTake(Cfg(), a, turns, b, m, Packets.Garbled, ViewAt(Idle));
        return None, turns', Now(), messages;
      }
      if next.value.None? {
        var failed;
        failed, turns', last := Restart(a, turns, b, m);
        return if failed.Some? then Some(Err(failed.value)) else None, turns', last, messages;
      }
      r, turns', messages := Serve(framing.decobsBuffer[..next.value.value], a, turns, b, m);
      last := Now();
    }

    /**
     Serves the next message of the host. Resets, failed handshakes and packets that do
     not open are taken care of here; the caller only hears of messages, well formed or
     not, and of a transport that fails.
     */
    method NextMessage()
      returns (r: Result<Bytes, Error>, ghost turns: seq<Turn>, ghost last: View, ghost messages: seq<Bytes>)
      requires Valid()
      modifies this`session, session, outside, attester, crypto, framing, framing.reader, framing.readerBuffer,
               framing.decobsBuffer, framing.encobsBuffer, framing.writer
      ensures Valid() && (session == null || session == old(session) || fresh(session))
      ensures Returned(old(Now()), r, turns, last, messages)
      ensures Fault !in old(framing.reader.schedule) ==> Fault !in framing.reader.schedule
      ensures r.Err? ==> Excused(r.error, old(framing.reader.schedule), framing.reader)
    {
      ghost var a := Now();
      turns, last, messages := [], a, [];
      JourneyStart(Cfg(), a);
      while true
        invariant Valid() && (session == null || session == old(session) || fresh(session))
        invariant Journey(Cfg(), a, turns, last, []) && last == Now()
        invariant Fault !in old(framing.reader.schedule) ==> Fault !in framing.reader.schedule
        decreases |outside.interludes|, |framing.Rest()|
      {
        var next;
        ghost var m;
        next, m := outside.Listen(crypto, framing);
        if next.Err? && IsTransport(next.error) {
          assert BrokenAfter(last, m, next.error);
          return Err(next.error), turns, last, [];
        }
        var done;
        done, turns, last, messages := Handle(next, a, turns, last, m);
        if done.Some? {
          return done.value, turns, last, messages;
        }
      }
    }
  }
}
