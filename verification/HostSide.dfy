/** The host as a class: it resets the stream, shakes hands and exchanges messages. */
module HostSide {
  import opened Bytes
  import opened Crypto
  import opened Errors
  import F = Framing
  import HostContract
  import opened HostMachine
  import Limits
  import opened Listening
  import Packets
  import S = Session
  import Splitter
  import opened Transport
  import opened Turns
  import opened Wire

  class HostSide {
    const crypto: Primitives
    const outside: Outside // What goes on elsewhere between reads
    const framing: F.Framing // Where bytes come from and go to
    const encodeBuffer: S.Scratch // Where an outgoing message is laid out
    const maxMessage: nat
    var session: S.Session? // The contexts of the last handshake, if it went through and nothing failed since

    ghost predicate Valid()
      reads this, framing, framing.readerBuffer
    {
      framing.Valid() && Limits.Limit(framing.max) == Some(maxMessage)
    }

    ghost function Cfg(): Config {
      Config(framing.max, crypto.suite)
    }

    ghost function Phase(): Phase
      reads this, session
    {
      if session == null then Down else Up(session.Link())
    }

    /** The session's contexts, if there is a session. */
    ghost function Linked(): Option<Link>
      reads this, session
    {
      if session == null then None else Some(session.Link())
    }

    /** The host as seen from outside, were it in the given phase. */
    ghost function ViewAt(phase: Phase): View
      requires Valid()
      reads this, framing, framing.readerBuffer, framing.reader, framing.writer, crypto
    {
      View(framing.Rest(), framing.writer.sent, State(crypto.world, phase))
    }

    ghost function Now(): View
      requires Valid()
      reads this, framing, framing.readerBuffer, framing.reader, framing.writer, crypto, session
    {
      ViewAt(Phase())
    }

    constructor (crypto: Primitives, outside: Outside, framing: F.Framing, maxMessage: nat)
      requires framing.Valid() && Limits.Limit(framing.max) == Some(maxMessage)
      ensures Valid() && session == null
      ensures this.crypto == crypto && this.outside == outside && this.framing == framing
    {
      this.crypto, this.outside, this.framing, this.maxMessage, session := crypto, outside, framing, maxMessage, null;
      encodeBuffer := new S.Scratch();
    }

    /** The transport failed after the host got to `last`; it may have lost input, and nothing else. */
    ghost predicate Broken(last: View, e: Error)
      requires Valid()
      reads this, framing, framing.readerBuffer, framing.reader, framing.writer, crypto
    {
      exists m: Interlude :: BrokenAfter(last, m, e)
    }

    ghost predicate BrokenAfter(last: View, m: Interlude, e: Error)
      requires Valid()
      reads this, framing, framing.readerBuffer, framing.reader, framing.writer, crypto
    {
      && framing.writer.sent == last.sent && crypto.world == Waited(last, m).state.world
      && Packets.Stopped(framing.max, Waited(last, m).rest, e, framing.Rest())
    }

    /** Signals the reset and sends the hello of a fresh run. */
    method Open() returns (r: Result<HostHello, Error>, ghost keys: HostHello, ghost reset: Write, ghost write: Write)
      requires Valid()
      modifies this`session, crypto, framing.encobsBuffer, framing.writer
      ensures Valid() && session == null && framing.Rest() == old(framing.Rest())
      ensures FreshKeys(old(crypto.world), keys) || !reset.Whole?
      ensures var step := Begin(Cfg(), old(crypto.world), keys, reset, write);
              && step.state == State(crypto.world, if r.Ok? then Waiting(keys, 0) else Down)
              && framing.writer.sent == old(framing.writer.sent) + step.out
              && (r.Ok? <==> step.result.Ok?) && (r.Err? ==> step.result == Err(r.error)) && (r.Ok? ==> r.value == keys)
    {
      session := null;
      keys, reset, write := HostHello(0, 0), framing.writer.Next(), Whole;
      var signaled := framing.SendReset();
      if signaled.Err? {
        return Err(signaled.error), keys, reset, write;
      }
      var signer := crypto.Generate();
      crypto.world := crypto.world.(honest := crypto.world.honest + {signer});
      var cryptoKey := crypto.Generate();
      keys, write := HostHello(signer, cryptoKey), framing.writer.Next();
      ghost var drawn := Draw(old(crypto.world), {signer, cryptoKey});
      assert crypto.world == drawn.(honest := old(crypto.world).honest + {signer});
      ghost var sent := framing.writer.sent;
      var hello := framing.SendPacket(crypto.suite.encodeHello(HostHello(signer, cryptoKey)));
      ghost var out := Packets.Emitted(framing.max, crypto.suite.encodeHello(keys), write);
      Splitter.Regroup(old(framing.writer.sent), [0, 0], out);
      if hello.Err? {
        return Err(hello.error), keys, reset, write;
      }
      return Ok(HostHello(signer, cryptoKey)), keys, reset, write;
    }

    /** Answers the Ark's hello: verifies it, sets up the contexts and sends the acknowledgement. */
    method Acknowledge(keys: HostHello, data: Bytes, verifier: Verifier, ghost input: Packets.Input)
      returns (r: Result<S.Session, Error>, ghost ev: Event)
      requires Valid()
      modifies crypto, framing.encobsBuffer, framing.writer
      ensures Valid() && framing.Rest() == old(framing.Rest()) && (r.Ok? ==> fresh(r.value))
      ensures ev.input == input
      ensures Judge(Cfg(), old(crypto.world), keys, data, verifier).Ok? ==> ev.encap !in old(crypto.world.used)
      ensures var step := Answer(Cfg(), old(crypto.world), keys, data, verifier, ev);
              && step.state == State(crypto.world, if r.Ok? then Up(r.value.Link()) else Down)
              && framing.writer.sent == old(framing.writer.sent) + step.out
              && (r.Ok? <==> step.result.Ok?) && (r.Err? ==> step.result == Err(r.error) && !IsTransport(r.error))
    {
      ev := Plain(input);
      var judged := Judge(Config(framing.max, crypto.suite), crypto.world, keys, data, verifier);
      if judged.Err? {
        assert framing.writer.sent + [] == framing.writer.sent;
        return Err(judged.error), ev;
      }
      var (hello, identity) := judged.value;
      var encap := crypto.Generate();
      ev := Plain(input).(encap := encap, write := framing.writer.Next());
      var ack := Ack(keys, hello.payload, identity, encap);
      crypto.world := Sign(crypto.world, ack);
      var sent := framing.SendPacket(crypto.suite.sealEnvelope(ack));
      if sent.Err? {
        return Err(sent.error), ev;
      }
      var s := new S.Session(Established(keys, hello.payload, encap));
      return Ok(s), ev;
    }

    /**
     Resets the stream and drives the handshake with the Ark, which acts on its own while
     the host reads. Frames queued before the reset are skipped, up to a limit, until one
     addressed to the fresh key comes.
     */
    method Handshake(verifier: Verifier)
      returns (r: Result<(), Error>, ghost keys: HostHello, ghost reset: Write, ghost write: Write,
               ghost turns: seq<Turn>, ghost last: View)
      requires Valid()
      modifies this`session, outside, crypto, framing, framing.reader, framing.readerBuffer,
               framing.decobsBuffer, framing.encobsBuffer, framing.writer
      ensures Valid() && (session == null || fresh(session))
      ensures FreshKeys(old(crypto.world), keys) || !reset.Whole?
      ensures var begun := Begin(Cfg(), old(crypto.world), keys, reset, write);
              var start := View(old(framing.Rest()), old(framing.writer.sent) + begun.out, begun.state);
              if begun.result.Err? then r == begun.result && Now() == start
              else Concluded(verifier, start, r, turns, last)
      ensures r.Ok? ==>
                var w := old(crypto.world);
                var drawn := World(w.used + {keys.signer, keys.crypto}, w.honest + {keys.signer}, w.signed, w.sealed);
                && session != null
                && HostContract.Earned(crypto.suite, drawn, keys, verifier, turns, session.Link())
      ensures Fault !in old(framing.reader.schedule) ==> Fault !in framing.reader.schedule
      ensures r.Err? ==> Excused(r.error, old(framing.reader.schedule), framing.reader)
    {
      turns, last := [], ViewAt(Down);
      var hello;
      hello, keys, reset, write := Open();
      if hello.Err? {
        return Err(hello.error), keys, reset, write, turns, last;
      }
      ghost var begun := crypto.world;
      r, turns, last := Await(hello.value, verifier);
      if r.Ok? {
        HostContract.SessionsAreEarned(Cfg(), begun, keys, verifier, turns);
      }
    }

    /** How a handshake that got its hello out ends. */
    ghost predicate Concluded(verifier: Verifier, start: View, r: Result<(), Error>, turns: seq<Turn>, last: View)
      requires Valid()
      reads this, framing, framing.readerBuffer, framing.reader, framing.writer, crypto, session
    {
      if r.Err? && IsTransport(r.error) then Failed(verifier, start, r.error, turns, last) && session == null
      else Journey(Cfg(), verifier, start, turns, last, r) && last == Now() && (r.Ok? <==> session != null)
    }

    /** Settles the handshake on a packet addressed to the fresh key, one way or the other. */
    method Settle(keys: HostHello, data: Bytes, verifier: Verifier, ghost input: Packets.Input,
                  ghost a: View, ghost turns: seq<Turn>, ghost b: View, ghost m: Interlude)
      returns (r: Result<(), Error>, ghost turns': seq<Turn>)
      requires Valid() && session == null && Journey(Cfg(), verifier, a, turns, b, Ok(()))
      requires b.state.phase.Waiting? && b.state.phase.keys == keys
      requires Waited(b, m) == ViewAt(b.state.phase).(rest := Waited(b, m).rest)
      requires Packets.NextInput(framing.max, Waited(b, m).rest) == Some((input, framing.Rest()))
      requires !input.Garbled? && data == DataOf(input) && Addressed(Cfg(), keys, input)
      modifies this`session, crypto, framing.encobsBuffer, framing.writer
      ensures Valid() && (session == null || fresh(session)) && (r.Ok? <==> session != null)
      ensures Journey(Cfg(), verifier, a, turns', Now(), r) && (r.Err? ==> !IsTransport(r.error))
    {
      var s;
      ghost var ev;
      s, ev := Acknowledge(keys, data, verifier, input);
      if s.Ok? {
        session := s.value;
      }
      r := if s.Ok? then Ok(()) else Err(s.error);
      turns' := JourneyStep(Cfg(), verifier, a, turns, b, Turn(m, ev), Now());
    }

    /** Reads one queued frame. A frame that does not decode ends the handshake. */
    method NextQueued(verifier: Verifier, ghost a: View, ghost turns: seq<Turn>, ghost last: View)
      returns (r: Result<Bytes, Error>, ghost m: Interlude, ghost input: Packets.Input,
               ghost turns': seq<Turn>, ghost last': View)
      requires Valid() && session == null && Journey(Cfg(), verifier, a, turns, last, Ok(()))
      requires last.state.phase.Waiting? && last == ViewAt(last.state.phase)
      modifies outside, crypto, framing, framing.reader, framing.readerBuffer, framing.decobsBuffer
      ensures Valid()
      ensures match r
              case Ok(data) =>
                && !input.Garbled? && data == DataOf(input) && Less(outside.Left(framing), old(outside.Left(framing)))
                && Packets.NextInput(framing.max, Waited(last, m).rest) == Some((input, framing.Rest()))
                && Waited(last, m) == ViewAt(last.state.phase).(rest := Waited(last, m).rest)
              case Err(e) => Failed(verifier, a, e, turns', last')
      ensures r.Ok? ==> turns' == turns && last' == last
      ensures Fault !in old(framing.reader.schedule) ==> Fault !in framing.reader.schedule
      ensures r.Err? ==> Excused(r.error, old(framing.reader.schedule), framing.reader)
    {
      turns', last', input := turns, last, Packets.Reset;
      var next;
      next, m := outside.Listen(crypto, framing);
      if next.Err? {
        if IsTransport(next.error) {
          assert BrokenAfter(last, m, next.error);
        } else {
          turns' := JourneyStep(Cfg(), verifier, a, turns, last, Turn(m, Plain(Packets.Garbled)), ViewAt(Down));
          last' := ViewAt(Down);
        }
        return Err(next.error), m, input, turns', last';
      }
      input := F.Arrived(next, framing.decobsBuffer[..]).value;
      var size := if next.value.None? then 0 else next.value.value;
      return Ok(framing.decobsBuffer[..size]), m, input, turns', last';
    }

    /** The handshake failed without the host ever answering. */
    ghost predicate Failed(verifier: Verifier, a: View, e: Error, turns: seq<Turn>, last: View)
      requires Valid()
      reads this, framing, framing.readerBuffer, framing.reader, framing.writer, crypto
    {
      if IsTransport(e)
      then Journey(Cfg(), verifier, a, turns, last, Ok(())) && last.state.phase.Waiting? && Broken(last, e)
      else Journey(Cfg(), verifier, a, turns, last, Err(e)) && last == ViewAt(Down)
    }

    /** Waits for the Ark's hello among the queued frames. */
    method Await(keys: HostHello, verifier: Verifier)
      returns (r: Result<(), Error>, ghost turns: seq<Turn>, ghost last: View)
      requires Valid() && session == null
      modifies this`session, outside, crypto, framing, framing.reader, framing.readerBuffer,
               framing.decobsBuffer, framing.encobsBuffer, framing.writer
      ensures Valid() && (session == null || fresh(session))
      ensures Concluded(verifier, old(ViewAt(Waiting(keys, 0))), r, turns, last)
      ensures Fault !in old(framing.reader.schedule) ==> Fault !in framing.reader.schedule
      ensures r.Err? ==> Excused(r.error, old(framing.reader.schedule), framing.reader)
    {
      ghost var a := ViewAt(Waiting(keys, 0));
      turns, last := [], a;
      JourneyStart(Cfg(), verifier, a);
      var stale := 0;
      while true
        invariant Valid() && session == null && last == ViewAt(Waiting(keys, stale))
        invariant Journey(Cfg(), verifier, a, turns, last, Ok(()))
        invariant Fault !in old(framing.reader.schedule) ==> Fault !in framing.reader.schedule
        decreases |outside.interludes|, |framing.Rest()|
      {
        var queued;
        ghost var m, input;
        queued, m, input, turns, last := NextQueued(verifier, a, turns, last);
        if queued.Err? {
          return Err(queued.error), turns, last;
        }
        if crypto.suite.recipientOf(queued.value) == Some(keys.crypto) {
          r, turns := Settle(keys, queued.value, verifier, input, a, turns, last, m);
          return r, turns, Now();
        }
        stale := stale + 1;
        ghost var next := ViewAt(if stale > MAX_STALE_FRAMES then Down else Waiting(keys, stale));
        turns := JourneySkip(Cfg(), verifier, a, turns, last, m, input, next);
        last := next;
        if stale > MAX_STALE_FRAMES {
          return Err(HandshakeFailed), turns, last;
        }
      }
    }

    /** Reads the next message; whatever cannot be decoded or decrypted drops the session. */
    method NextMessage() returns (r: Result<Bytes, Error>, ghost m: Interlude, ghost input: Option<Packets.Input>)
      requires Valid()
      modifies this`session, session, outside, crypto, framing, framing.reader, framing.readerBuffer,
               framing.decobsBuffer
      ensures Valid() && (session == null || session == old(session))
      ensures match input
              case None => r.Err? && session == null && BrokenAfter(old(Now()), m, r.error)
              case Some(i) =>
                && Packets.NextInput(framing.max, Waited(old(Now()), m).rest) == Some((i, framing.Rest()))
                && (Now().state, r) == Receive(Cfg(), Waited(old(Now()), m).state, i)
                && framing.writer.sent == old(framing.writer.sent)
      ensures input.Some? ==> ReadAs(crypto.suite, old(Linked()), crypto.world, input.value, r)
      ensures Fault !in old(framing.reader.schedule) ==> Fault !in framing.reader.schedule
      ensures r.Err? ==> Excused(r.error, old(framing.reader.schedule), framing.reader)
    {
      var next;
      next, m := outside.Listen(crypto, framing);
      input := F.Arrived(next, framing.decobsBuffer[..]);
      if next.Err? && IsTransport(next.error) {
        session := null;
        return Err(next.error), m, input;
      }
      r := React(next);
    }

    /** Acts on a frame: one that does not decode drops the session, an empty one is only reported. */
    method React(next: Result<Option<nat>, Error>) returns (r: Result<Bytes, Error>)
      requires Valid() && F.Arrived(next, framing.decobsBuffer[..]).Some?
      requires next.Ok? && next.value.Some? ==> next.value.value <= framing.decobsBuffer.Length
      modifies this`session, session
      ensures Valid() && (session == null || session == old(session))
      ensures var input := F.Arrived(next, framing.decobsBuffer[..]).value;
              && (Now().state, r) == Receive(Cfg(), old(Now().state), input)
              && ReadAs(crypto.suite, old(Linked()), crypto.world, input, r)
    {
      HostContract.ReadsAs(Cfg(), Now().state, F.Arrived(next, framing.decobsBuffer[..]).value);
      if next.Err? {
        session := null;
        return Err(next.error);
      }
      if next.value.None? {
        return Err(FrameDecodingFailed);
      }
      r := Serve(framing.decobsBuffer[..next.value.value]);
    }

    /** Opens a packet within the session, if there is one. */
    method Serve(data: Bytes) returns (r: Result<Bytes, Error>)
      requires Valid()
      modifies this`session, session
      ensures Valid() && (session == null || session == old(session))
      ensures (Now().state, r) == Receive(Cfg(), old(Now().state), Packets.Packet(data))
    {
      if session == null {
        return Err(EncryptionFailed);
      }
      Served(Cfg(), Now().state, data);
      r := session.Open(crypto, data);
      if r == Err(EncryptionFailed) {
        session := null;
      }
    }

    /** Seals and sends a message; whatever fails from sealing on drops the session. */
    method SendMessage(req: Bytes) returns (r: Result<(), Error>)
      requires Valid()
      modifies this`session, session, crypto, encodeBuffer, framing.encobsBuffer, framing.writer
      ensures Valid() && framing.Rest() == old(framing.Rest())
      ensures session == null || session == old(session)
      ensures var step := Send(Cfg(), old(Now().state), req, old(framing.writer.Next()));
              && Now().state == step.state && r == step.result
              && framing.writer.sent == old(framing.writer.sent) + step.out
      ensures Lawful(crypto.suite, 16) ==>
                Sent(framing.max, crypto.suite, old(Linked()), old(crypto.world), req, old(framing.writer.Next()), r,
                     Linked(), crypto.world, old(framing.writer.sent), framing.writer.sent)
    {
      if Lawful(crypto.suite, 16) {
        HostContract.SendsExactly(Cfg(), Now().state, req, framing.writer.Next());
      }
      if session == null {
        return Err(EncryptionFailed);
      }
      var sealed := session.Seal(crypto, framing.max, maxMessage, req, encodeBuffer);
      if sealed.Err? {
        if sealed.error.EncryptionFailed? {
          session := null;
        }
        return Err(sealed.error);
      }
      r := framing.SendPacket(sealed.value);
      if r.Err? {
        session := null;
      }
    }
  }
}
