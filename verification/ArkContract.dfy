/**
 What an Ark promises, said of packets, records and bytes alone: what each input makes of
 it in each phase, and what becomes of the session when it sends.
 */
module ArkContract {
  import opened Bytes
  import opened Crypto
  import opened Errors
  import opened Packets
  import opened Transport
  import opened Turns
  import opened Wire
  import A = ArkMachine

  /** A reset starts a handshake in any phase, a garbled frame ends everything, and without either nothing counts. */
  lemma ResetsExactly(cfg: A.Config, s: A.State, ev: Event)
    ensures ev.input == Reset ==> A.Receive(cfg, s, ev) == (A.State(s.world, A.AwaitHello), A.Effect([], None))
    ensures ev.input == Garbled ==> A.Receive(cfg, s, ev) == (A.State(s.world, A.Idle), A.Effect([], None))
    ensures ev.input.Packet? && s.phase.Idle? ==> A.Receive(cfg, s, ev) == (s, A.Effect([], None))
  {}

  /** The hello of an Ark known by `signer`, in answer to a host's. */
  function HelloFor(signer: Key, hello: HostHello, ev: Event): Envelope {
    Envelope(ArkHello(ev.attest, ev.eph, ev.encap), HelloAuth(hello.signer, hello.crypto), signer, hello.crypto)
  }

  /**
   After a reset, the first packet is a host's hello or ends the handshake. A hello is
   answered with one of the Ark's, and the Ark waits exactly if all of that goes out.
   */
  lemma AnswersExactly(cfg: A.Config, s: A.State, ev: Event)
    requires s.phase.AwaitHello? && ev.input.Packet?
    ensures A.Receive(cfg, s, ev) ==
            match cfg.suite.decodeHello(ev.input.data)
            case None => (A.State(s.world, A.Idle), A.Effect([], None))
            case Some(hello) =>
              var w, e := s.world, HelloFor(cfg.signer, hello, ev);
              var packet := cfg.suite.sealEnvelope(e);
              if !cfg.suite.keyOk(hello.crypto)
              then (A.State(World(w.used + {ev.eph}, w.honest, w.signed, w.sealed), A.Idle), A.Effect([], None))
              else
                var w' := World(w.used + {ev.eph} + {ev.encap}, w.honest, w.signed + {e}, w.sealed);
                var sender := Endpoint(Context(hello.crypto, ev.encap, ArkToHost), 0);
                if Bound(|packet|) > cfg.max then (A.State(w', A.Idle), A.Effect([], None))
                else if ev.write.Whole?
                then (A.State(w', A.AwaitAck(hello, ev.eph, sender)), A.Effect(OnWire(packet, ev.write), None))
                else (A.State(w', A.Idle), A.Effect(OnWire(packet, ev.write), None))
  {
    match cfg.suite.decodeHello(ev.input.data)
    case None =>
    case Some(hello) => SendingExactly(cfg.max, cfg.suite.sealEnvelope(HelloFor(cfg.signer, hello, ev)), ev.write);
  }

  /** The packet holds an acknowledgement for this handshake by the signer of its hello, not forged and usable. */
  predicate Acknowledges(cfg: A.Config, w: World, hello: HostHello, eph: Key, data: Bytes, e: Envelope) {
    && cfg.suite.readEnvelope(data) == Some(e) && e.recipient == eph && e.auth == AckAuth(cfg.signer, eph)
    && e.payload.HostAck? && e.signer == hello.signer && (e.signer in w.honest ==> e in w.signed)
    && cfg.suite.encapOk(e.payload.encap)
  }

  /** An Ark that waits comes to a session exactly on such an acknowledgement; any other packet ends the handshake. */
  lemma CompletesExactly(cfg: A.Config, s: A.State, ev: Event)
    requires s.phase.AwaitAck? && ev.input.Packet?
    ensures var AwaitAck(hello, eph, sender) := s.phase;
            var (s', effect) := A.Receive(cfg, s, ev);
            && effect == A.Effect([], None) && s'.world == s.world
            && (s'.phase.Live? <==> exists e :: Acknowledges(cfg, s.world, hello, eph, ev.input.data, e))
            && (!s'.phase.Live? ==> s'.phase == A.Idle)
            && forall e :: Acknowledges(cfg, s.world, hello, eph, ev.input.data, e) ==>
                 s'.phase == A.Live(Link(sender, Endpoint(Context(eph, e.payload.encap, HostToArk), 0)))
  {
    var AwaitAck(hello, eph, sender) := s.phase;
    match cfg.suite.readEnvelope(ev.input.data) {
      case None =>
      case Some(e) =>
        assert A.Receive(cfg, s, ev).0.phase.Live? <==> Acknowledges(cfg, s.world, hello, eph, ev.input.data, e);
    }
  }

  /** A session opens its next packet, message or not, and goes with any other. */
  lemma OpensExactly(cfg: A.Config, s: A.State, ev: Event)
    requires s.phase.Live? && ev.input.Packet?
    ensures var Link(sender, receiver) := s.phase.link;
            var Endpoint(ctx, n) := receiver;
            && (forall msg :: IsNextPacket(cfg.suite, s.world, receiver, ev.input, msg) ==>
                  A.Receive(cfg, s, ev)
                  == (A.State(s.world, A.Live(Link(sender, Endpoint(ctx, n + 1)))), A.Effect([], Some(msg))))
            && ((forall msg :: !IsNextPacket(cfg.suite, s.world, receiver, ev.input, msg)) ==>
                  A.Receive(cfg, s, ev) == (A.State(s.world, A.Idle), A.Effect([], None)))
  {
    var Endpoint(ctx, n) := s.phase.link.receiver;
    if n < |SealedIn(s.world, ctx)| {
      var msg := SealedIn(s.world, ctx)[n];
      assert IsNextPacket(cfg.suite, s.world, s.phase.link.receiver, ev.input, msg)
        <==> n < cfg.suite.limit && ev.input.data == cfg.suite.sealData(ctx, n, msg);
    }
  }

  /** A failed read leaves a session as it is and ends a handshake. */
  lemma InterruptsExactly(phase: A.Phase)
    ensures A.Interrupt(phase) == match phase
                                  case Live(link) => A.Live(link)
                                  case _ => A.Idle
  {}

  /**
   Sending: without a session nothing happens and the call fails; a message that is too long
   changes nothing; a context that is used up ends the session; and otherwise the message
   is the next one sealed, and the session stays exactly if all of its frame goes out.
   */
  lemma SendsExactly(cfg: A.Config, s: A.State, msg: Bytes, write: Write)
    requires Lawful(cfg.suite, 16)
    ensures A.Send(cfg, s, msg, write) ==
            if !s.phase.Live? then (s, [], Err(EncryptionFailed))
            else
              var Link(Endpoint(ctx, n), receiver) := s.phase.link;
              var w := s.world;
              if Bound(|msg| + 16) > cfg.max then (s, [], Err(PacketTooLarge(|msg|)))
              else if n >= cfg.suite.limit then (A.State(w, A.Idle), [], Err(EncryptionFailed))
              else
                var w' := World(w.used, w.honest, w.signed, w.sealed[ctx := SealedIn(w, ctx) + [msg]]);
                var out := OnWire(cfg.suite.sealData(ctx, n, msg), write);
                if write.Whole? then (A.State(w', A.Live(Link(Endpoint(ctx, n + 1), receiver))), out, Ok(()))
                else (A.State(w', A.Idle), out, Err(SendFailed))
  {
    if s.phase.Live? {
      var Endpoint(ctx, n) := s.phase.link.sender;
      SendingExactly(cfg.max, cfg.suite.sealData(ctx, n, msg), write);
    }
  }
}
