/**
 What a host promises, said of packets, records and bytes alone: when a handshake comes to
 a session, what each call returns and writes, and what becomes of the session.
 */
module HostContract {
  import opened Bytes
  import opened Crypto
  import opened Errors
  import opened Packets
  import opened Transport
  import opened Turns
  import opened Wire
  import H = HostMachine

  // ------------------------------------------------------------ the beginning

  /** A handshake begins with two delimiters and the hello, or as much of them as gets out. */
  lemma BeginsExactly(cfg: H.Config, w: World, keys: HostHello, reset: Write, write: Write)
    ensures var hello := cfg.suite.encodeHello(keys);
            var drawn := World(w.used + {keys.signer, keys.crypto}, w.honest + {keys.signer}, w.signed, w.sealed);
            H.Begin(cfg, w, keys, reset, write) ==
            match reset
            case Partial(size) =>
              H.Step(H.State(w, H.Down), if size == 0 then [] else if size == 1 then [0] else [0, 0], Err(SendFailed))
            case Whole =>
              if Bound(|hello|) > cfg.max
              then H.Step(H.State(drawn, H.Down), [0, 0], Err(FrameTooLarge(Bound(|hello|))))
              else if write.Whole?
              then H.Step(H.State(drawn, H.Waiting(keys, 0)), [0, 0] + OnWire(hello, write), Ok(()))
              else H.Step(H.State(drawn, H.Down), [0, 0] + OnWire(hello, write), Err(SendFailed))
  {
    SendingExactly(cfg.max, cfg.suite.encodeHello(keys), write);
    var none: Bytes := [];
    assert [0, 0] + none == [0, 0];
  }

  // ---------------------------------------------------------------- the answer

  /** What was read, an empty frame being no bytes. */
  function DataIn(input: Input): Bytes {
    match input
    case Packet(data) => data
    case _ => []
  }

  /** A frame that decodes and is addressed to the host's fresh key. */
  predicate ForHost(suite: Suite, keys: HostHello, input: Input) {
    input != Garbled && suite.recipientOf(DataIn(input)) == Some(keys.crypto)
  }

  /** The packet holds an Ark's hello bound to these keys. */
  predicate Holds(suite: Suite, keys: HostHello, data: Bytes, e: Envelope) {
    && suite.readEnvelope(data) == Some(e) && e.recipient == keys.crypto
    && e.auth == HelloAuth(keys.signer, keys.crypto) && e.payload.ArkHello?
  }

  /**
   The host may trust the hello: the policy names its signer for the attestation in it, the
   signature is not forged, and the values in it can be used.
   */
  predicate Trustworthy(suite: Suite, w: World, policy: H.Verifier, e: Envelope)
    requires e.payload.ArkHello?
  {
    && suite.wellShaped(e.payload.attest) && policy(e.payload.attest) == Some(e.signer)
    && (e.signer in w.honest ==> e in w.signed)
    && suite.encapOk(e.payload.encap) && suite.keyOk(e.payload.crypto)
  }

  /** The host's answer to a hello. */
  function AckFor(keys: HostHello, e: Envelope, encap: Encap): Envelope
    requires e.payload.ArkHello?
  {
    Envelope(HostAck(encap), AckAuth(e.signer, e.payload.crypto), keys.signer, e.payload.crypto)
  }

  /** The session it sets up. */
  function SessionFor(keys: HostHello, e: Envelope, encap: Encap): Link
    requires e.payload.ArkHello?
  {
    Link(Endpoint(Context(e.payload.crypto, encap, HostToArk), 0),
         Endpoint(Context(keys.crypto, e.payload.encap, ArkToHost), 0))
  }

  /** A trustworthy hello is acknowledged, and the session is there if the acknowledgement goes out. */
  lemma AnswersExactly(cfg: H.Config, s: H.State, policy: H.Verifier, ev: Event, e: Envelope)
    requires s.phase.Waiting? && ForHost(cfg.suite, s.phase.keys, ev.input)
    requires Holds(cfg.suite, s.phase.keys, DataIn(ev.input), e) && Trustworthy(cfg.suite, s.world, policy, e)
    ensures var keys, w := s.phase.keys, s.world;
            var ack := cfg.suite.sealEnvelope(AckFor(keys, e, ev.encap));
            var w' := World(w.used + {ev.encap}, w.honest, w.signed + {AckFor(keys, e, ev.encap)}, w.sealed);
            H.Poll(cfg, s, policy, ev) ==
            if Bound(|ack|) > cfg.max then H.Step(H.State(w', H.Down), [], Err(FrameTooLarge(Bound(|ack|))))
            else if ev.write.Partial? then H.Step(H.State(w', H.Down), OnWire(ack, ev.write), Err(SendFailed))
            else H.Step(H.State(w', H.Up(SessionFor(keys, e, ev.encap))), OnWire(ack, ev.write), Ok(()))
  {
    SendingExactly(cfg.max, cfg.suite.sealEnvelope(AckFor(s.phase.keys, e, ev.encap)), ev.write);
  }

  /** Any other packet to the fresh key ends the handshake, writing and recording nothing. */
  lemma RefusesExactly(cfg: H.Config, s: H.State, policy: H.Verifier, ev: Event)
    requires s.phase.Waiting? && ForHost(cfg.suite, s.phase.keys, ev.input)
    requires forall e :: Holds(cfg.suite, s.phase.keys, DataIn(ev.input), e) ==>
                           !Trustworthy(cfg.suite, s.world, policy, e)
    ensures var step := H.Poll(cfg, s, policy, ev);
            && step.state == H.State(s.world, H.Down) && step.out == [] && step.result.Err?
            && (step.result.error == InvalidAttestation || step.result.error == HandshakeFailed)
            && (step.result.error == InvalidAttestation
                <==> exists e :: Holds(cfg.suite, s.phase.keys, DataIn(ev.input), e)
                                 && !cfg.suite.wellShaped(e.payload.attest))
  {
    match cfg.suite.readEnvelope(DataIn(ev.input)) {
      case None =>
      case Some(e) => var _ := Holds(cfg.suite, s.phase.keys, DataIn(ev.input), e);
    }
  }

  /** Frames for others are put up with 32 times; a garbled one ends the handshake. */
  lemma SkipsExactly(cfg: H.Config, s: H.State, policy: H.Verifier, ev: Event)
    requires s.phase.Waiting? && !ForHost(cfg.suite, s.phase.keys, ev.input)
    ensures H.Poll(cfg, s, policy, ev) ==
            if ev.input == Garbled then H.Step(H.State(s.world, H.Down), [], Err(FrameDecodingFailed))
            else if s.phase.stale < 32
            then H.Step(H.State(s.world, H.Waiting(s.phase.keys, s.phase.stale + 1)), [], Ok(()))
            else H.Step(H.State(s.world, H.Down), [], Err(HandshakeFailed))
  {}

  /**
   A waiting host comes up on an input exactly if that is a hello bound to its keys which it
   may trust, and its acknowledgement goes out.
   */
  lemma ComesUpExactly(cfg: H.Config, s: H.State, policy: H.Verifier, ev: Event)
    requires s.phase.Waiting?
    ensures H.Poll(cfg, s, policy, ev).state.phase.Up?
            <==> && ForHost(cfg.suite, s.phase.keys, ev.input)
                 && exists e :: && Holds(cfg.suite, s.phase.keys, DataIn(ev.input), e)
                                && Trustworthy(cfg.suite, s.world, policy, e)
                                && Bound(|cfg.suite.sealEnvelope(AckFor(s.phase.keys, e, ev.encap))|) <= cfg.max
                                && ev.write == Whole
  {
    if !ForHost(cfg.suite, s.phase.keys, ev.input) {
      SkipsExactly(cfg, s, policy, ev);
    } else if e :| Holds(cfg.suite, s.phase.keys, DataIn(ev.input), e) && Trustworthy(cfg.suite, s.world, policy, e) {
      AnswersExactly(cfg, s, policy, ev, e);
    } else {
      RefusesExactly(cfg, s, policy, ev);
    }
  }

  // ------------------------------------------------------------- whole handshakes

  /** The session was earned: the last packet read held a hello the host may trust. */
  ghost predicate Earned(suite: Suite, w: World, keys: HostHello, policy: H.Verifier, turns: seq<Turn>, link: Link) {
    turns != [] && Last(suite, Later(w, turns), keys, policy, turns[|turns| - 1].ev, link)
  }

  /** While the host waits, it changes and writes nothing. */
  lemma {:induction false} WaitingIsQuiet(cfg: H.Config, w: World, keys: HostHello, policy: H.Verifier,
                                          turns: seq<Turn>, n: nat)
    requires n <= |turns|
    requires var at := H.Polled(cfg, H.State(w, H.Waiting(keys, 0)), policy, turns[..n]);
             at.Some? && at.value.state.phase.Waiting?
    ensures H.Polled(cfg, H.State(w, H.Waiting(keys, 0)), policy, turns[..n])
            == Some(Quiet(Later(w, turns[..n]), keys, n))
    ensures n <= 32
    decreases n
  {
    if n > 0 {
      var k := n - 1;
      H.PolledBack(cfg, H.State(w, H.Waiting(keys, 0)), policy, turns, k);
      WaitingIsQuiet(cfg, w, keys, policy, turns, k);
      WaitsOnce(cfg, Later(w, turns[..k]), keys, k, policy, turns[k]);
      LaterAt(w, turns, k);
    }
  }

  /** A host that waits, after `k` frames for others. */
  function Quiet(w: World, keys: HostHello, k: nat): H.Step {
    H.Step(H.State(w, H.Waiting(keys, k)), [], Ok(()))
  }

  lemma WaitsOnce(cfg: H.Config, w: World, keys: HostHello, k: nat, policy: H.Verifier, turn: Turn)
    requires var at := H.PolledOnce(cfg, Quiet(w, keys, k), policy, turn);
             at.Some? && at.value.state.phase.Waiting?
    ensures H.PolledOnce(cfg, Quiet(w, keys, k), policy, turn)
            == Some(Quiet(Grown(w, turn.meanwhile.others), keys, k + 1)) && k < 32
  {
    var s := H.State(Grown(w, turn.meanwhile.others), H.Waiting(keys, k));
    if ForHost(cfg.suite, keys, turn.ev.input) {
      NeverWaitsAfter(cfg, s, policy, turn.ev);
    } else {
      SkipsExactly(cfg, s, policy, turn.ev);
    }
    var none: Bytes := [];
    assert none + none == none;
  }

  lemma NeverWaitsAfter(cfg: H.Config, s: H.State, policy: H.Verifier, ev: Event)
    requires s.phase.Waiting? && ForHost(cfg.suite, s.phase.keys, ev.input)
    ensures !H.Poll(cfg, s, policy, ev).state.phase.Waiting?
  {
    if e :| Holds(cfg.suite, s.phase.keys, DataIn(ev.input), e) && Trustworthy(cfg.suite, s.world, policy, e) {
      AnswersExactly(cfg, s, policy, ev, e);
    } else {
      RefusesExactly(cfg, s, policy, ev);
    }
  }

  /** A handshake that comes to a session earned it. */
  lemma SessionsAreEarned(cfg: H.Config, w: World, keys: HostHello, policy: H.Verifier, turns: seq<Turn>)
    requires var at := H.Polled(cfg, H.State(w, H.Waiting(keys, 0)), policy, turns);
             at.Some? && at.value.state.phase.Up?
    ensures Earned(cfg.suite, w, keys, policy, turns,
                   H.Polled(cfg, H.State(w, H.Waiting(keys, 0)), policy, turns).value.state.phase.link)
  {
    var start := H.State(w, H.Waiting(keys, 0));
    var n := |turns| - 1;
    assert turns[..n + 1] == turns;
    H.PolledBack(cfg, start, policy, turns, n);
    WaitingIsQuiet(cfg, w, keys, policy, turns, n);
    LaterAt(w, turns, n);
    UpOnce(cfg, Later(w, turns[..n]), keys, n, policy, turns[n]);
  }

  /** What the last turn of a handshake read, if that brought the host up. */
  ghost predicate Last(suite: Suite, w: World, keys: HostHello, policy: H.Verifier, ev: Event, link: Link) {
    && ForHost(suite, keys, ev.input) && ev.write == Whole
    && exists e :: && Holds(suite, keys, DataIn(ev.input), e) && Trustworthy(suite, w, policy, e)
                   && link == SessionFor(keys, e, ev.encap)
  }

  lemma UpOnce(cfg: H.Config, w: World, keys: HostHello, k: nat, policy: H.Verifier, turn: Turn)
    requires var at := H.PolledOnce(cfg, Quiet(w, keys, k), policy, turn); at.Some? && at.value.state.phase.Up?
    ensures Last(cfg.suite, Grown(w, turn.meanwhile.others), keys, policy, turn.ev,
                 H.PolledOnce(cfg, Quiet(w, keys, k), policy, turn).value.state.phase.link)
  {
    var s := H.State(Grown(w, turn.meanwhile.others), H.Waiting(keys, k));
    ComesUpExactly(cfg, s, policy, turn.ev);
    var e :| Holds(cfg.suite, keys, DataIn(turn.ev.input), e) && Trustworthy(cfg.suite, s.world, policy, e);
    AnswersExactly(cfg, s, policy, turn.ev, e);
  }

  // ----------------------------------------------------------------- messages

  /**
   A call returns a message exactly if there is a session, the packet read is the next one
   sealed for it, and what it holds is a message; and every error has its one cause.
   */
  lemma ReadsExactly(cfg: H.Config, s: H.State, input: Input)
    ensures var r := H.Receive(cfg, s, input).1;
            && (forall msg :: r == Ok(msg)
                  <==> s.phase.Up? && IsNextPacket(cfg.suite, s.world, s.phase.link.receiver, input, msg)
                       && cfg.suite.decodable(msg))
            && (r == Err(FrameDecodingFailed) <==> !input.Packet?)
            && (r == Err(EncryptionFailed)
                <==> input.Packet? && (s.phase.Up? ==>
                       forall msg :: !IsNextPacket(cfg.suite, s.world, s.phase.link.receiver, input, msg)))
            && (r == Err(PacketDecodingFailed)
                <==> s.phase.Up? && exists msg :: IsNextPacket(cfg.suite, s.world, s.phase.link.receiver, input, msg)
                                                  && !cfg.suite.decodable(msg))
  {
    if s.phase.Up? && input.Packet? {
      var Endpoint(ctx, n) := s.phase.link.receiver;
      if n < |SealedIn(s.world, ctx)| {
        assert IsNextPacket(cfg.suite, s.world, s.phase.link.receiver, input, SealedIn(s.world, ctx)[n])
          <==> n < cfg.suite.limit && input.data == cfg.suite.sealData(ctx, n, SealedIn(s.world, ctx)[n]);
      }
    }
  }

  /** The same as a table. */
  lemma ReadsAs(cfg: H.Config, s: H.State, input: Input)
    ensures ReadAs(cfg.suite, if s.phase.Up? then Some(s.phase.link) else None, s.world, input,
                   H.Receive(cfg, s, input).1)
  {}

  /** The session stays over an empty frame, moves on with the next packet, and goes with anything else. */
  lemma ReadingMovesExactly(cfg: H.Config, s: H.State, input: Input)
    ensures H.Receive(cfg, s, input).0.world == s.world
    ensures H.Receive(cfg, s, input).0.phase ==
            if input == Reset || (input != Garbled && !s.phase.Up?) then s.phase
            else if input == Garbled then H.Down
            else
              var Endpoint(ctx, n) := s.phase.link.receiver;
              var msgs := SealedIn(s.world, ctx);
              if n < |msgs| && n < cfg.suite.limit && input == Packet(cfg.suite.sealData(ctx, n, msgs[n]))
              then H.Up(Link(s.phase.link.sender, Endpoint(ctx, n + 1))) else H.Down
  {}

  /**
   Sending: without a session nothing happens and the call fails; a message that is too long
   changes nothing; a context that is used up ends the session; and otherwise the message
   is the next one sealed, and the session stays exactly if all of its frame goes out.
   */
  lemma SendsExactly(cfg: H.Config, s: H.State, msg: Bytes, write: Write)
    requires Lawful(cfg.suite, 16)
    ensures H.Send(cfg, s, msg, write) ==
            if !s.phase.Up? then H.Step(s, [], Err(EncryptionFailed))
            else
              var Link(Endpoint(ctx, n), receiver) := s.phase.link;
              var w := s.world;
              if Bound(|msg| + 16) > cfg.max then H.Step(s, [], Err(PacketTooLarge(|msg|)))
              else if n >= cfg.suite.limit then H.Step(H.State(w, H.Down), [], Err(EncryptionFailed))
              else
                var w' := World(w.used, w.honest, w.signed, w.sealed[ctx := SealedIn(w, ctx) + [msg]]);
                var out := OnWire(cfg.suite.sealData(ctx, n, msg), write);
                if write.Whole? then H.Step(H.State(w', H.Up(Link(Endpoint(ctx, n + 1), receiver))), out, Ok(()))
                else H.Step(H.State(w', H.Down), out, Err(SendFailed))
  {
    if s.phase.Up? {
      var Endpoint(ctx, n) := s.phase.link.sender;
      SendingExactly(cfg.max, cfg.suite.sealData(ctx, n, msg), write);
    }
  }
}
