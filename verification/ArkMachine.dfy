/** The Ark's side of the protocol as a machine over the framer's inputs. */
module ArkMachine {
  import opened Bytes
  import opened Crypto
  import opened Errors
  import opened Packets
  import opened Session
  import opened Transport
  import opened Turns

  /** Where the Ark is; the two waiting phases exist only inside its handshake. */
  datatype Phase =
    | Idle
    | AwaitHello
    | AwaitAck(hello: HostHello, eph: Key, sender: Endpoint)
    | Live(link: Link)

  datatype Config = Config(max: nat, suite: Suite, signer: Key)

  datatype State = State(world: World, phase: Phase)

  /** What a step puts on the wire, and the message it opens. */
  datatype Effect = Effect(out: Bytes, message: Option<Bytes>)

  const Silent := Effect([], None)

  /** The hello a step would answer, if it is one that answers. */
  function Answered(cfg: Config, s: State, input: Input): Option<HostHello> {
    if s.phase.AwaitHello? && input.Packet? then cfg.suite.decodeHello(input.data) else None
  }

  /** The names a step draws have not been drawn before. */
  predicate Fresh(cfg: Config, s: State, ev: Event) {
    match Answered(cfg, s, ev.input)
    case None => true
    case Some(hello) => FreshReply(cfg, s.world, hello, ev)
  }

  predicate FreshReply(cfg: Config, w: World, hello: HostHello, ev: Event) {
    ev.eph !in w.used && (cfg.suite.keyOk(hello.crypto) ==> ev.encap !in w.used && ev.encap != ev.eph)
  }

  /** The hello the Ark answers a host's hello with. */
  function Hello(cfg: Config, hello: HostHello, ev: Event): Envelope {
    Envelope(ArkHello(ev.attest, ev.eph, ev.encap), HelloAuth(hello.signer, hello.crypto), cfg.signer, hello.crypto)
  }

  /** Answers a host's hello with an ephemeral key and a sender context. */
  function Reply(cfg: Config, w: World, hello: HostHello, ev: Event): (State, Effect) {
    var drawn := Draw(w, {ev.eph});
    if !cfg.suite.keyOk(hello.crypto) then (State(drawn, Idle), Silent)
    else
      var envelope := Hello(cfg, hello, ev);
      var signed := Sign(Draw(drawn, {ev.encap}), envelope);
      var packet := cfg.suite.sealEnvelope(envelope);
      var sender := Endpoint(Context(hello.crypto, ev.encap, ArkToHost), 0);
      (State(signed, if SendOk(cfg.max, packet, ev.write) then AwaitAck(hello, ev.eph, sender) else Idle),
       Effect(Emitted(cfg.max, packet, ev.write), None))
  }

  /** The session a host's acknowledgement completes, if it is one. */
  function Complete(cfg: Config, w: World, hello: HostHello, eph: Key, sender: Endpoint, data: Bytes): Option<Link> {
    match Decrypt(cfg.suite, data, AckAuth(cfg.signer, eph), eph)
    case None => None
    case Some(e) =>
      if Verify(w, e, hello.signer) && e.payload.HostAck? && cfg.suite.encapOk(e.payload.encap)
      then Some(Link(sender, Endpoint(Context(eph, e.payload.encap, HostToArk), 0)))
      else None
  }

  function Receive(cfg: Config, s: State, ev: Event): (State, Effect) {
    match (ev.input, s.phase)
    case (Reset, _) => (s.(phase := AwaitHello), Silent)
    case (Garbled, _) => (s.(phase := Idle), Silent)
    case (Packet(_), Idle) => (s, Silent)
    case (Packet(data), AwaitHello) =>
      (match cfg.suite.decodeHello(data)
       case None => (s.(phase := Idle), Silent)
       case Some(hello) => Reply(cfg, s.world, hello, ev))
    case (Packet(data), AwaitAck(hello, eph, sender)) =>
      (match Complete(cfg, s.world, hello, eph, sender, data)
       case None => (s.(phase := Idle), Silent)
       case Some(link) => (s.(phase := Live(link)), Silent))
    case (Packet(data), Live(link)) =>
      match Open(cfg.suite, s.world, link, data)
      case None => (s.(phase := Idle), Silent)
      case Some((link', msg)) => (s.(phase := Live(link')), Effect([], Some(msg)))
  }

  /** Taking input seals no message. */
  lemma ReceivingSealsNothing(cfg: Config, s: State, ev: Event)
    ensures Receive(cfg, s, ev).0.world.sealed == s.world.sealed
  {}

  /** What a session makes of a packet. */
  lemma Served(cfg: Config, s: State, data: Bytes)
    requires s.phase.Live?
    ensures Answered(cfg, s, Packet(data)) == None
    ensures var (link, r) := OpenResult(cfg.suite, s.world, s.phase.link, data);
            var (s', effect) := Receive(cfg, s, Plain(Packet(data)));
            if r == Err(EncryptionFailed) then s' == s.(phase := Idle) && effect == Silent
            else
              && s' == s.(phase := Live(link)) && effect.out == [] && effect.message.Some?
              && var msg := effect.message.value;
                 r == if cfg.suite.decodable(msg) then Ok(msg) else Err(PacketDecodingFailed)
  {}

  /** A transport error ends a handshake in progress, but not a session. */
  function Interrupt(phase: Phase): Phase {
    if phase.Live? then phase else Idle
  }

  /** Sends a message through the session, dropping it when a sealed message may be lost. */
  function Send(cfg: Config, s: State, msg: Bytes, write: Write): (State, Bytes, Result<(), Error>) {
    if !s.phase.Live? then (s, [], Err(EncryptionFailed))
    else
      var (w, link, sealed) := SealResult(cfg.max, cfg.suite, s.world, s.phase.link, msg);
      match sealed
      case Err(EncryptionFailed) => (State(w, Idle), [], Err(EncryptionFailed))
      case Err(e) => (s, [], Err(e))
      case Ok(packet) =>
        var out := Emitted(cfg.max, packet, write);
        (State(w, if SendOk(cfg.max, packet, write) then Live(link) else Idle), out, SendResult(cfg.max, packet, write))
  }

  // ---------------------------------------------------------------- runs

  /** The state an Ark reads in, after what went on elsewhere. */
  function Meanwhile(s: State, m: Interlude): State {
    s.(world := Grown(s.world, m.others))
  }

  /** State, output and opened messages after a sequence of turns. */
  datatype Trace = Trace(state: State, out: Bytes, messages: seq<Bytes>)

  function Step(cfg: Config, t: Trace, turn: Turn): Trace {
    var (s, effect) := Receive(cfg, Meanwhile(t.state, turn.meanwhile), turn.ev);
    Trace(s, t.out + effect.out, t.messages + (if effect.message.Some? then [effect.message.value] else []))
  }

  function Run(cfg: Config, t: Trace, turns: seq<Turn>): Trace {
    if turns == [] then t else Step(cfg, Run(cfg, t, turns[..|turns| - 1]), turns[|turns| - 1])
  }

  /** Every step of the run draws names nobody has drawn before. */
  predicate AllFresh(cfg: Config, t: Trace, turns: seq<Turn>) {
    turns == [] ||
    var init, last := turns[..|turns| - 1], turns[|turns| - 1];
    AllFresh(cfg, t, init) && Fresh(cfg, Meanwhile(Run(cfg, t, init).state, last.meanwhile), last.ev)
  }

  lemma RunSnoc(cfg: Config, t: Trace, turns: seq<Turn>, turn: Turn)
    ensures Run(cfg, t, turns + [turn]) == Step(cfg, Run(cfg, t, turns), turn)
    ensures AllFresh(cfg, t, turns + [turn])
            == (AllFresh(cfg, t, turns) && Fresh(cfg, Meanwhile(Run(cfg, t, turns).state, turn.meanwhile), turn.ev))
  {
    assert (turns + [turn])[..|turns|] == turns;
  }

  lemma {:induction false} RunConcat(cfg: Config, t: Trace, a: seq<Turn>, b: seq<Turn>)
    ensures Run(cfg, t, a + b) == Run(cfg, Run(cfg, t, a), b)
    ensures AllFresh(cfg, t, a + b) == (AllFresh(cfg, t, a) && AllFresh(cfg, Run(cfg, t, a), b))
    decreases |b|
  {
    if b == [] {
      assert a + b == a;
    } else {
      var init, last := b[..|b| - 1], b[|b| - 1];
      assert b == init + [last] && a + b == (a + init) + [last];
      RunConcat(cfg, t, a, init);
      RunSnoc(cfg, t, a + init, last);
      RunSnoc(cfg, Run(cfg, t, a), init, last);
    }
  }

  // ------------------------------------------------------------- journeys

  /** What of an Ark can be observed: its unconsumed input, its output and its state. */
  datatype View = View(rest: Bytes, sent: Bytes, state: State)

  function Waited(v: View, m: Interlude): View {
    View(v.rest + m.arrived, v.sent, Meanwhile(v.state, m))
  }

  /**
   The Ark got from `a` to `b` in these turns, each of them taking the next input of the
   bytes that were there by then, in the world as it was by then, and opened `messages`.
   */
  ghost predicate Journey(cfg: Config, a: View, turns: seq<Turn>, b: View, messages: seq<Bytes>) {
    && Feed(cfg.max, a.rest, turns) == Some(b.rest)
    && AllFresh(cfg, Trace(a.state, a.sent, []), turns)
    && Run(cfg, Trace(a.state, a.sent, []), turns) == Trace(b.state, b.sent, messages)
  }

  lemma JourneyStart(cfg: Config, a: View)
    ensures Journey(cfg, a, [], a, [])
  {}

  /** One more turn. */
  lemma JourneyStep(cfg: Config, a: View, turns: seq<Turn>, b: View, messages: seq<Bytes>, turn: Turn, c: View)
    requires Journey(cfg, a, turns, b, messages)
    requires var w := Waited(b, turn.meanwhile);
             && NextInput(cfg.max, w.rest) == Some((turn.ev.input, c.rest)) && Fresh(cfg, w.state, turn.ev)
             && Receive(cfg, w.state, turn.ev).0 == c.state && c.sent == b.sent + Receive(cfg, w.state, turn.ev).1.out
    ensures var message := Receive(cfg, Waited(b, turn.meanwhile).state, turn.ev).1.message;
            Journey(cfg, a, turns + [turn], c, messages + (if message.Some? then [message.value] else []))
  {
    RunSnoc(cfg, Trace(a.state, a.sent, []), turns, turn);
    FeedSnoc(cfg.max, a.rest, turns, turn);
  }

  /** One more turn that opens nothing. */
  lemma JourneyQuiet(cfg: Config, a: View, turns: seq<Turn>, b: View, messages: seq<Bytes>, turn: Turn, c: View)
    requires Journey(cfg, a, turns, b, messages)
    requires var w := Waited(b, turn.meanwhile);
             && NextInput(cfg.max, w.rest) == Some((turn.ev.input, c.rest)) && Fresh(cfg, w.state, turn.ev)
             && Receive(cfg, w.state, turn.ev).0 == c.state && c.sent == b.sent + Receive(cfg, w.state, turn.ev).1.out
             && Receive(cfg, w.state, turn.ev).1.message == None
    ensures Journey(cfg, a, turns + [turn], c, messages)
  {
    JourneyStep(cfg, a, turns, b, messages, turn, c);
    assert messages + [] == messages;
  }

  /** One more turn that only changes the phase. */
  lemma JourneyTake(cfg: Config, a: View, turns: seq<Turn>, b: View, m: Interlude, input: Input, c: View)
    returns (turns': seq<Turn>)
    requires Journey(cfg, a, turns, b, [])
    requires NextInput(cfg.max, Waited(b, m).rest) == Some((input, c.rest)) && c.sent == b.sent
    requires Answered(cfg, Waited(b, m).state, input) == None
    requires Receive(cfg, Waited(b, m).state, Plain(input)) == (c.state, Silent)
    ensures Journey(cfg, a, turns', c, []) && turns' == turns + [Turn(m, Plain(input))]
  {
    turns' := turns + [Turn(m, Plain(input))];
    assert b.sent + [] == b.sent;
    JourneyQuiet(cfg, a, turns, b, [], Turn(m, Plain(input)), c);
  }
}
