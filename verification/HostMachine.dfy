/** The host's side of the protocol as a machine over its calls and the framer's inputs. */
module HostMachine {
  import opened Bytes
  import opened Crypto
  import opened Errors
  import opened Packets
  import opened Session
  import opened Splitter
  import opened Transport
  import opened Turns

  /** How many frames for other recipients a handshake puts up with. */
  const MAX_STALE_FRAMES := 32

  /** Trust policy: the identity key of an accepted attestation. */
  type Verifier = Bytes -> Option<Key>

  /** Where the host is; it waits only inside its handshake. */
  datatype Phase = Down | Waiting(keys: HostHello, stale: nat) | Up(link: Link)

  datatype Config = Config(max: nat, suite: Suite)

  datatype State = State(world: World, phase: Phase)

  type Outcome = Result<(), Error>

  /** What a call or step comes to. */
  datatype Step = Step(state: State, out: Bytes, result: Outcome)

  // ----------------------------------------------------------- handshake

  /** Starts a handshake: signals the reset, generates the run's keys and sends the hello. */
  function Begin(cfg: Config, w: World, keys: HostHello, reset: Write, write: Write): Step {
    if !reset.Whole? then Step(State(w, Down), Delivered([0, 0], reset), Err(SendFailed))
    else
      var w' := Draw(w, {keys.signer, keys.crypto}).(honest := w.honest + {keys.signer});
      var packet := cfg.suite.encodeHello(keys);
      var sent := SendResult(cfg.max, packet, write);
      Step(State(w', if sent.Ok? then Waiting(keys, 0) else Down), [0, 0] + Emitted(cfg.max, packet, write), sent)
  }

  predicate FreshKeys(w: World, keys: HostHello) {
    keys.signer !in w.used && keys.crypto !in w.used && keys.signer != keys.crypto
  }

  /** What a packet addressed to the host's fresh key amounts to: a hello, with the identity behind it. */
  function Judge(cfg: Config, w: World, keys: HostHello, data: Bytes, verifier: Verifier)
    : Result<(Envelope, Key), Error>
  {
    match Decrypt(cfg.suite, data, HelloAuth(keys.signer, keys.crypto), keys.crypto)
    case None => Err(HandshakeFailed)
    case Some(e) =>
      if !e.payload.ArkHello? then Err(HandshakeFailed)
      else if !cfg.suite.wellShaped(e.payload.attest) then Err(InvalidAttestation)
      else match verifier(e.payload.attest)
           case None => Err(HandshakeFailed)
           case Some(identity) =>
             if Verify(w, e, identity) && cfg.suite.encapOk(e.payload.encap) && cfg.suite.keyOk(e.payload.crypto)
             then Ok((e, identity)) else Err(HandshakeFailed)
  }

  /** The host's acknowledgement of an Ark's hello. */
  function Ack(keys: HostHello, hello: Payload, identity: Key, encap: Encap): Envelope
    requires hello.ArkHello?
  {
    Envelope(HostAck(encap), AckAuth(identity, hello.crypto), keys.signer, hello.crypto)
  }

  /** The session a run sets up on an Ark's hello. */
  function Established(keys: HostHello, hello: Payload, encap: Encap): Link
    requires hello.ArkHello?
  {
    var sender, receiver := Context(hello.crypto, encap, HostToArk), Context(keys.crypto, hello.encap, ArkToHost);
    Link(Endpoint(sender, 0), Endpoint(receiver, 0))
  }

  function Answer(cfg: Config, w: World, keys: HostHello, data: Bytes, verifier: Verifier, ev: Event): Step {
    match Judge(cfg, w, keys, data, verifier)
    case Err(e) => Step(State(w, Down), [], Err(e))
    case Ok((e, identity)) =>
      var ack := Ack(keys, e.payload, identity, ev.encap);
      var w' := Sign(Draw(w, {ev.encap}), ack);
      var packet := cfg.suite.sealEnvelope(ack);
      var sent := SendResult(cfg.max, packet, ev.write);
      Step(State(w', if sent.Ok? then Up(Established(keys, e.payload, ev.encap)) else Down),
           Emitted(cfg.max, packet, ev.write), sent)
  }

  /** The packet an input is read as: an empty frame leaves nothing in the buffer. */
  function DataOf(input: Input): Bytes {
    if input.Packet? then input.data else []
  }

  predicate Addressed(cfg: Config, keys: HostHello, input: Input) {
    cfg.suite.recipientOf(DataOf(input)) == Some(keys.crypto)
  }

  /** One input while waiting: up to a limit, frames for other recipients do not matter. */
  function Poll(cfg: Config, s: State, verifier: Verifier, ev: Event): Step
    requires s.phase.Waiting?
  {
    var Waiting(keys, stale) := s.phase;
    if ev.input.Garbled? then Step(s.(phase := Down), [], Err(FrameDecodingFailed))
    else if Addressed(cfg, keys, ev.input) then Answer(cfg, s.world, keys, DataOf(ev.input), verifier, ev)
    else if stale + 1 > MAX_STALE_FRAMES then Step(s.(phase := Down), [], Err(HandshakeFailed))
    else Step(s.(phase := Waiting(keys, stale + 1)), [], Ok(()))
  }

  predicate Fresh(cfg: Config, s: State, verifier: Verifier, ev: Event)
    requires s.phase.Waiting?
  {
    var keys := s.phase.keys;
    var answers := Addressed(cfg, keys, ev.input) && Judge(cfg, s.world, keys, DataOf(ev.input), verifier).Ok?;
    answers && !ev.input.Garbled? ==> ev.encap !in s.world.used
  }

  // ------------------------------------------------------------- session

  /** Reads the next message: whatever cannot be decoded or decrypted drops the session. */
  function Receive(cfg: Config, s: State, input: Input): (State, Result<Bytes, Error>) {
    match input
    case Garbled => (s.(phase := Down), Err(FrameDecodingFailed))
    case Reset => (s, Err(FrameDecodingFailed))
    case Packet(data) =>
      if !s.phase.Up? then (s, Err(EncryptionFailed))
      else
        var (link, r) := OpenResult(cfg.suite, s.world, s.phase.link, data);
        (s.(phase := if r == Err(EncryptionFailed) then Down else Up(link)), r)
  }

  /** What a session makes of a packet. */
  lemma Served(cfg: Config, s: State, data: Bytes)
    requires s.phase.Up?
    ensures var (link, r) := OpenResult(cfg.suite, s.world, s.phase.link, data);
            Receive(cfg, s, Packet(data)) == (s.(phase := if r == Err(EncryptionFailed) then Down else Up(link)), r)
  {}

  /** Sends a message through the session, dropping it when a sealed message may be lost. */
  function Send(cfg: Config, s: State, msg: Bytes, write: Write): Step {
    if !s.phase.Up? then Step(s, [], Err(EncryptionFailed))
    else
      var (w, link, sealed) := SealResult(cfg.max, cfg.suite, s.world, s.phase.link, msg);
      match sealed
      case Err(EncryptionFailed) => Step(State(w, Down), [], Err(EncryptionFailed))
      case Err(e) => Step(s, [], Err(e))
      case Ok(packet) =>
        var sent := SendResult(cfg.max, packet, write);
        Step(State(w, if sent.Ok? then Up(link) else Down), Emitted(cfg.max, packet, write), sent)
  }

  // ---------------------------------------------------------- polling runs

  /** The state a host reads in, after what went on elsewhere. */
  function Meanwhile(s: State, m: Interlude): State {
    s.(world := Grown(s.world, m.others))
  }

  /** The handshake after the given turns; it only goes on while waiting. */
  function Polled(cfg: Config, s: State, verifier: Verifier, turns: seq<Turn>): Option<Step> {
    if turns == [] then Some(Step(s, [], Ok(())))
    else
      match Polled(cfg, s, verifier, turns[..|turns| - 1])
      case None => None
      case Some(before) => PolledOnce(cfg, before, verifier, turns[|turns| - 1])
  }

  function PolledOnce(cfg: Config, before: Step, verifier: Verifier, turn: Turn): Option<Step> {
    var now := Meanwhile(before.state, turn.meanwhile);
    if !before.state.phase.Waiting? || !Fresh(cfg, now, verifier, turn.ev) then None
    else
      var next := Poll(cfg, now, verifier, turn.ev);
      Some(next.(out := before.out + next.out))
  }

  lemma PolledBack(cfg: Config, s: State, verifier: Verifier, turns: seq<Turn>, n: nat)
    requires n < |turns| && Polled(cfg, s, verifier, turns[..n + 1]).Some?
    ensures Polled(cfg, s, verifier, turns[..n]).Some?
    ensures Polled(cfg, s, verifier, turns[..n]).value.state.phase.Waiting?
    ensures Polled(cfg, s, verifier, turns[..n + 1])
            == PolledOnce(cfg, Polled(cfg, s, verifier, turns[..n]).value, verifier, turns[n])
  {
    assert turns[..n + 1][..n] == turns[..n];
  }

  lemma PolledAt(cfg: Config, s: State, verifier: Verifier, turns: seq<Turn>, n: nat)
    requires n < |turns| && Polled(cfg, s, verifier, turns[..n]).Some?
    ensures Polled(cfg, s, verifier, turns[..n + 1])
            == PolledOnce(cfg, Polled(cfg, s, verifier, turns[..n]).value, verifier, turns[n])
  {
    assert turns[..n + 1][..n] == turns[..n];
  }

  /** What of a host can be observed: its unconsumed input, its output and its state. */
  datatype View = View(rest: Bytes, sent: Bytes, state: State)

  function Waited(v: View, m: Interlude): View {
    View(v.rest + m.arrived, v.sent, Meanwhile(v.state, m))
  }

  /**
   The handshake got from `a` to `b` in these turns, each of them taking the next input of
   the bytes that were there by then, in the world as it was by then.
   */
  ghost predicate Journey(cfg: Config, verifier: Verifier, a: View, turns: seq<Turn>, b: View, result: Outcome) {
    && Feed(cfg.max, a.rest, turns) == Some(b.rest)
    && match Polled(cfg, a.state, verifier, turns)
       case None => false
       case Some(step) => step.state == b.state && b.sent == a.sent + step.out && step.result == result
  }

  lemma JourneyStart(cfg: Config, verifier: Verifier, a: View)
    ensures Journey(cfg, verifier, a, [], a, Ok(()))
  {}

  lemma JourneyStep(cfg: Config, verifier: Verifier, a: View, turns: seq<Turn>, b: View, turn: Turn, c: View)
    returns (turns': seq<Turn>)
    requires Journey(cfg, verifier, a, turns, b, Ok(())) && b.state.phase.Waiting?
    requires var w := Waited(b, turn.meanwhile);
             && NextInput(cfg.max, w.rest) == Some((turn.ev.input, c.rest)) && Fresh(cfg, w.state, verifier, turn.ev)
             && var step := Poll(cfg, w.state, verifier, turn.ev);
                step.state == c.state && c.sent == b.sent + step.out
    ensures Journey(cfg, verifier, a, turns', c, Poll(cfg, Waited(b, turn.meanwhile).state, verifier, turn.ev).result)
    ensures turns' == turns + [turn]
  {
    turns' := turns + [turn];
    assert turns'[..|turns|] == turns && turns'[..|turns| + 1] == turns';
    PolledAt(cfg, a.state, verifier, turns', |turns|);
    FeedSnoc(cfg.max, a.rest, turns, turn);
    var before := Polled(cfg, a.state, verifier, turns).value;
    Regroup(a.sent, before.out, Poll(cfg, Meanwhile(b.state, turn.meanwhile), verifier, turn.ev).out);
  }

  /** A stale input is skipped, or is one too many. */
  lemma JourneySkip(cfg: Config, verifier: Verifier, a: View, turns: seq<Turn>, b: View, m: Interlude, input: Input,
                    c: View)
    returns (turns': seq<Turn>)
    requires Journey(cfg, verifier, a, turns, b, Ok(())) && b.state.phase.Waiting?
    requires NextInput(cfg.max, Waited(b, m).rest) == Some((input, c.rest))
    requires !input.Garbled? && !Addressed(cfg, b.state.phase.keys, input)
    requires c.sent == b.sent && c.state.world == Waited(b, m).state.world
    requires var stale := b.state.phase.stale + 1;
             c.state.phase == if stale > MAX_STALE_FRAMES then Down else Waiting(b.state.phase.keys, stale)
    ensures Journey(cfg, verifier, a, turns', c, if c.state.phase.Down? then Err(HandshakeFailed) else Ok(()))
  {
    assert b.sent + [] == b.sent;
    turns' := JourneyStep(cfg, verifier, a, turns, b, Turn(m, Plain(input)), c);
  }
}
