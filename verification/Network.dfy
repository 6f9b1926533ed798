/**
 An Ark and a host over a network anybody can write to: what either side reads is
 arbitrary. The history fields record what happened and never influence it.
 */
module Network {
  import opened Bytes
  import opened Crypto
  import opened Packets
  import opened Transport
  import opened Turns
  import A = ArkMachine
  import H = HostMachine

  datatype Params = Params(max: nat, suite: Suite, arkSigner: Key)

  /** An Ark handshake that got as far as signing a hello. */
  datatype ArkRun = ArkRun(hello: HostHello, attest: Bytes, encap: Encap)

  /** A host handshake that got as far as signing an acknowledgement, under the given policy. */
  datatype HostRun = HostRun(keys: HostHello, identity: Key, hello: Payload, encap: Encap, policy: H.Verifier)

  /** A handshake the Ark completed; genuine if the hello's signer was a host run's key at that time. */
  datatype Completion = Completion(hello: HostHello, eph: Key, link: Link, genuine: bool)

  datatype Sys = Sys(
    world: World,
    ark: A.Phase,
    host: H.Phase,
    foreign: set<nat>, // Names outsiders drew
    hosts: set<Key>, // Signing keys of host runs
    run: Key, // Signing key of the host's latest run
    arkRuns: map<Key, ArkRun>, // By ephemeral key
    hostRuns: map<Key, HostRun>, // By signing key
    completions: seq<Completion>,
    read: map<Context, seq<Bytes>> // Messages opened in each context, in order
  )

  datatype Action =
    | ArkTakes(ev: Event)
    | ArkSends(msg: Bytes, write: Write)
    | ArkFails
    | HostBegins(keys: HostHello, reset: Write, write: Write)
    | HostPolls(verifier: H.Verifier, hev: Event)
    | HostTakes(input: Input)
    | HostSends(msg: Bytes, write: Write)
    | HostFails
    | OutsiderDraws(name: nat)
    | OutsiderSeals(ctx: Context, msg: Bytes)

  function ArkCfg(p: Params): A.Config {
    A.Config(p.max, p.suite, p.arkSigner)
  }

  function HostCfg(p: Params): H.Config {
    H.Config(p.max, p.suite)
  }

  function ArkState(s: Sys): A.State { A.State(s.world, s.ark) }

  function HostState(s: Sys): H.State { H.State(s.world, s.host) }

  function ReadIn(s: Sys, ctx: Context): seq<Bytes> {
    if ctx in s.read then s.read[ctx] else []
  }

  function Reading(s: Sys, ctx: Context, msg: Bytes): map<Context, seq<Bytes>> {
    s.read[ctx := ReadIn(s, ctx) + [msg]]
  }

  ghost predicate Enabled(p: Params, s: Sys, a: Action) {
    match a
    case ArkTakes(ev) => A.Fresh(ArkCfg(p), ArkState(s), ev)
    case ArkSends(_, _) => s.ark.Idle? || s.ark.Live?
    case ArkFails => true
    case HostBegins(keys, _, _) => !s.host.Waiting? && H.FreshKeys(s.world, keys)
    case HostPolls(verifier, ev) => s.host.Waiting? && H.Fresh(HostCfg(p), HostState(s), verifier, ev)
    case HostTakes(_) => !s.host.Waiting?
    case HostSends(_, _) => !s.host.Waiting?
    case HostFails => true
    case OutsiderDraws(name) => name !in s.world.used
    case OutsiderSeals(ctx, _) => ctx.encap in s.foreign
  }

  /** The Ark takes an input: histories of signed hellos, completions and opened messages. */
  function AfterArkTakes(p: Params, s: Sys, ev: Event): Sys {
    var (t, effect) := A.Receive(ArkCfg(p), ArkState(s), ev);
    var s' := s.(world := t.world, ark := t.phase);
    match A.Answered(ArkCfg(p), ArkState(s), ev.input)
    case Some(hello) =>
      if p.suite.keyOk(hello.crypto)
      then s'.(arkRuns := s.arkRuns[ev.eph := ArkRun(hello, ev.attest, ev.encap)])
      else s'
    case None =>
      if s.ark.AwaitAck? && t.phase.Live?
      then
        var done := Completion(s.ark.hello, s.ark.eph, t.phase.link, s.ark.hello.signer in s.hosts);
        s'.(completions := s.completions + [done])
      else if s.ark.Live? && effect.message.Some?
      then s'.(read := Reading(s, s.ark.link.receiver.ctx, effect.message.value))
      else s'
  }

  function AfterHostBegins(p: Params, s: Sys, keys: HostHello, reset: Write, write: Write): Sys {
    var step := H.Begin(HostCfg(p), s.world, keys, reset, write);
    var s' := s.(world := step.state.world, host := step.state.phase);
    if reset.Whole? then s'.(hosts := s.hosts + {keys.signer}, run := keys.signer) else s'
  }

  function AfterHostPolls(p: Params, s: Sys, verifier: H.Verifier, ev: Event): Sys
    requires s.host.Waiting?
  {
    var step := H.Poll(HostCfg(p), HostState(s), verifier, ev);
    var s' := s.(world := step.state.world, host := step.state.phase);
    match Judged(p, s, verifier, ev.input)
    case None => s'
    case Some((e, identity)) =>
      var keys := s.host.keys;
      s'.(hostRuns := s.hostRuns[keys.signer := HostRun(keys, identity, e.payload, ev.encap, verifier)])
  }

  /** The Ark's hello a polled input amounts to, with its verified identity. */
  function Judged(p: Params, s: Sys, verifier: H.Verifier, input: Input): Option<(Envelope, Key)>
    requires s.host.Waiting?
  {
    if input.Garbled? || !H.Addressed(HostCfg(p), s.host.keys, input) then None
    else match H.Judge(HostCfg(p), s.world, s.host.keys, H.DataOf(input), verifier)
         case Err(_) => None
         case Ok(found) => Some(found)
  }

  function AfterHostTakes(p: Params, s: Sys, input: Input): Sys {
    var (t, _) := H.Receive(HostCfg(p), HostState(s), input);
    var s' := s.(host := t.phase);
    if !s.host.Up? || !input.Packet? then s'
    else match Open(p.suite, s.world, s.host.link, input.data)
         case None => s'
         case Some((_, msg)) => s'.(read := Reading(s, s.host.link.receiver.ctx, msg))
  }

  function Next(p: Params, s: Sys, a: Action): Sys
    requires Enabled(p, s, a)
  {
    match a
    case ArkTakes(ev) => AfterArkTakes(p, s, ev)
    case ArkSends(msg, write) =>
      var (t, _, _) := A.Send(ArkCfg(p), ArkState(s), msg, write);
      s.(world := t.world, ark := t.phase)
    case ArkFails => s.(ark := A.Interrupt(s.ark))
    case HostBegins(keys, reset, write) => AfterHostBegins(p, s, keys, reset, write)
    case HostPolls(verifier, ev) => AfterHostPolls(p, s, verifier, ev)
    case HostTakes(input) => AfterHostTakes(p, s, input)
    case HostSends(msg, write) =>
      var step := H.Send(HostCfg(p), HostState(s), msg, write);
      s.(world := step.state.world, host := step.state.phase)
    case HostFails => s.(host := H.Down)
    case OutsiderDraws(name) => s.(world := Draw(s.world, {name}), foreign := s.foreign + {name})
    case OutsiderSeals(ctx, msg) =>
      s.(world := s.world.(sealed := s.world.sealed[ctx := SealedIn(s.world, ctx) + [msg]]))
  }

  ghost predicate Init(p: Params, s: Sys) {
    && s.world == World({p.arkSigner}, {p.arkSigner}, {}, map[])
    && s.ark.Idle? && s.host.Down?
    && s.foreign == {} && s.hosts == {} && s.arkRuns == map[] && s.hostRuns == map[]
    && s.completions == [] && s.read == map[]
  }

  /** The states of a run, one more than its actions. */
  ghost predicate IsRun(p: Params, states: seq<Sys>, actions: seq<Action>) {
    && |states| == |actions| + 1 && Init(p, states[0])
    && forall i :: 0 <= i < |actions| ==>
         Enabled(p, states[i], actions[i]) && states[i + 1] == Next(p, states[i], actions[i])
  }

  // ------------------------------------------------------- who said what

  /** Everything on record is what some run signed, and every run signed one thing. */
  ghost predicate Provenance(p: Params, s: Sys) {
    && KeysDrawn(p, s) && SignedByRuns(p, s) && RunsVerified(p, s) && ArkKnows(p, s) && HostKnows(s) && Completed(p, s)
  }

  ghost predicate KeysDrawn(p: Params, s: Sys) {
    && p.arkSigner in s.world.used && s.world.honest == s.hosts + {p.arkSigner} && p.arkSigner !in s.hosts
    && s.hosts <= s.world.used && s.arkRuns.Keys <= s.world.used && s.hostRuns.Keys <= s.hosts
  }

  function HelloOf(p: Params, eph: Key, run: ArkRun): Envelope {
    var auth := HelloAuth(run.hello.signer, run.hello.crypto);
    Envelope(ArkHello(run.attest, eph, run.encap), auth, p.arkSigner, run.hello.crypto)
  }

  function AckOf(run: HostRun): Envelope
    requires run.hello.ArkHello?
  {
    H.Ack(run.keys, run.hello, run.identity, run.encap)
  }

  ghost predicate SignedByRuns(p: Params, s: Sys) {
    && (forall k :: k in s.hostRuns ==>
          s.hostRuns[k].hello.ArkHello? && s.hostRuns[k].keys.signer == k && AckOf(s.hostRuns[k]) in s.world.signed)
    && forall e :: e in s.world.signed ==>
         || (e.payload.ArkHello? && e.payload.crypto in s.arkRuns
             && e == HelloOf(p, e.payload.crypto, s.arkRuns[e.payload.crypto]))
         || (e.signer in s.hostRuns && e == AckOf(s.hostRuns[e.signer]))
  }

  /** A host run that accepted this Ark's identity answered a hello this Ark made for that run. */
  ghost predicate RunsVerified(p: Params, s: Sys) {
    && (forall k :: k in s.hostRuns && s.hostRuns[k].identity == p.arkSigner ==> Verified(s, s.hostRuns[k]))
    && (forall k :: k in s.hostRuns ==> Named(p, s.hostRuns[k]))
  }

  /** The run's policy names its identity, for the attestation in the hello it accepted. */
  ghost predicate Named(p: Params, run: HostRun) {
    && run.hello.ArkHello? && p.suite.wellShaped(run.hello.attest)
    && run.policy(run.hello.attest) == Some(run.identity)
  }

  ghost predicate Verified(s: Sys, run: HostRun) {
    && run.hello.ArkHello? && run.hello.crypto in s.arkRuns
    && var made := s.arkRuns[run.hello.crypto];
       made.hello == run.keys && made.encap == run.hello.encap
  }

  ghost predicate Unfinished(s: Sys, eph: Key) {
    forall i :: 0 <= i < |s.completions| ==> s.completions[i].eph != eph
  }

  ghost predicate ArkKnows(p: Params, s: Sys) {
    match s.ark
    case AwaitAck(hello, eph, sender) =>
      && eph in s.arkRuns && s.arkRuns[eph].hello == hello && Unfinished(s, eph)
      && sender.ctx == Context(hello.crypto, s.arkRuns[eph].encap, ArkToHost)
    case Live(link) =>
      s.completions != [] && SameContexts(link, s.completions[|s.completions| - 1].link)
    case _ => true
  }

  predicate SameContexts(a: Link, b: Link) {
    a.sender.ctx == b.sender.ctx && a.receiver.ctx == b.receiver.ctx
  }

  ghost predicate HostKnows(s: Sys) {
    match s.host
    case Waiting(keys, _) => keys.signer == s.run && keys.signer in s.hosts && keys.signer !in s.hostRuns
    case Up(link) => s.run in s.hostRuns && var run := s.hostRuns[s.run];
                     run.hello.ArkHello? && SameContexts(link, H.Established(run.keys, run.hello, run.encap))
    case Down => true
  }

  /** A genuine completion answers the acknowledgement of the run whose hello it completed. */
  ghost predicate Agreed(p: Params, s: Sys, c: Completion) {
    && c.hello.signer in s.hostRuns
    && var run := s.hostRuns[c.hello.signer];
       && run.hello.ArkHello? && run.identity == p.arkSigner && run.keys == c.hello && run.hello.crypto == c.eph
       && run.policy(run.hello.attest) == Some(p.arkSigner)
       && var link := H.Established(run.keys, run.hello, run.encap);
          c.link.receiver.ctx == link.sender.ctx && c.link.sender.ctx == link.receiver.ctx
  }

  /** A completion belongs to the Ark's run that signed the hello with this ephemeral key. */
  ghost predicate OfRun(s: Sys, c: Completion) {
    && c.eph in s.arkRuns && s.arkRuns[c.eph].hello == c.hello
    && c.link.sender.ctx == Context(c.hello.crypto, s.arkRuns[c.eph].encap, ArkToHost)
  }

  ghost predicate Completed(p: Params, s: Sys) {
    && (forall i, j :: 0 <= i < j < |s.completions| ==> s.completions[i].eph != s.completions[j].eph)
    && forall i :: 0 <= i < |s.completions| ==>
         && OfRun(s, s.completions[i])
         && (s.completions[i].genuine ==> Agreed(p, s, s.completions[i]))
  }
}
