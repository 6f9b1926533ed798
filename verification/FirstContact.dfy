/**
 The hypotheses of the recovery results hold together. Whenever the values a handshake
 draws can be used and its three packets fit a frame, the handshake of a quiet Ark and a
 quiet host goes through, step by step, and it is a call of the host with the Ark acting
 inside it. `Example` is such a case in numbers.
 */
module FirstContact {
  import opened Bytes
  import opened Calls
  import opened Channel
  import opened Crypto
  import opened FirstAttempt
  import opened Lockstep
  import opened Network
  import opened Packets
  import opened PlainSuite
  import opened Recovery
  import opened Splitter
  import opened Transport
  import opened Turns
  import A = ArkMachine
  import H = HostMachine
  import Limits

  /** The names a handshake draws and the attestation it presents. */
  datatype Values = Values(signer: Key, crypto: Key, eph: Key, arkEncap: Encap, hostEncap: Encap, attest: Bytes)

  function KeysOf(v: Values): HostHello {
    HostHello(v.signer, v.crypto)
  }

  /** The input, names and outcome with which the Ark answers. */
  function Answering(p: Params, v: Values): Event {
    Event(Packet(p.suite.encodeHello(KeysOf(v))), v.attest, v.eph, v.arkEncap, Whole)
  }

  function ArksHello(p: Params, v: Values): Envelope {
    A.Hello(ArkCfg(p), KeysOf(v), Answering(p, v))
  }

  function HostsAck(p: Params, v: Values): Envelope {
    H.Ack(KeysOf(v), ArksHello(p, v).payload, p.arkSigner, v.hostEncap)
  }

  /** The names are new and differ from each other. */
  predicate New(used: set<nat>, v: Values) {
    && v.signer !in used && v.crypto !in used + {v.signer} && v.eph !in used + {v.signer, v.crypto}
    && v.arkEncap !in used + {v.signer, v.crypto, v.eph}
    && v.hostEncap !in used + {v.signer, v.crypto, v.eph, v.arkEncap}
  }

  /** The values can be used, and what the handshake sends of them fits a frame. */
  ghost predicate Workable(p: Params, v: Values) {
    && Lawful(p.suite, Limits.SEAL_OVERHEAD) && p.suite.wellShaped(v.attest)
    && p.suite.keyOk(v.crypto) && p.suite.keyOk(v.eph) && p.suite.encapOk(v.arkEncap) && p.suite.encapOk(v.hostEncap)
    && Fits(p.max, p.suite.encodeHello(KeysOf(v))) && Fits(p.max, p.suite.sealEnvelope(ArksHello(p, v)))
    && Fits(p.max, p.suite.sealEnvelope(HostsAck(p, v))) && NoArkHello(p.suite, [], v.eph)
  }

  /** Nothing is in flight and nobody has a session; as in the beginning, for instance. */
  ghost predicate Quiet(p: Params, f: Fifo, v: Values) {
    && Good(p, f) && f.toArk == [] && f.toHost == [] && f.sys.ark.Idle? && f.sys.host.Down?
    && New(f.sys.world.used, v) && Unanswered(f.sys, KeysOf(v))
  }

  // --------------------------------------------------------------- step by step

  lemma Begins(p: Params, f: Fifo, v: Values) returns (f': Fifo)
    requires Workable(p, v) && Quiet(p, f, v)
    ensures Step(p, f, HostBegins(KeysOf(v), Whole, Whole), f')
    ensures f'.sys.host == H.Waiting(KeysOf(v), 0) && f'.sys.ark == f.sys.ark && f'.toHost == []
    ensures f'.sys.world.used == f.sys.world.used + {v.signer, v.crypto}
    ensures f'.toArk == [0] + ([0] + Framed(p.suite.encodeHello(KeysOf(v))))
  {
    var keys := KeysOf(v);
    var a := HostBegins(keys, Whole, Whole);
    var none: Bytes := [];
    forall i, j | 0 <= i <= j <= |none|
      ensures !IsHello(p.suite, Interpret(none[i..j]), keys)
    {}
    f' := Fifo(Next(p, f.sys, a), f.toArk + H.Begin(HostCfg(p), f.sys.world, keys, Whole, Whole).out, []);
    assert f'.toArk == [0] + ([0] + Framed(p.suite.encodeHello(keys)));
  }

  /** The Ark reads a delimiter at a frame boundary. */
  lemma Resets(p: Params, f: Fifo, rest: Bytes) returns (f': Fifo)
    requires f.toArk == [0] + rest
    ensures Step(p, f, ArkTakes(Plain(Reset)), f') && f' == Fifo(f.sys.(ark := A.AwaitHello), rest, f.toHost)
  {
    ZeroIsReset(p.max, rest);
    f' := Fifo(f.sys.(ark := A.AwaitHello), rest, f.toHost);
    assert f.toHost + [] == f.toHost;
  }

  lemma TwoSteps(p: Params, f: Fifo, ev: Event, g: Fifo, ev': Event, h: Fifo)
    requires Step(p, f, ArkTakes(ev), g) && Step(p, g, ArkTakes(ev'), h)
    ensures Goes(p, f, h, true)
  {
    var states, actions := [f, g, h], [ArkTakes(ev), ArkTakes(ev')];
    assert IsPath(p, states, actions) && states[|actions|] == h;
  }

  /** The host knocks and the Ark, reading the two delimiters, awaits its hello. */
  lemma Knocks(p: Params, f: Fifo, v: Values) returns (f1: Fifo, f3: Fifo)
    requires Workable(p, v) && Quiet(p, f, v)
    ensures Step(p, f, HostBegins(KeysOf(v), Whole, Whole), f1)
    ensures f1.sys.host == H.Waiting(KeysOf(v), 0) && f1.toHost == []
    ensures Goes(p, f1, f3, true) && Good(p, f3)
    ensures f3 == Fifo(f1.sys.(ark := A.AwaitHello), Framed(p.suite.encodeHello(KeysOf(v))), [])
    ensures f3.sys.world.used == f.sys.world.used + {v.signer, v.crypto}
  {
    var hello := Framed(p.suite.encodeHello(KeysOf(v)));
    f1 := Begins(p, f, v);
    NextGood(p, f, HostBegins(KeysOf(v), Whole, Whole), f1);
    var f2 := Resets(p, f1, [0] + hello);
    NextGood(p, f1, ArkTakes(Plain(Reset)), f2);
    f3 := Resets(p, f2, hello);
    NextGood(p, f2, ArkTakes(Plain(Reset)), f3);
    TwoSteps(p, f1, Plain(Reset), f2, Plain(Reset), f3);
  }

  /** The Ark answers, its hello being all that is in flight. */
  lemma Replies(p: Params, f: Fifo, v: Values, used: set<nat>) returns (f': Fifo)
    requires Workable(p, v) && Good(p, f) && f.sys.host == H.Waiting(KeysOf(v), 0) && f.sys.ark.AwaitHello?
    requires f.toArk == Framed(p.suite.encodeHello(KeysOf(v))) && f.toHost == []
    requires New(used, v) && f.sys.world.used == used + {v.signer, v.crypto}
    ensures Step(p, f, ArkTakes(Answering(p, v)), f') && Good(p, f')
    ensures f'.toArk == [] && f'.toHost == Framed(p.suite.sealEnvelope(ArksHello(p, v)))
    ensures f'.sys.world == Sign(Draw(f.sys.world, {v.eph, v.arkEncap}), ArksHello(p, v))
    ensures Replied(p, f', KeysOf(v), [p.suite.sealEnvelope(ArksHello(p, v))]) && f'.sys.ark.eph == v.eph
    ensures f'.sys.arkRuns[v.eph] == ArkRun(KeysOf(v), v.attest, v.arkEncap) && f'.sys.host == f.sys.host
  {
    var packet, reply := p.suite.encodeHello(KeysOf(v)), p.suite.sealEnvelope(ArksHello(p, v));
    var ev := Answering(p, v);
    assert Framed(packet) == Framed(packet) + [];
    FramedIsNext(p.max, packet, []);
    assert A.Answered(ArkCfg(p), ArkState(f.sys), ev.input) == Some(KeysOf(v));
    f' := Fifo(Next(p, f.sys, ArkTakes(ev)), [], f.toHost + A.Receive(ArkCfg(p), ArkState(f.sys), ev).1.out);
    NextGood(p, f, ArkTakes(ev), f');
    var queue: seq<Bytes> := [reply];
    assert queue[..0] == [];
    assert HelloOf(p, v.eph, f'.sys.arkRuns[v.eph]) == ArksHello(p, v);
    assert f'.toHost == Framed(reply);
  }

  function Accepting(p: Params, v: Values): Event {
    Plain(Packet(p.suite.sealEnvelope(ArksHello(p, v)))).(encap := v.hostEncap)
  }

  /** The host accepts and acknowledges. */
  lemma Accepts(p: Params, f: Fifo, v: Values, verifier: H.Verifier) returns (f': Fifo)
    requires Workable(p, v) && Good(p, f) && f.sys.host == H.Waiting(KeysOf(v), 0)
    requires Replied(p, f, KeysOf(v), [p.suite.sealEnvelope(ArksHello(p, v))]) && f.sys.ark.eph == v.eph
    requires f.sys.arkRuns[v.eph] == ArkRun(KeysOf(v), v.attest, v.arkEncap)
    requires f.toArk == [] && f.toHost == Framed(p.suite.sealEnvelope(ArksHello(p, v)))
    requires v.hostEncap !in f.sys.world.used && verifier(v.attest) == Some(p.arkSigner)
    ensures Step(p, f, HostPolls(verifier, Accepting(p, v)), f')
    ensures f'.sys.host.Up? && AnsweredThis(p, f'.sys) && f'.sys.hostRuns[f'.sys.run].encap == v.hostEncap
  {
    var hello, ev := p.suite.sealEnvelope(ArksHello(p, v)), Accepting(p, v);
    assert Framed(hello) == Framed(hello) + [];
    FramedIsNext(p.max, hello, []);
    f' := Fifo(AfterHostPolls(p, f.sys, verifier, ev),
               f.toArk + H.Poll(HostCfg(p), HostState(f.sys), verifier, ev).out, []);
    assert [hello][0] == hello;
    WelcomeIsAnswered(p, f, verifier, ev, f', KeysOf(v), [hello]);
  }

  /** The Ark reads the acknowledgement, and both hold the session. */
  lemma Completes(p: Params, f: Fifo, v: Values) returns (ev: Event, f': Fifo)
    requires Workable(p, v) && Good(p, f) && AnsweredThis(p, f.sys) && f.sys.hostRuns[f.sys.run].encap == v.hostEncap
    ensures Step(p, f, ArkTakes(ev), f') && HoldSame(f'.sys)
  {
    AnsweredIsAhead(p, f);
    var ack := p.suite.sealEnvelope(AckOf(f.sys.hostRuns[f.sys.run]));
    var rest := HostData(p, f.sys, 0);
    FramedIsNext(p.max, ack, rest);
    ev := Plain(Packet(ack));
    f' := Fifo(Next(p, f.sys, ArkTakes(ev)), rest, f.toHost + A.Receive(ArkCfg(p), ArkState(f.sys), ev).1.out);
    AckCompletes(p, f, ev, f');
  }

  // ------------------------------------------------------------------ as a call

  lemma Signing(w: World, names: set<nat>, e: Envelope)
    ensures Sign(Draw(w, names), e) == Grown(w, Growth(names, {}, {e}, map[]))
  {
    var none: seq<Bytes> := [];
    var grown := Grown(w, Growth(names, {}, {e}, map[]));
    forall ctx | ctx in w.sealed
      ensures grown.sealed[ctx] == w.sealed[ctx] + none == w.sealed[ctx]
    {}
    assert grown.sealed == w.sealed;
  }

  /** What goes on elsewhere between the host's beginning and its read. */
  function Meanwhile(p: Params, v: Values): Interlude {
    var hello := ArksHello(p, v);
    Interlude(Framed(p.suite.sealEnvelope(hello)), Growth({v.eph, v.arkEncap}, {}, {hello}, map[]))
  }

  /** From the host's beginning to the Ark's reply. */
  lemma UpToReply(p: Params, f: Fifo, v: Values) returns (f1: Fifo, f4: Fifo)
    requires Workable(p, v) && Quiet(p, f, v)
    ensures Step(p, f, HostBegins(KeysOf(v), Whole, Whole), f1)
    ensures f1.sys.host == H.Waiting(KeysOf(v), 0) && f1.toHost == []
    ensures ArkFills(p, f1, Meanwhile(p, v), f4) && Good(p, f4) && f4.sys.host == H.Waiting(KeysOf(v), 0)
    ensures Replied(p, f4, KeysOf(v), [p.suite.sealEnvelope(ArksHello(p, v))]) && f4.sys.ark.eph == v.eph
    ensures f4.sys.arkRuns[v.eph] == ArkRun(KeysOf(v), v.attest, v.arkEncap)
    ensures f4.toArk == [] && f4.toHost == Framed(p.suite.sealEnvelope(ArksHello(p, v)))
    ensures v.hostEncap !in f4.sys.world.used
  {
    var f3;
    f1, f3 := Knocks(p, f, v);
    f4 := Replies(p, f3, v, f.sys.world.used);
    Signing(f3.sys.world, {v.eph, v.arkEncap}, ArksHello(p, v));
    ArkFilled(p, f1, f3, Answering(p, v), f4, Meanwhile(p, v));
  }

  lemma ArkFilled(p: Params, f1: Fifo, f3: Fifo, ev: Event, f4: Fifo, m: Interlude)
    requires Goes(p, f1, f3, true) && Step(p, f3, ArkTakes(ev), f4)
    requires f4.toHost == f1.toHost + m.arrived && f4.sys.world == Grown(f1.sys.world, m.others)
    ensures ArkFills(p, f1, m, f4)
  {
    var states, actions :|
      && IsPath(p, states, actions) && states[0] == f1 && states[|actions|] == f3
      && forall i :: 0 <= i < |actions| ==> IsArks(actions[i]) == true;
    var states', actions' := states + [f4], actions + [ArkTakes(ev)];
    forall i | 0 <= i < |actions'|
      ensures Step(p, states'[i], actions'[i], states'[i + 1]) && IsArks(actions'[i])
    {
      if i < |actions| {
        assert Step(p, states[i], actions[i], states[i + 1]) && IsArks(actions[i]) == true;
      }
    }
    assert IsPath(p, states', actions') && states'[|actions'|] == f4;
  }

  lemma Travelled(p: Params, f: Fifo, keys: HostHello, f1: Fifo, f4: Fifo, verifier: H.Verifier, poll: Event, f5: Fifo,
                  ack: Event, f6: Fifo)
    requires Step(p, f, HostBegins(keys, Whole, Whole), f1) && Goes(p, f1, f4, true)
    requires Step(p, f4, HostPolls(verifier, poll), f5) && Step(p, f5, ArkTakes(ack), f6)
    ensures Reaches(p, f, f6)
  {
    NowhereReached(p, f);
    StepReaches(p, f, f, HostBegins(keys, Whole, Whole), f1);
    GoesReaches(p, f, f1, f4, true);
    StepReaches(p, f, f4, HostPolls(verifier, poll), f5);
    StepReaches(p, f, f5, ArkTakes(ack), f6);
  }

  lemma CallWoven(p: Params, f1: Fifo, verifier: H.Verifier, turn: Turn, f4: Fifo, f5: Fifo)
    requires ArkFills(p, f1, turn.meanwhile, f4) && Step(p, f4, HostPolls(verifier, turn.ev), f5)
    ensures HostWoven(p, verifier, f1, [turn], f5)
  {
    assert [turn][..0] == [];
    assert HostWoven(p, verifier, f1, [turn][..0], f1);
    assert ArkFills(p, f1, [turn][0].meanwhile, f4) && f5 == AfterPoll(p, f4, verifier, [turn][0].ev);
  }

  lemma CallSucceeds(p: Params, f: Fifo, verifier: H.Verifier, keys: HostHello, f1: Fifo, f4: Fifo, turn: Turn,
                     f5: Fifo, sent: Bytes)
    requires Step(p, f, HostBegins(keys, Whole, Whole), f1) && f1.sys.host == H.Waiting(keys, 0) && f1.toHost == []
    requires ArkFills(p, f1, turn.meanwhile, f4) && Step(p, f4, HostPolls(verifier, turn.ev), f5) && f5.sys.host.Up?
    ensures var begun := H.Begin(HostCfg(p), f.sys.world, keys, Whole, Whole);
            var start := H.View([], sent + begun.out, begun.state);
            exists b: H.View :: b.state.phase.Up? && H.Journey(HostCfg(p), verifier, start, [turn], b, Ok(()))
  {
    GoesKeepsPhase(p, f1, f4, true);
    var begun := H.Begin(HostCfg(p), f.sys.world, keys, Whole, Whole);
    var start := H.View([], sent + begun.out, begun.state);
    H.JourneyStart(HostCfg(p), verifier, start);
    var step := H.Poll(HostCfg(p), HostState(f4.sys), verifier, turn.ev);
    assert H.Waited(start, turn.meanwhile).state == HostState(f4.sys);
    var b := H.View(f5.toHost, start.sent + step.out, step.state);
    var turns' := H.JourneyStep(HostCfg(p), verifier, start, [], start, turn, b);
    assert turns' == [turn];
  }

  /**
   A handshake goes through: from any quiet state there is a run that ends with both sides
   in the same session, and the host's part of it is a call that succeeds, the Ark acting
   between its beginning and its only read.
   */
  lemma HandshakeGoesThrough(p: Params, f: Fifo, v: Values, verifier: H.Verifier, sent: Bytes)
    returns (f1: Fifo, turn: Turn, f5: Fifo, f6: Fifo)
    requires Workable(p, v) && Quiet(p, f, v) && verifier(v.attest) == Some(p.arkSigner)
    ensures Reaches(p, f, f6) && HoldSame(f6.sys)
    ensures Step(p, f, HostBegins(KeysOf(v), Whole, Whole), f1) && HostWoven(p, verifier, f1, [turn], f5)
    ensures var begun := H.Begin(HostCfg(p), f.sys.world, KeysOf(v), Whole, Whole);
            var start := H.View([], sent + begun.out, begun.state);
            exists b: H.View :: b.state.phase.Up? && H.Journey(HostCfg(p), verifier, start, [turn], b, Ok(()))
  {
    var f4, ack;
    f1, f4 := UpToReply(p, f, v);
    f5 := Accepts(p, f4, v, verifier);
    turn := Turn(Meanwhile(p, v), Accepting(p, v));
    NextGood(p, f4, HostPolls(verifier, turn.ev), f5);
    ack, f6 := Completes(p, f5, v);
    Travelled(p, f, KeysOf(v), f1, f4, verifier, turn.ev, f5, ack, f6);
    CallWoven(p, f1, verifier, turn, f4, f5);
    CallSucceeds(p, f, verifier, KeysOf(v), f1, f4, turn, f5, sent);
  }

  // ------------------------------------------------------------------ in numbers

  /** An Ark known by key 0, and what the handshake draws. */
  const SomeParams := Params(100, Plainly(), 0)
  const SomeValues := Values(1, 2, 3, 4, 5, [])

  lemma ShortFits(numbers: seq<nat>)
    requires Sum(numbers) + |numbers| <= 98
    ensures Fits(100, Spelled(numbers))
  {
    SpelledLength(numbers);
  }

  lemma HostsHelloFits()
    ensures Fits(100, Plainly().encodeHello(HostHello(1, 2)))
  {
    SumFromFront([1, 2]);
    SumFromFront([2]);
    ShortFits([1, 2]);
  }

  lemma ArksHelloFits()
    ensures Fits(100, Plainly().sealEnvelope(Envelope(ArkHello([], 3, 4), HelloAuth(1, 2), 0, 2)))
  {
    var numbers := [0, 3, 4, 0, 1, 2, 0, 2];
    assert OfEnvelope(Envelope(ArkHello([], 3, 4), HelloAuth(1, 2), 0, 2)) == numbers;
    SumOfEight(0, 3, 4, 0, 1, 2, 0, 2);
    ShortFits(numbers);
  }

  lemma HostsAckFits()
    ensures Fits(100, Plainly().sealEnvelope(Envelope(HostAck(5), AckAuth(0, 3), 1, 3)))
  {
    var numbers := [1, 0, 5, 1, 0, 3, 1, 3];
    assert OfEnvelope(Envelope(HostAck(5), AckAuth(0, 3), 1, 3)) == numbers;
    SumOfEight(1, 0, 5, 1, 0, 3, 1, 3);
    ShortFits(numbers);
  }

  lemma SomeWorkable()
    ensures Workable(SomeParams, SomeValues)
  {
    PlainlyLawful();
    HostsHelloFits();
    ArksHelloFits();
    HostsAckFits();
    NothingToRead();
  }

  lemma SumOfEight(a: nat, b: nat, c: nat, d: nat, e: nat, f: nat, g: nat, h: nat)
    ensures Sum([a, b, c, d, e, f, g, h]) == a + b + c + d + e + f + g + h
  {
    SumFromFront([a, b, c, d, e, f, g, h]);
    SumFromFront([b, c, d, e, f, g, h]);
    SumFromFront([c, d, e, f, g, h]);
    SumFromFront([d, e, f, g, h]);
    SumFromFront([e, f, g, h]);
    SumFromFront([f, g, h]);
    SumFromFront([g, h]);
    SumFromFront([h]);
  }

  lemma NothingToRead()
    ensures NoArkHello(Plainly(), [], 3)
  {
    var none: Bytes := [];
    FirstZeroNone(none);
    forall i, j | 0 <= i <= j <= |none|
      ensures !IsArkHello(Plainly(), Interpret(none[i..j]), 3)
    {
      assert none[i..j] == none;
    }
  }

  const Start :=
    Fifo(Sys(World({0}, {0}, {}, map[]), A.Idle, H.Down, {}, {}, 0, map[], map[], [], map[]), [], [])

  lemma StartsQuiet()
    ensures Init(SomeParams, Start.sys) && Quiet(SomeParams, Start, SomeValues)
  {
    InitGood(SomeParams, Start);
  }

  /** There are an Ark, a host and a run from the very beginning in which they come to share a session. */
  lemma Example() returns (f: Fifo)
    ensures Init(SomeParams, Start.sys) && Start.toArk == [] && Start.toHost == []
    ensures Reaches(SomeParams, Start, f) && HoldSame(f.sys)
  {
    StartsQuiet();
    SomeWorkable();
    var _, _, _, last := HandshakeGoesThrough(SomeParams, Start, SomeValues, _ => Some(0), []);
    f := last;
  }
}
