/**
 An Ark and a host joined by two first-in-first-out byte streams: bytes are written,
 possibly cut short by a failed write, and read in any fragmentation, but nobody else
 writes. Everything below is about the bytes themselves, through framing and encoding.
 */
module Lockstep {
  import opened Bytes
  import opened Channel
  import opened Crypto
  import opened Network
  import opened Packets
  import opened Splitter
  import opened Transport
  import opened Turns
  import A = ArkMachine
  import Agreement
  import Cobs
  import Delivery
  import H = HostMachine
  import Limits

  /** Both ends and all bytes written but not consumed, whether in transit or buffered by a framer. */
  datatype Fifo = Fifo(sys: Sys, toArk: Bytes, toHost: Bytes)

  /**
   One step. A key drawn in it is not one somebody guessed: the bytes in flight towards
   the peer, read as frames, do not name it already.
   */
  ghost predicate Step(p: Params, f: Fifo, a: Action, f': Fifo) {
    && Enabled(p, f.sys, a) && f'.sys == Next(p, f.sys, a)
    && match a
       case ArkTakes(ev) =>
         && NextInput(p.max, f.toArk) == Some((ev.input, f'.toArk))
         && f'.toHost == f.toHost + A.Receive(ArkCfg(p), ArkState(f.sys), ev).1.out
         && (A.Answered(ArkCfg(p), ArkState(f.sys), ev.input).Some? ==> NoArkHello(p.suite, f.toHost, ev.eph))
       case ArkSends(msg, write) =>
         f'.toArk == f.toArk && f'.toHost == f.toHost + A.Send(ArkCfg(p), ArkState(f.sys), msg, write).1
       case ArkFails => Interrupted(p.max, f.toArk, f'.toArk) && f'.toHost == f.toHost
       case HostBegins(keys, reset, write) =>
         && f'.toArk == f.toArk + H.Begin(HostCfg(p), f.sys.world, keys, reset, write).out && f'.toHost == f.toHost
         && NoHello(p.suite, f.toArk, keys) && Unanswered(f.sys, keys)
       case HostPolls(verifier, ev) =>
         && NextInput(p.max, f.toHost) == Some((ev.input, f'.toHost))
         && f'.toArk == f.toArk + H.Poll(HostCfg(p), HostState(f.sys), verifier, ev).out
       case HostTakes(input) => NextInput(p.max, f.toHost) == Some((input, f'.toHost)) && f'.toArk == f.toArk
       case HostSends(msg, write) =>
         f'.toHost == f.toHost && f'.toArk == f.toArk + H.Send(HostCfg(p), HostState(f.sys), msg, write).out
       case HostFails => Interrupted(p.max, f.toHost, f'.toHost) && f'.toArk == f.toArk
       case _ => false
  }

  /** The Ark has not answered any hello naming one of these keys. */
  ghost predicate Unanswered(s: Sys, keys: HostHello) {
    forall k :: k in s.arkRuns ==> !Names(s.arkRuns[k].hello, keys)
  }

  // ---------------------------------------------------- there are names to draw

  function HelloNames(suite: Suite, input: Input): set<Key> {
    if input.Packet? && suite.decodeHello(input.data).Some?
    then var hello := suite.decodeHello(input.data).value; {hello.signer, hello.crypto} else {}
  }

  function ArkHelloNames(suite: Suite, input: Input): set<Key> {
    match suite.readEnvelope(if input.Packet? then input.data else [])
    case None => {}
    case Some(e) => if e.payload.ArkHello? then {e.payload.crypto} else {}
  }

  lemma {:induction false} Above(names: set<nat>) returns (k: nat)
    ensures forall x :: x in names ==> x < k
    decreases names
  {
    if names == {} {
      k := 0;
    } else {
      var x :| x in names;
      var above := Above(names - {x});
      k := if above <= x then x + 1 else above;
      assert forall y :: y in names ==> y == x || y in names - {x};
    }
  }

  /** Whatever is in flight, a host that does not wait can begin a run with keys nobody guessed. */
  lemma HostCanBegin(p: Params, f: Fifo, reset: Write, write: Write) returns (keys: HostHello, f': Fifo)
    requires !f.sys.host.Waiting?
    ensures Step(p, f, HostBegins(keys, reset, write), f')
  {
    var s := f.toArk;
    var inFlight := set i: nat, j: nat, k | 0 <= i <= j <= |s| && k in HelloNames(p.suite, Interpret(s[i..j])) :: k;
    var runs := f.sys.arkRuns;
    var signers, cryptos := set r | r in runs :: runs[r].hello.signer, set r | r in runs :: runs[r].hello.crypto;
    var key := Above(f.sys.world.used + inFlight + signers + cryptos);
    keys := HostHello(key, key + 1);
    forall i, j | 0 <= i <= j <= |s|
      ensures !IsHello(p.suite, Interpret(s[i..j]), keys)
    {
      assert HelloNames(p.suite, Interpret(s[i..j])) <= inFlight;
    }
    forall r | r in runs
      ensures !Names(runs[r].hello, keys)
    {
      assert runs[r].hello.signer in signers && runs[r].hello.crypto in cryptos;
    }
    var a := HostBegins(keys, reset, write);
    f' := Fifo(Next(p, f.sys, a), f.toArk + H.Begin(HostCfg(p), f.sys.world, keys, reset, write).out, f.toHost);
  }

  /** Whatever is in flight, an Ark can take its next input with names nobody guessed. */
  lemma ArkCanTake(p: Params, f: Fifo, attest: Bytes, write: Write) returns (ev: Event, f': Fifo)
    requires NextInput(p.max, f.toArk).Some?
    ensures Step(p, f, ArkTakes(ev), f') && ev.attest == attest && ev.write == write
  {
    var s := f.toHost;
    var inFlight := set i: nat, j: nat, k | 0 <= i <= j <= |s| && k in ArkHelloNames(p.suite, Interpret(s[i..j])) :: k;
    var key := Above(f.sys.world.used + inFlight);
    var (input, rest) := NextInput(p.max, f.toArk).value;
    ev := Event(input, attest, key, key + 1, write);
    forall i, j | 0 <= i <= j <= |s|
      ensures !IsArkHello(p.suite, Interpret(s[i..j]), key)
    {
      assert ArkHelloNames(p.suite, Interpret(s[i..j])) <= inFlight;
    }
    f' := Fifo(Next(p, f.sys, ArkTakes(ev)), rest, s + A.Receive(ArkCfg(p), ArkState(f.sys), ev).1.out);
  }

  // ------------------------------------------------- frames are never oversized

  /** What the live parties sent, they sent in whole frames the peer keeps. */
  ghost predicate SentWhole(p: Params, s: Sys) {
    HostSentWhole(p, s) && ArkSentWhole(p, s)
  }

  ghost predicate HostSentWhole(p: Params, s: Sys) {
    match s.host
    case Waiting(keys, _) => Fits(p.max, p.suite.encodeHello(keys))
    case Up(link) =>
      && s.run in s.hostRuns && s.hostRuns[s.run].hello.ArkHello?
      && Fits(p.max, p.suite.encodeHello(s.hostRuns[s.run].keys))
      && Fits(p.max, p.suite.sealEnvelope(AckOf(s.hostRuns[s.run])))
      && SealedFit(p.max, p.suite, link.sender.ctx, SealedIn(s.world, link.sender.ctx))
    case Down => true
  }

  ghost predicate ArkSentWhole(p: Params, s: Sys) {
    match s.ark
    case AwaitAck(_, eph, sender) =>
      && sender.seqno == 0 && eph in s.arkRuns
      && Fits(p.max, p.suite.sealEnvelope(HelloOf(p, eph, s.arkRuns[eph])))
    case Live(link) => SealedFit(p.max, p.suite, link.sender.ctx, SealedIn(s.world, link.sender.ctx))
    case _ => true
  }

  /** The part of the invariant that does not look at the streams. */
  ghost predicate Sound(p: Params, s: Sys) {
    Provenance(p, s) && Delivery.Inv(s) && SentWhole(p, s)
  }

  lemma ArkRepliesSentWhole(p: Params, s: Sys, ev: Event)
    requires Enabled(p, s, ArkTakes(ev)) && A.Answered(ArkCfg(p), ArkState(s), ev.input).Some?
    ensures ArkSentWhole(p, Next(p, s, ArkTakes(ev)))
  {}

  lemma ArkGoesOnSentWhole(p: Params, s: Sys, ev: Event)
    requires ArkSentWhole(p, s) && Delivery.ArkPlace(s)
    requires Enabled(p, s, ArkTakes(ev)) && A.Answered(ArkCfg(p), ArkState(s), ev.input).None?
    ensures ArkSentWhole(p, Next(p, s, ArkTakes(ev)))
  {
    if s.ark.AwaitAck? && Next(p, s, ArkTakes(ev)).ark.Live? {
      assert SealedIn(s.world, s.ark.sender.ctx) == [];
    }
  }

  lemma ArkTakesSentWhole(p: Params, s: Sys, a: Action)
    requires SentWhole(p, s) && Delivery.ArkPlace(s) && Enabled(p, s, a) && a.ArkTakes?
    ensures SentWhole(p, Next(p, s, a))
  {
    ArkTakesAside(p, s, a.ev);
    if A.Answered(ArkCfg(p), ArkState(s), a.ev.input).Some? {
      ArkRepliesSentWhole(p, s, a.ev);
    } else {
      ArkGoesOnSentWhole(p, s, a.ev);
    }
  }

  lemma HostPollsSentWhole(p: Params, s: Sys, a: Action)
    requires SentWhole(p, s) && Delivery.Drawn(s) && HostKnows(s) && Enabled(p, s, a) && a.HostPolls?
    ensures SentWhole(p, Next(p, s, a))
  {
    var s' := Next(p, s, a);
    if s'.host.Up? {
      assert s'.host.link.sender.ctx !in s.world.sealed;
    }
  }

  lemma ArkSendsSentWhole(p: Params, s: Sys, a: Action)
    requires SentWhole(p, s) && Delivery.ArkPlace(s) && Delivery.HostPlace(s) && Enabled(p, s, a) && a.ArkSends?
    ensures SentWhole(p, Next(p, s, a))
  {}

  lemma HostSendsSentWhole(p: Params, s: Sys, a: Action)
    requires SentWhole(p, s) && Delivery.ArkPlace(s) && Delivery.HostPlace(s) && Enabled(p, s, a) && a.HostSends?
    ensures SentWhole(p, Next(p, s, a))
  {}

  lemma HostBeginsSentWhole(p: Params, s: Sys, a: Action)
    requires SentWhole(p, s) && Enabled(p, s, a) && a.HostBegins?
    ensures SentWhole(p, Next(p, s, a))
  {}

  lemma HostTakesSentWhole(p: Params, s: Sys, a: Action)
    requires SentWhole(p, s) && Enabled(p, s, a) && a.HostTakes?
    ensures SentWhole(p, Next(p, s, a))
  {}

  lemma NextSentWhole(p: Params, s: Sys, a: Action)
    requires Sound(p, s) && Enabled(p, s, a) && !a.OutsiderDraws? && !a.OutsiderSeals?
    ensures SentWhole(p, Next(p, s, a))
  {
    match a
    case ArkTakes(_) => ArkTakesSentWhole(p, s, a);
    case HostPolls(_, _) => HostPollsSentWhole(p, s, a);
    case ArkSends(_, _) => ArkSendsSentWhole(p, s, a);
    case HostSends(_, _) => HostSendsSentWhole(p, s, a);
    case HostBegins(_, _, _) => HostBeginsSentWhole(p, s, a);
    case HostTakes(_) => HostTakesSentWhole(p, s, a);
    case ArkFails =>
    case HostFails =>
  }

  lemma NextSound(p: Params, s: Sys, a: Action)
    requires Sound(p, s) && Enabled(p, s, a) && !a.OutsiderDraws? && !a.OutsiderSeals?
    ensures Sound(p, Next(p, s, a))
  {
    Agreement.NextProvenance(p, s, a);
    Delivery.NextInv(p, s, a);
    NextSentWhole(p, s, a);
  }

  // -------------------------------------------- where the Ark is in a run

  /** The keys of the host's current run. */
  function Keys(s: Sys): HostHello {
    match s.host
    case Waiting(keys, _) => keys
    case Up(_) => if s.run in s.hostRuns then s.hostRuns[s.run].keys else HostHello(0, 0)
    case Down => HostHello(0, 0)
  }

  /** What the host wrote in its current run after the hello. */
  function AfterHello(p: Params, s: Sys): Bytes {
    if s.host.Up? && s.run in s.hostRuns && s.hostRuns[s.run].hello.ArkHello?
    then Framed(p.suite.sealEnvelope(AckOf(s.hostRuns[s.run]))) + HostData(p, s, 0)
    else []
  }

  /** The host's sealed messages of the current session from the `n`-th on, framed. */
  function HostData(p: Params, s: Sys, n: nat): Bytes {
    if s.host.Up?
    then SealedFrames(p.suite, s.host.link.sender.ctx, SealedIn(s.world, s.host.link.sender.ctx), n)
    else []
  }

  /** The Ark's sealed messages of the current session from the `n`-th on, framed. */
  function ArkData(p: Params, s: Sys, n: nat): Bytes {
    if s.ark.Live?
    then SealedFrames(p.suite, s.ark.link.sender.ctx, SealedIn(s.world, s.ark.link.sender.ctx), n)
    else []
  }

  /** The hello of the current run and everything after it. */
  function Greeting(p: Params, s: Sys): Bytes {
    Framed(p.suite.encodeHello(Keys(s))) + AfterHello(p, s)
  }

  /** How far the Ark got in the bytes of the host's current run. */
  datatype Stage =
    | Before(ahead: Bytes) // still reading what was written before the run
    | Half // one reset delimiter to go
    | Greeted // past the reset
    | Answering // past the hello
    | Serving(n: nat) // past the acknowledgement and `n` messages

  ghost predicate At(p: Params, f: Fifo, st: Stage) {
    var s := f.sys;
    && !s.host.Down?
    && match st
       case Before(ahead) =>
         && f.toArk == ahead + ([0] + ([0] + Greeting(p, s)))
         && NoHello(p.suite, ahead, Keys(s)) && Unanswered(s, Keys(s))
       case Half => f.toArk == [0] + Greeting(p, s) && Unanswered(s, Keys(s))
       case Greeted =>
         f.toArk == Greeting(p, s) && Unanswered(s, Keys(s)) && (s.ark.Idle? || s.ark.AwaitHello?)
       case Answering =>
         && f.toArk == AfterHello(p, s)
         && (s.ark.Idle? || (s.ark.AwaitAck? && s.ark.hello == Keys(s) && HelloPending(p, f)))
       case Serving(n) =>
         && s.host.Up? && n <= |SealedIn(s.world, s.host.link.sender.ctx)| && f.toArk == HostData(p, s, n)
         && (s.ark.Idle? || (s.ark.Live? && InStep(p, f, n)))
  }

  /** The Ark's hello is the last thing the host has to read, or the host has read it. */
  ghost predicate HelloPending(p: Params, f: Fifo)
    requires f.sys.ark.AwaitAck?
  {
    && (f.sys.host.Waiting? ==> f.toHost == [] || exists ahead :: HelloBehind(p, f, ahead))
    && (AnsweredThis(p, f.sys) ==> f.toHost == [])
  }

  /** The host is up on this Ark's identity and the hello of the handshake the Ark is in. */
  ghost predicate AnsweredThis(p: Params, s: Sys) {
    && s.ark.AwaitAck? && s.host.Up? && s.run in s.hostRuns && s.hostRuns[s.run].hello.ArkHello?
    && s.hostRuns[s.run].identity == p.arkSigner && s.hostRuns[s.run].hello.crypto == s.ark.eph
  }

  ghost predicate HelloBehind(p: Params, f: Fifo, ahead: Bytes) {
    && f.sys.ark.AwaitAck? && f.sys.ark.eph in f.sys.arkRuns
    && f.toHost == ahead + Framed(p.suite.sealEnvelope(HelloOf(p, f.sys.ark.eph, f.sys.arkRuns[f.sys.ark.eph])))
    && NoArkHello(p.suite, ahead, f.sys.ark.eph)
  }

  /** Both sides hold the same contexts, and all that was sealed but not opened is in flight, in order. */
  ghost predicate InStep(p: Params, f: Fifo, n: nat)
    requires f.sys.ark.Live? && f.sys.host.Up?
  {
    var ark, host := f.sys.ark.link, f.sys.host.link;
    && ark.receiver.ctx == host.sender.ctx && ark.sender.ctx == host.receiver.ctx
    && ark.receiver.seqno == n && f.toHost == ArkData(p, f.sys, host.receiver.seqno)
  }

  /** While the host is not down, the Ark has a place in the bytes of its run. */
  ghost predicate Placed(p: Params, f: Fifo) {
    f.sys.host.Down? || exists st :: At(p, f, st)
  }

  ghost predicate Good(p: Params, f: Fifo) {
    Sound(p, f.sys) && Placed(p, f)
  }

  // ------------------------------------------------------- the Ark takes input

  /** What an Ark's step leaves alone. */
  lemma ArkTakesAside(p: Params, s: Sys, ev: Event)
    requires Enabled(p, s, ArkTakes(ev))
    ensures var s' := Next(p, s, ArkTakes(ev));
            s'.host == s.host && s'.run == s.run && s'.hostRuns == s.hostRuns && s'.world.sealed == s.world.sealed
  {
    A.ReceivingSealsNothing(ArkCfg(p), ArkState(s), ev);
  }

  /** The bytes of the host's run are a matter of the host and its records only. */
  lemma SameRun(p: Params, s: Sys, s': Sys)
    requires s'.host == s.host && s'.run == s.run && s'.hostRuns == s.hostRuns && s'.world.sealed == s.world.sealed
    ensures Keys(s') == Keys(s) && Greeting(p, s') == Greeting(p, s) && AfterHello(p, s') == AfterHello(p, s)
    ensures forall n :: HostData(p, s', n) == HostData(p, s, n)
  {}

  lemma ArkTakesFrame(p: Params, s: Sys, ev: Event)
    requires Enabled(p, s, ArkTakes(ev))
    ensures var s' := Next(p, s, ArkTakes(ev));
            && s'.host == s.host && s'.run == s.run && s'.hostRuns == s.hostRuns && s'.world.sealed == s.world.sealed
            && Keys(s') == Keys(s) && Greeting(p, s') == Greeting(p, s) && AfterHello(p, s') == AfterHello(p, s)
            && forall n :: HostData(p, s', n) == HostData(p, s, n)
  {
    ArkTakesAside(p, s, ev);
    SameRun(p, s, Next(p, s, ArkTakes(ev)));
  }

  lemma StaysUnanswered(p: Params, s: Sys, ev: Event, keys: HostHello)
    requires Enabled(p, s, ArkTakes(ev)) && Unanswered(s, keys)
    requires s.ark.AwaitHello? ==> !IsHello(p.suite, ev.input, keys)
    ensures Unanswered(Next(p, s, ArkTakes(ev)), keys)
  {}

  lemma ArkTakesBefore(p: Params, f: Fifo, ev: Event, f': Fifo, ahead: Bytes) returns (st': Stage)
    requires Step(p, f, ArkTakes(ev), f') && At(p, f, Before(ahead))
    ensures At(p, f', st') && !IsHello(p.suite, ev.input, Keys(f.sys))
    ensures st'.Before? || st'.Half? || (st'.Greeted? && f'.sys.ark.AwaitHello?)
  {
    var t := [0] + Greeting(p, f.sys);
    var keys := Keys(f.sys);
    ArkTakesFrame(p, f.sys, ev);
    var cut := AheadNext(p.max, ahead, t);
    if NextFrame(p.max, f.toArk) == NextFrame(p.max, t) {
      ZeroIsReset(p.max, Greeting(p, f.sys));
      st' := Greeted;
    } else {
      AheadIsNoHello(p.suite, ahead, NextFrame(p.max, f.toArk).value.0, cut, keys);
      StaysUnanswered(p, f.sys, ev, keys);
      if cut <= |ahead| {
        NoHelloLater(p.suite, ahead, cut, keys);
        st' := Before(ahead[cut..]);
      } else {
        st' := Half;
      }
    }
  }

  lemma ArkTakesHalf(p: Params, f: Fifo, ev: Event, f': Fifo)
    requires Step(p, f, ArkTakes(ev), f') && At(p, f, Half)
    ensures At(p, f', Greeted)
  {}

  /** What the Ark makes of a host's hello. */
  lemma GreetingAnswered(p: Params, s: Sys, ev: Event, keys: HostHello)
    requires Lawful(p.suite, Limits.SEAL_OVERHEAD) && Enabled(p, s, ArkTakes(ev))
    requires ev.input == Packet(p.suite.encodeHello(keys)) && (s.ark.Idle? || s.ark.AwaitHello?)
    ensures var s' := Next(p, s, ArkTakes(ev));
            s'.ark.Idle? || (&& s'.ark.AwaitAck? && s'.ark.hello == keys && s'.ark.eph == ev.eph
                             && s.ark.AwaitHello? && ev.eph in s'.arkRuns)
    ensures var s' := Next(p, s, ArkTakes(ev));
            s'.ark.AwaitAck? ==>
              A.Receive(ArkCfg(p), ArkState(s), ev).1.out
              == Framed(p.suite.sealEnvelope(HelloOf(p, ev.eph, s'.arkRuns[ev.eph])))
  {}

  lemma ArkTakesGreeting(p: Params, f: Fifo, ev: Event, f': Fifo)
    requires Lawful(p.suite, Limits.SEAL_OVERHEAD) && Sound(p, f.sys)
    requires Step(p, f, ArkTakes(ev), f') && At(p, f, Greeted)
    ensures At(p, f', Answering)
  {
    var s, s' := f.sys, f'.sys;
    var keys := Keys(s);
    ArkTakesFrame(p, s, ev);
    FramedIsNext(p.max, p.suite.encodeHello(keys), AfterHello(p, s));
    GreetingAnswered(p, s, ev, keys);
    if s'.ark.AwaitAck? {
      assert A.Answered(ArkCfg(p), ArkState(s), ev.input).Some?;
      assert HelloBehind(p, f', f.toHost);
      if s.host.Up? {
        NotThisArk(p, s);
      }
    }
  }

  /** Before the Ark answered the current run's hello, the host cannot be up on this Ark's identity. */
  lemma NotThisArk(p: Params, s: Sys)
    requires Provenance(p, s) && s.host.Up? && Unanswered(s, Keys(s))
    ensures s.hostRuns[s.run].identity != p.arkSigner
  {}

  /** The Ark takes the acknowledgement: the sessions pair up, and nothing is in flight towards the host. */
  lemma ArkTakesAck(p: Params, f: Fifo, ev: Event, f': Fifo)
    requires Sound(p, f.sys) && Delivery.Inv(f'.sys)
    requires Step(p, f, ArkTakes(ev), f') && At(p, f, Answering)
    ensures At(p, f', Serving(0))
  {
    var s, s' := f.sys, f'.sys;
    ArkTakesFrame(p, s, ev);
    FirstZeroNone([]);
    assert s.host.Up?;
    FramedIsNext(p.max, p.suite.sealEnvelope(AckOf(s.hostRuns[s.run])), HostData(p, s, 0));
    if s'.ark.Live? {
      Agreement.AckIsFromRun(p, s, ev.input.data);
      assert AnsweredThis(p, s);
      assert SealedIn(s.world, s.ark.sender.ctx) == [];
      assert ReadIn(s', s.host.link.receiver.ctx) <= SealedIn(s.world, s.host.link.receiver.ctx);
    }
  }

  /** The Ark takes the next message of the session: it opens. */
  lemma ArkTakesMessage(p: Params, f: Fifo, ev: Event, f': Fifo, n: nat)
    requires HostSentWhole(p, f.sys)
    requires Step(p, f, ArkTakes(ev), f') && At(p, f, Serving(n))
    ensures n < |SealedIn(f.sys.world, f.sys.host.link.sender.ctx)| && At(p, f', Serving(n + 1))
  {
    var s, s' := f.sys, f'.sys;
    var ctx := s.host.link.sender.ctx;
    var msgs := SealedIn(s.world, ctx);
    ArkTakesFrame(p, s, ev);
    FirstZeroNone([]);
    assert n < |msgs|;
    DataNext(p.max, p.suite, ctx, msgs, n);
    if s.ark.Live? {
      ArkOpensNext(p, s, ev);
    }
  }

  lemma ArkOpensNext(p: Params, s: Sys, ev: Event)
    requires Enabled(p, s, ArkTakes(ev)) && s.ark.Live?
    requires var Endpoint(ctx, m) := s.ark.link.receiver;
             var msgs := SealedIn(s.world, ctx);
             m < |msgs| && m < p.suite.limit && ev.input == Packet(p.suite.sealData(ctx, m, msgs[m]))
    ensures var Endpoint(ctx, m) := s.ark.link.receiver;
            var link := s.ark.link.(receiver := Endpoint(ctx, m + 1));
            Next(p, s, ArkTakes(ev)) == s.(ark := A.Live(link), read := Reading(s, ctx, SealedIn(s.world, ctx)[m]))
  {}

  lemma ArkTakesKeeps(p: Params, f: Fifo, ev: Event, f': Fifo, st: Stage) returns (st': Stage)
    requires Lawful(p.suite, Limits.SEAL_OVERHEAD) && Sound(p, f.sys) && Delivery.Inv(f'.sys)
    requires Step(p, f, ArkTakes(ev), f') && At(p, f, st)
    ensures At(p, f', st')
  {
    match st
    case Before(ahead) => st' := ArkTakesBefore(p, f, ev, f', ahead);
    case Half => ArkTakesHalf(p, f, ev, f'); st' := Greeted;
    case Greeted => ArkTakesGreeting(p, f, ev, f'); st' := Answering;
    case Answering => ArkTakesAck(p, f, ev, f'); st' := Serving(0);
    case Serving(n) => ArkTakesMessage(p, f, ev, f', n); st' := Serving(n + 1);
  }

  // ------------------------------------------------------- the Ark's other steps

  lemma ArkSendsFrame(p: Params, s: Sys, a: Action)
    requires Delivery.ArkPlace(s) && Delivery.HostPlace(s) && a.ArkSends? && Enabled(p, s, a) && !s.host.Down?
    ensures var s' := Next(p, s, a);
            && Keys(s') == Keys(s) && Greeting(p, s') == Greeting(p, s) && AfterHello(p, s') == AfterHello(p, s)
            && (s.host.Up? ==> SealedIn(s'.world, s.host.link.sender.ctx) == SealedIn(s.world, s.host.link.sender.ctx))
  {}

  lemma ArkSendsKeeps(p: Params, f: Fifo, a: Action, f': Fifo, st: Stage)
    requires Delivery.ArkPlace(f.sys) && Delivery.HostPlace(f.sys) && Delivery.InOrder(f.sys)
    requires a.ArkSends? && Step(p, f, a, f') && At(p, f, st)
    ensures At(p, f', st)
  {
    var s, s' := f.sys, f'.sys;
    ArkSendsFrame(p, s, a);
    if st.Serving? && s.ark.Live? && s'.ark.Live? && s'.world.sealed != s.world.sealed {
      var ctx := s.ark.link.sender.ctx;
      assert s.host.link.receiver.seqno <= |SealedIn(s.world, ctx)| by {
        assert ReadIn(s, ctx) <= SealedIn(s.world, ctx);
      }
      DataGrows(p.suite, ctx, SealedIn(s.world, ctx), s.host.link.receiver.seqno, a.msg);
    }
  }

  lemma FramedFits(max: nat, packet: Bytes, rest: Bytes)
    requires Fits(max, packet)
    ensures FirstFits(max, Framed(packet) + rest)
  {
    Cobs.EncodeZeroFree(packet);
    Cobs.EncodeLength(packet);
    FirstPiece(Framed(packet) + rest, Cobs.Encode(packet), rest);
  }

  lemma ZeroFits(max: nat, rest: Bytes)
    ensures FirstFits(max, [0] + rest)
  {}

  /** No frame of the current run is oversized. */
  lemma RunFits(p: Params, s: Sys, n: nat)
    requires SentWhole(p, s) && !s.host.Down?
    ensures FirstFits(p.max, Greeting(p, s)) && FirstFits(p.max, AfterHello(p, s))
    ensures s.host.Up? ==> FirstFits(p.max, HostData(p, s, n))
  {
    FramedFits(p.max, p.suite.encodeHello(Keys(s)), AfterHello(p, s));
    if s.host.Up? {
      var ctx := s.host.link.sender.ctx;
      var msgs := SealedIn(s.world, ctx);
      FramedFits(p.max, p.suite.sealEnvelope(AckOf(s.hostRuns[s.run])), HostData(p, s, 0));
      if n < |msgs| {
        FramedFits(p.max, p.suite.sealData(ctx, n, msgs[n]), HostData(p, s, n + 1));
      }
    }
  }

  lemma ArkFailsKeeps(p: Params, f: Fifo, f': Fifo, st: Stage) returns (st': Stage)
    requires Sound(p, f.sys) && Step(p, f, ArkFails, f') && At(p, f, st)
    ensures At(p, f', st')
  {
    st' := st;
    RunFits(p, f.sys, if st.Serving? then st.n else 0);
    ZeroFits(p.max, Greeting(p, f.sys));
    if st.Before? {
      var t := [0] + Greeting(p, f.sys);
      var cut := InterruptedThrough(p.max, st.ahead, t, f'.toArk);
      if f'.toArk == t {
        st' := Half;
      } else {
        NoHelloLater(p.suite, st.ahead, cut, Keys(f.sys));
        st' := Before(st.ahead[cut..]);
      }
    } else {
      InterruptedKeeps(p.max, f.toArk, f'.toArk);
    }
  }

  // ----------------------------------------------------------- the host's steps

  lemma HostBeginsKeeps(p: Params, f: Fifo, a: Action, f': Fifo)
    requires a.HostBegins? && Step(p, f, a, f') && f'.sys.host.Waiting?
    ensures At(p, f', Before(f.toArk))
  {}

  /** More of the current run is written behind what is in flight. */
  lemma RunExtends(p: Params, f: Fifo, f': Fifo, st: Stage, out: Bytes)
    requires At(p, f, st) && !f'.sys.host.Down? && Keys(f'.sys) == Keys(f.sys) && f'.sys.arkRuns == f.sys.arkRuns
    requires f'.toArk == f.toArk + out && AfterHello(p, f'.sys) == AfterHello(p, f.sys) + out
    requires f'.sys.ark == f.sys.ark
    requires st.Answering? && f.sys.ark.AwaitAck? ==> HelloPending(p, f')
    requires !st.Serving?
    ensures At(p, f', st)
  {
    Regroup(Framed(p.suite.encodeHello(Keys(f.sys))), AfterHello(p, f.sys), out);
    assert Greeting(p, f'.sys) == Greeting(p, f.sys) + out;
    Regroup([0], Greeting(p, f.sys), out);
    if st.Before? {
      Regroup([0], [0] + Greeting(p, f.sys), out);
      Regroup(st.ahead, [0] + ([0] + Greeting(p, f.sys)), out);
    }
  }

  /** What a poll leaves of the Ark's hello, if that is the last thing to read. */
  lemma PollOverHello(p: Params, f: Fifo, ev: Event, rest: Bytes, ahead: Bytes) returns (ahead': Bytes)
    requires HelloBehind(p, f, ahead) && NextInput(p.max, f.toHost) == Some((ev.input, rest))
    ensures rest == [] || (HelloBehind(p, f.(toHost := rest), ahead') && !IsArkHello(p.suite, ev.input, f.sys.ark.eph))
  {
    var packet := p.suite.sealEnvelope(HelloOf(p, f.sys.ark.eph, f.sys.arkRuns[f.sys.ark.eph]));
    Cobs.EncodeZeroFree(packet);
    var cut := QueueNext(p.max, f.toHost, ahead, Cobs.Encode(packet));
    ahead' := [];
    if rest != [] {
      AheadIsNoArkHello(p.suite, ahead, NextFrame(p.max, f.toHost).value.0, cut, f.sys.ark.eph);
      NoArkHelloLater(p.suite, ahead, cut, f.sys.ark.eph);
      ahead' := ahead[cut..];
    }
  }

  /** The host comes up on an Ark's hello only by reading it. */
  lemma AnsweredByReading(p: Params, s: Sys, verifier: H.Verifier, ev: Event)
    requires HostKnows(s) && Enabled(p, s, HostPolls(verifier, ev))
    requires AnsweredThis(p, Next(p, s, HostPolls(verifier, ev)))
    ensures IsArkHello(p.suite, ev.input, s.ark.eph)
  {}

  lemma PollPending(p: Params, f: Fifo, verifier: H.Verifier, ev: Event, f': Fifo)
    requires Step(p, f, HostPolls(verifier, ev), f') && HostKnows(f.sys) && f.sys.ark.AwaitAck? && HelloPending(p, f)
    ensures HelloPending(p, f')
  {
    if AnsweredThis(p, f'.sys) {
      AnsweredByReading(p, f.sys, verifier, ev);
    }
    FirstZeroNone([]);
    var ahead :| HelloBehind(p, f, ahead);
    var ahead' := PollOverHello(p, f, ev, f'.toHost, ahead);
    if f'.toHost != [] {
      assert HelloBehind(p, f.(toHost := f'.toHost), ahead');
      assert HelloBehind(p, f', ahead');
    }
  }

  /** A poll that leaves the host waiting writes nothing. */
  lemma PollsOn(p: Params, s: Sys, verifier: H.Verifier, ev: Event)
    requires Enabled(p, s, HostPolls(verifier, ev)) && Next(p, s, HostPolls(verifier, ev)).host.Waiting?
    ensures Next(p, s, HostPolls(verifier, ev)) == s.(host := H.Waiting(s.host.keys, s.host.stale + 1))
    ensures H.Poll(HostCfg(p), HostState(s), verifier, ev).out == []
  {}

  /** A poll that brings the host up writes the acknowledgement of its run. */
  lemma PollsUp(p: Params, s: Sys, verifier: H.Verifier, ev: Event)
    requires HostKnows(s) && Enabled(p, s, HostPolls(verifier, ev)) && Next(p, s, HostPolls(verifier, ev)).host.Up?
    ensures var s' := Next(p, s, HostPolls(verifier, ev));
            && s'.ark == s.ark && s'.arkRuns == s.arkRuns && s'.run == s.run && s.run in s'.hostRuns
            && s'.world.sealed == s.world.sealed && s'.host.link.sender.ctx.encap !in s.world.used
            && var run := s'.hostRuns[s.run];
               && run.keys == s.host.keys && run.hello.ArkHello?
               && H.Poll(HostCfg(p), HostState(s), verifier, ev).out == Framed(p.suite.sealEnvelope(AckOf(run)))
  {}

  lemma PollExtends(p: Params, s: Sys, verifier: H.Verifier, ev: Event)
    requires HostKnows(s) && Delivery.Drawn(s) && Enabled(p, s, HostPolls(verifier, ev))
    requires !Next(p, s, HostPolls(verifier, ev)).host.Down?
    ensures var s' := Next(p, s, HostPolls(verifier, ev));
            && s'.ark == s.ark && s'.arkRuns == s.arkRuns && Keys(s') == Keys(s)
            && AfterHello(p, s') == AfterHello(p, s) + H.Poll(HostCfg(p), HostState(s), verifier, ev).out
  {
    var s' := Next(p, s, HostPolls(verifier, ev));
    var out := H.Poll(HostCfg(p), HostState(s), verifier, ev).out;
    var none: Bytes := [];
    if s'.host.Up? {
      PollsUp(p, s, verifier, ev);
      assert s'.host.link.sender.ctx !in s.world.sealed;
      assert HostData(p, s', 0) == [] && out + none == out == none + out;
    } else {
      PollsOn(p, s, verifier, ev);
    }
  }

  lemma HostPollsKeeps(p: Params, f: Fifo, verifier: H.Verifier, ev: Event, f': Fifo, st: Stage)
    requires HostKnows(f.sys) && Delivery.Inv(f.sys)
    requires Step(p, f, HostPolls(verifier, ev), f') && At(p, f, st) && !f'.sys.host.Down?
    ensures At(p, f', st)
  {
    if f.sys.ark.AwaitAck? && st.Answering? {
      PollPending(p, f, verifier, ev, f');
    }
    PollExtends(p, f.sys, verifier, ev);
    RunExtends(p, f, f', st, H.Poll(HostCfg(p), HostState(f.sys), verifier, ev).out);
  }

  lemma HostTakesFrame(p: Params, s: Sys, a: Action)
    requires a.HostTakes? && Enabled(p, s, a) && !Next(p, s, a).host.Down?
    ensures var s' := Next(p, s, a);
            && s'.ark == s.ark && s'.arkRuns == s.arkRuns && s'.hostRuns == s.hostRuns && s'.run == s.run
            && s'.world == s.world
            && s.host.Up? && s'.host.Up? && s'.host.link.sender == s.host.link.sender
            && Keys(s') == Keys(s) && Greeting(p, s') == Greeting(p, s) && AfterHello(p, s') == AfterHello(p, s)
            && forall n :: HostData(p, s', n) == HostData(p, s, n)
  {}

  /** The host takes the next message of the session: it opens. */
  lemma HostTakesMessage(p: Params, f: Fifo, a: Action, f': Fifo, n: nat)
    requires ArkSentWhole(p, f.sys) && a.HostTakes? && Step(p, f, a, f') && At(p, f, Serving(n)) && f.sys.ark.Live?
    ensures At(p, f', Serving(n))
  {
    var s, s' := f.sys, f'.sys;
    var ctx, m := s.ark.link.sender.ctx, s.host.link.receiver.seqno;
    var msgs := SealedIn(s.world, ctx);
    FirstZeroNone([]);
    assert m < |msgs|;
    DataNext(p.max, p.suite, ctx, msgs, m);
    HostOpensNext(p, s, a);
    assert s'.ark == s.ark && s'.world == s.world && f'.toHost == ArkData(p, s', m + 1);
  }

  lemma HostOpensNext(p: Params, s: Sys, a: Action)
    requires a.HostTakes? && Enabled(p, s, a) && s.host.Up?
    requires var Endpoint(ctx, m) := s.host.link.receiver;
             var msgs := SealedIn(s.world, ctx);
             m < |msgs| && m < p.suite.limit && a.input == Packet(p.suite.sealData(ctx, m, msgs[m]))
    ensures var Endpoint(ctx, m) := s.host.link.receiver;
            var link := s.host.link.(receiver := Endpoint(ctx, m + 1));
            Next(p, s, a) == s.(host := H.Up(link), read := Reading(s, ctx, SealedIn(s.world, ctx)[m]))
  {}

  lemma HostTakesKeeps(p: Params, f: Fifo, a: Action, f': Fifo, st: Stage)
    requires ArkSentWhole(p, f.sys) && a.HostTakes? && Step(p, f, a, f') && At(p, f, st) && !f'.sys.host.Down?
    ensures At(p, f', st)
  {
    HostTakesFrame(p, f.sys, a);
    FirstZeroNone([]);
    if st.Serving? && f.sys.ark.Live? {
      HostTakesMessage(p, f, a, f', st.n);
    }
  }

  /** A sealed message goes behind what the host wrote in its run. */
  lemma SealExtends(p: Params, s: Sys, a: Action)
    requires HostKnows(s) && Delivery.HostPlace(s) && a.HostSends? && Enabled(p, s, a)
    requires Next(p, s, a).world.sealed != s.world.sealed && !Next(p, s, a).host.Down?
    ensures var s' := Next(p, s, a);
            && s'.ark == s.ark && s'.arkRuns == s.arkRuns && Keys(s') == Keys(s)
            && AfterHello(p, s') == AfterHello(p, s) + H.Send(HostCfg(p), HostState(s), a.msg, a.write).out
  {
    HostSeals(p, s, a);
    var ctx := s.host.link.sender.ctx;
    var msgs := SealedIn(s.world, ctx);
    DataGrows(p.suite, ctx, msgs, 0, a.msg);
    Regroup(Framed(p.suite.sealEnvelope(AckOf(s.hostRuns[s.run]))), HostData(p, s, 0),
            Framed(p.suite.sealData(ctx, |msgs|, a.msg)));
  }

  /** A message sealed while the Ark has yet to acknowledge, or to see, the host's greeting. */
  lemma HostSealsEarly(p: Params, f: Fifo, a: Action, f': Fifo, st: Stage)
    requires Sound(p, f.sys) && a.HostSends? && Step(p, f, a, f') && At(p, f, st) && !f'.sys.host.Down?
    requires f'.sys.world.sealed != f.sys.world.sealed && !st.Serving?
    ensures At(p, f', st)
  {
    SealExtends(p, f.sys, a);
    HostSeals(p, f.sys, a);
    RunExtends(p, f, f', st, H.Send(HostCfg(p), HostState(f.sys), a.msg, a.write).out);
  }

  /** A message sealed in the session the Ark is in, or was in. */
  lemma HostSealsServing(p: Params, f: Fifo, a: Action, f': Fifo, n: nat)
    requires Delivery.ArkPlace(f.sys) && Delivery.HostPlace(f.sys) && At(p, f, Serving(n))
    requires a.HostSends? && Step(p, f, a, f') && !f'.sys.host.Down?
    requires f'.sys.world.sealed != f.sys.world.sealed
    ensures At(p, f', Serving(n))
  {
    var s, s' := f.sys, f'.sys;
    var ctx := s.host.link.sender.ctx;
    DataGrows(p.suite, ctx, SealedIn(s.world, ctx), n, a.msg);
    HostSeals(p, s, a);
    if s.ark.Live? {
      assert SealedIn(s'.world, s.ark.link.sender.ctx) == SealedIn(s.world, s.ark.link.sender.ctx);
    }
  }

  lemma HostSeals(p: Params, s: Sys, a: Action)
    requires a.HostSends? && Enabled(p, s, a) && Next(p, s, a).world.sealed != s.world.sealed
    requires !Next(p, s, a).host.Down?
    ensures s.host.Up?
    ensures var Endpoint(ctx, n) := s.host.link.sender;
            var sealed := s.world.sealed[ctx := SealedIn(s.world, ctx) + [a.msg]];
            && Next(p, s, a) == s.(world := s.world.(sealed := sealed),
                                   host := H.Up(s.host.link.(sender := Endpoint(ctx, n + 1))))
            && H.Send(HostCfg(p), HostState(s), a.msg, a.write).out == Framed(p.suite.sealData(ctx, n, a.msg))
  {}

  lemma HostSendsKeeps(p: Params, f: Fifo, a: Action, f': Fifo, st: Stage)
    requires Sound(p, f.sys) && a.HostSends? && Step(p, f, a, f') && At(p, f, st) && !f'.sys.host.Down?
    ensures At(p, f', st)
  {
    if f'.sys.world.sealed == f.sys.world.sealed {
      assert Greeting(p, f'.sys) == Greeting(p, f.sys);
    } else if st.Serving? {
      HostSealsServing(p, f, a, f', st.n);
    } else {
      HostSealsEarly(p, f, a, f', st);
    }
  }

  // ------------------------------------------------------------------ runs

  lemma NextAt(p: Params, f: Fifo, a: Action, f': Fifo, st: Stage) returns (st': Stage)
    requires Lawful(p.suite, Limits.SEAL_OVERHEAD) && Sound(p, f.sys) && Delivery.Inv(f'.sys)
    requires At(p, f, st) && Step(p, f, a, f') && !a.HostBegins? && !f'.sys.host.Down?
    ensures At(p, f', st')
  {
    st' := st;
    match a
    case ArkTakes(ev) => st' := ArkTakesKeeps(p, f, ev, f', st);
    case ArkSends(_, _) => ArkSendsKeeps(p, f, a, f', st);
    case ArkFails => st' := ArkFailsKeeps(p, f, f', st);
    case HostPolls(verifier, ev) => HostPollsKeeps(p, f, verifier, ev, f', st);
    case HostTakes(_) => HostTakesKeeps(p, f, a, f', st);
    case HostSends(_, _) => HostSendsKeeps(p, f, a, f', st);
  }

  lemma NextPlaced(p: Params, f: Fifo, a: Action, f': Fifo)
    requires Lawful(p.suite, Limits.SEAL_OVERHEAD) && Sound(p, f.sys) && Placed(p, f)
    requires Step(p, f, a, f') && Delivery.Inv(f'.sys)
    ensures Placed(p, f')
  {
    if a.HostBegins? {
      BeginPlaced(p, f, a, f');
    } else if f.sys.host.Down? {
      BroughtDown(p, f, a, f');
    } else if !f'.sys.host.Down? {
      var st :| At(p, f, st);
      var st' := NextAt(p, f, a, f', st);
      assert At(p, f', st');
    }
  }

  lemma BeginPlaced(p: Params, f: Fifo, a: Action, f': Fifo)
    requires Step(p, f, a, f') && a.HostBegins?
    ensures Placed(p, f')
  {
    if f'.sys.host.Waiting? {
      HostBeginsKeeps(p, f, a, f');
    }
  }

  /** A host that is down comes back only by beginning a run. */
  lemma BroughtDown(p: Params, f: Fifo, a: Action, f': Fifo)
    requires Step(p, f, a, f') && !a.HostBegins? && f.sys.host.Down?
    ensures f'.sys.host.Down?
  {}

  lemma NextGood(p: Params, f: Fifo, a: Action, f': Fifo)
    requires Lawful(p.suite, Limits.SEAL_OVERHEAD) && Good(p, f) && Step(p, f, a, f')
    ensures Good(p, f')
  {
    NextSound(p, f.sys, a);
    NextPlaced(p, f, a, f');
  }

  ghost predicate IsPath(p: Params, states: seq<Fifo>, actions: seq<Action>) {
    && |states| == |actions| + 1
    && forall i :: 0 <= i < |actions| ==> Step(p, states[i], actions[i], states[i + 1])
  }

  ghost predicate IsFifoRun(p: Params, states: seq<Fifo>, actions: seq<Action>) {
    IsPath(p, states, actions) && Init(p, states[0].sys) && states[0].toArk == [] && states[0].toHost == []
  }

  lemma InitGood(p: Params, f: Fifo)
    requires Init(p, f.sys)
    ensures Good(p, f)
  {
    Agreement.InitProvenance(p, f.sys);
    Delivery.InitInv(p, f.sys);
  }

  lemma RunPrefix(p: Params, states: seq<Fifo>, actions: seq<Action>)
    requires IsFifoRun(p, states, actions) && actions != []
    ensures var n := |actions| - 1;
            && IsFifoRun(p, states[..n + 1], actions[..n]) && states[..n + 1][n] == states[n]
            && Step(p, states[n], actions[n], states[n + 1])
  {}

  lemma {:induction false} RunGood(p: Params, states: seq<Fifo>, actions: seq<Action>)
    requires Lawful(p.suite, Limits.SEAL_OVERHEAD) && IsFifoRun(p, states, actions)
    ensures Good(p, states[|actions|])
    decreases |actions|
  {
    if actions == [] {
      InitGood(p, states[0]);
    } else {
      var n := |actions| - 1;
      RunPrefix(p, states, actions);
      RunGood(p, states[..n + 1], actions[..n]);
      NextGood(p, states[n], actions[n], states[n + 1]);
    }
  }

  lemma RunGoodAt(p: Params, states: seq<Fifo>, actions: seq<Action>, i: nat)
    requires Lawful(p.suite, Limits.SEAL_OVERHEAD) && IsFifoRun(p, states, actions) && i <= |actions|
    ensures Good(p, states[i]) && (i < |actions| ==> Step(p, states[i], actions[i], states[i + 1]))
  {
    assert IsFifoRun(p, states[..i + 1], actions[..i]);
    RunGood(p, states[..i + 1], actions[..i]);
  }

  /** Both sides hold the same session: what either seals in, the other opens in. */
  ghost predicate HoldSame(s: Sys) {
    && s.ark.Live? && s.host.Up?
    && s.ark.link.receiver.ctx == s.host.link.sender.ctx && s.ark.link.sender.ctx == s.host.link.receiver.ctx
  }

  /** An Ark that has not answered the host's current run holds no context of it. */
  lemma UnansweredDiffers(p: Params, s: Sys)
    requires Provenance(p, s) && s.host.Up? && Unanswered(s, Keys(s))
    ensures !HoldSame(s)
  {
    if s.ark.Live? {
      var last := s.completions[|s.completions| - 1];
      assert OfRun(s, last) && !Names(last.hello, Keys(s));
    }
  }

  lemma HoldSameServes(p: Params, f: Fifo) returns (n: nat)
    requires Good(p, f) && HoldSame(f.sys)
    ensures At(p, f, Serving(n)) && InStep(p, f, n)
  {
    var st :| At(p, f, st);
    if st.Before? || st.Half? {
      UnansweredDiffers(p, f.sys);
    }
    n := f.sys.ark.link.receiver.seqno;
  }

  /**
   Lockstep. In every run over first-in-first-out streams, with writes cut short
   anywhere, failing reads, resets and repeated handshakes: whenever both sides hold the
   same session, each sender is ahead of its peer's receiver by exactly the frames in
   flight, which are the messages sealed but not opened yet, in order and complete.
   */
  lemma SessionsInLockstep(p: Params, states: seq<Fifo>, actions: seq<Action>)
    requires Lawful(p.suite, Limits.SEAL_OVERHEAD) && IsFifoRun(p, states, actions)
    requires HoldSame(states[|actions|].sys)
    ensures var f := states[|actions|];
            var ark, host := f.sys.ark.link, f.sys.host.link;
            && ark.receiver.ctx == host.sender.ctx && host.receiver.ctx == ark.sender.ctx
            && host.sender.seqno == ark.receiver.seqno + |Frames(p.max, f.toArk)| && Tail(f.toArk) == []
            && ark.sender.seqno == host.receiver.seqno + |Frames(p.max, f.toHost)| && Tail(f.toHost) == []
            && f.toArk == HostData(p, f.sys, ark.receiver.seqno)
            && f.toHost == ArkData(p, f.sys, host.receiver.seqno)
  {
    RunGood(p, states, actions);
    var f := states[|actions|];
    var s := f.sys;
    var n := HoldSameServes(p, f);
    var down, up := s.host.link.sender.ctx, s.ark.link.sender.ctx;
    assert ReadIn(s, up) <= SealedIn(s.world, up);
    DataFrames(p.max, p.suite, down, SealedIn(s.world, down), n);
    DataFrames(p.max, p.suite, up, SealedIn(s.world, up), s.host.link.receiver.seqno);
  }

  /** In lockstep, whatever is in flight opens: reading on delivers the next message and keeps the session. */
  lemma LockstepDelivers(p: Params, states: seq<Fifo>, actions: seq<Action>, f': Fifo, ev: Event)
    requires Lawful(p.suite, Limits.SEAL_OVERHEAD) && IsFifoRun(p, states, actions)
    requires HoldSame(states[|actions|].sys) && Step(p, states[|actions|], ArkTakes(ev), f')
    ensures var s := states[|actions|].sys;
            var ctx, n := s.ark.link.receiver.ctx, s.ark.link.receiver.seqno;
            && HoldSame(f'.sys) && n < |SealedIn(s.world, ctx)|
            && ReadIn(f'.sys, ctx) == ReadIn(s, ctx) + [SealedIn(s.world, ctx)[n]]
  {
    RunGood(p, states, actions);
    var n := HoldSameServes(p, states[|actions|]);
    ServingDelivers(p, states[|actions|], f', ev, n);
  }

  /** And the same for the host. */
  lemma LockstepDeliversToHost(p: Params, states: seq<Fifo>, actions: seq<Action>, f': Fifo, a: Action)
    requires Lawful(p.suite, Limits.SEAL_OVERHEAD) && IsFifoRun(p, states, actions)
    requires HoldSame(states[|actions|].sys) && a.HostTakes? && Step(p, states[|actions|], a, f')
    ensures var s := states[|actions|].sys;
            var ctx, n := s.host.link.receiver.ctx, s.host.link.receiver.seqno;
            && HoldSame(f'.sys) && n < |SealedIn(s.world, ctx)|
            && ReadIn(f'.sys, ctx) == ReadIn(s, ctx) + [SealedIn(s.world, ctx)[n]]
  {
    RunGood(p, states, actions);
    var _ := HoldSameServes(p, states[|actions|]);
    ServingDeliversToHost(p, states[|actions|], f', a);
  }

  lemma ServingDeliversToHost(p: Params, f: Fifo, f': Fifo, a: Action)
    requires ArkSentWhole(p, f.sys) && HoldSame(f.sys) && a.HostTakes? && Step(p, f, a, f')
    requires InStep(p, f, f.sys.ark.link.receiver.seqno)
    ensures var s := f.sys;
            var ctx, n := s.host.link.receiver.ctx, s.host.link.receiver.seqno;
            && HoldSame(f'.sys) && n < |SealedIn(s.world, ctx)|
            && ReadIn(f'.sys, ctx) == ReadIn(s, ctx) + [SealedIn(s.world, ctx)[n]]
  {
    var s := f.sys;
    var ctx, n := s.host.link.receiver.ctx, s.host.link.receiver.seqno;
    FirstZeroNone([]);
    assert n < |SealedIn(s.world, ctx)|;
    DataNext(p.max, p.suite, ctx, SealedIn(s.world, ctx), n);
    assert Open(p.suite, s.world, s.host.link, a.input.data).Some?;
  }

  lemma ServingDelivers(p: Params, f: Fifo, f': Fifo, ev: Event, n: nat)
    requires HostSentWhole(p, f.sys) && HoldSame(f.sys) && At(p, f, Serving(n)) && Step(p, f, ArkTakes(ev), f')
    ensures var s := f.sys;
            var ctx := s.ark.link.receiver.ctx;
            && HoldSame(f'.sys) && n < |SealedIn(s.world, ctx)|
            && ReadIn(f'.sys, ctx) == ReadIn(s, ctx) + [SealedIn(s.world, ctx)[n]]
  {
    var s, s' := f.sys, f'.sys;
    var ctx := s.host.link.sender.ctx;
    ArkTakesMessage(p, f, ev, f', n);
    DataNext(p.max, p.suite, ctx, SealedIn(s.world, ctx), n);
    assert Open(p.suite, s.world, s.ark.link, ev.input.data) == Some((s'.ark.link, SealedIn(s.world, ctx)[n]));
  }
}
