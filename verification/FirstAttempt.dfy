/**
 A host that starts over finds the Ark at the first attempt, whatever the two were doing:
 the theorem of `Recovery`, over the runs of both sides joined by byte streams.
 */
module FirstAttempt {
  import opened Bytes
  import opened Channel
  import opened Crypto
  import opened Lockstep
  import opened Network
  import opened Packets
  import opened Recovery
  import opened Splitter
  import opened Transport
  import opened Turns
  import A = ArkMachine
  import Cobs
  import H = HostMachine
  import Limits
  import Session

  /** The packets an action of the Ark writes. */
  function ArkPackets(p: Params, s: Sys, a: Action): seq<Bytes> {
    match a
    case ArkTakes(ev) =>
      (match A.Answered(ArkCfg(p), ArkState(s), ev.input)
       case None => []
       case Some(hello) =>
         if p.suite.keyOk(hello.crypto) then [p.suite.sealEnvelope(A.Hello(ArkCfg(p), hello, ev))] else [])
    case ArkSends(msg, _) =>
      if !s.ark.Live? then []
      else (match Session.SealResult(p.max, p.suite, s.world, s.ark.link, msg).2
            case Ok(packet) => [packet]
            case Err(_) => [])
    case _ => []
  }

  /** The action does not fail: what it writes goes out whole. A sealed message does not pass for a hello to the key. */
  ghost predicate Smooth(p: Params, s: Sys, a: Action, key: Key) {
    match a
    case ArkTakes(ev) => ev.write.Whole? && AllFit(p.max, ArkPackets(p, s, a))
    case ArkSends(_, write) => write.Whole? && Stale(p.suite, ArkPackets(p, s, a), key)
    case HostPolls(_, ev) => ev.write.Whole?
    case HostSends(_, write) => write.Whole?
    case HostTakes(_) => true
    case _ => false
  }

  lemma ArkWritesFrames(p: Params, f: Fifo, a: Action, f': Fifo, key: Key)
    requires Lawful(p.suite, Limits.SEAL_OVERHEAD) && Step(p, f, a, f') && Smooth(p, f.sys, a, key)
    requires a.ArkTakes? || a.ArkSends?
    ensures f'.toHost == f.toHost + FramedAll(ArkPackets(p, f.sys, a))
    ensures AllFit(p.max, ArkPackets(p, f.sys, a))
  {
    var packets := ArkPackets(p, f.sys, a);
    if a.ArkSends? && packets != [] {
      Session.AcceptedIsDelivered(p.max, p.suite, f.sys.world, f.sys.ark.link, a.msg, []);
    }
    if packets != [] {
      assert packets[1..] == [] && Framed(packets[0]) + [] == Framed(packets[0]);
    }
  }

  // ------------------------------------------------------- while the host waits

  /** The bytes are the frames of these packets, behind oversized frames at most, which nobody sees. */
  ghost predicate InFlight(max: nat, s: Bytes, packets: seq<Bytes>) {
    exists pre: Bytes :: Oversized(max, pre) && s == pre + FramedAll(packets)
  }

  lemma JustInFlight(max: nat, packets: seq<Bytes>)
    ensures InFlight(max, FramedAll(packets), packets)
  {
    var none: Bytes := [];
    assert Oversized(max, none) && none + FramedAll(packets) == FramedAll(packets);
  }

  lemma InFlightGrows(max: nat, s: Bytes, packets: seq<Bytes>, more: seq<Bytes>)
    requires InFlight(max, s, packets)
    ensures InFlight(max, s + FramedAll(more), packets + more)
  {
    var pre: Bytes :| Oversized(max, pre) && s == pre + FramedAll(packets);
    FramedAllAppend(packets, more);
    Regroup(pre, FramedAll(packets), FramedAll(more));
  }

  /** What is read of them: the packets, in order. */
  lemma InFlightNext(max: nat, s: Bytes, packets: seq<Bytes>)
    requires InFlight(max, s, packets) && AllFit(max, packets)
    ensures NextInput(max, s)
            == if packets == [] then None else Some((Packet(packets[0]), FramedAll(packets[1..])))
  {
    var pre: Bytes :| Oversized(max, pre) && s == pre + FramedAll(packets);
    OversizedTransparent(max, pre, FramedAll(packets), s);
    if packets == [] {
      FirstZeroNone([]);
    } else {
      FramedIsNext(max, packets[0], FramedAll(packets[1..]));
    }
  }

  /** The host's reset and hello are still ahead of the Ark. */
  ghost predicate Coming(p: Params, f: Fifo, st: Stage) {
    At(p, f, st) && (st.Before? || st.Half? || (st.Greeted? && f.sys.ark.AwaitHello?))
  }

  /** The Ark answered this run, and its hello is the last thing in the queue. */
  ghost predicate Replied(p: Params, f: Fifo, keys: HostHello, queue: seq<Bytes>) {
    && f.sys.ark.AwaitAck? && f.sys.ark.hello == keys && f.sys.ark.eph in f.sys.arkRuns
    && var envelope := HelloOf(p, f.sys.ark.eph, f.sys.arkRuns[f.sys.ark.eph]);
       && envelope in f.sys.world.signed
       && queue != [] && queue[|queue| - 1] == p.suite.sealEnvelope(envelope)
       && Stale(p.suite, queue[..|queue| - 1], keys.crypto)
  }

  /** The host has read `k` of the packets `all`, the others being in flight towards it. */
  ghost predicate Waits(p: Params, f: Fifo, keys: HostHello, all: seq<Bytes>, k: nat) {
    && Good(p, f) && f.sys.host == H.Waiting(keys, k) && k <= H.MAX_STALE_FRAMES
    && AllFit(p.max, all) && k <= |all| && InFlight(p.max, f.toHost, all[k..])
    && ((Stale(p.suite, all, keys.crypto) && exists st :: Coming(p, f, st))
        || (k < |all| && Replied(p, f, keys, all)))
  }

  /** In front of the host's hello the Ark answers nobody who would be mistaken for this host. */
  lemma AnswersOthers(p: Params, s: Sys, ev: Event, keys: HostHello)
    requires Lawful(p.suite, Limits.SEAL_OVERHEAD) && !IsHello(p.suite, ev.input, keys)
    ensures Stale(p.suite, ArkPackets(p, s, ArkTakes(ev)), keys.crypto)
  {}

  lemma TakesReset(p: Params, f: Fifo, ev: Event, f': Fifo)
    requires Step(p, f, ArkTakes(ev), f') && At(p, f, Half)
    ensures Coming(p, f', Greeted) && ArkPackets(p, f.sys, ArkTakes(ev)) == []
  {
    ZeroIsReset(p.max, Greeting(p, f.sys));
    ArkTakesHalf(p, f, ev, f');
  }

  /** The Ark answers the host's hello. */
  lemma AnswersThis(p: Params, f: Fifo, ev: Event, f': Fifo, all: seq<Bytes>)
    requires Lawful(p.suite, Limits.SEAL_OVERHEAD) && Sound(p, f.sys) && f.sys.host.Waiting?
    requires Step(p, f, ArkTakes(ev), f') && Coming(p, f, Greeted) && p.suite.keyOk(f.sys.host.keys.crypto)
    requires Smooth(p, f.sys, ArkTakes(ev), f.sys.host.keys.crypto)
    requires Stale(p.suite, all, f.sys.host.keys.crypto)
    ensures Replied(p, f', f.sys.host.keys, all + ArkPackets(p, f.sys, ArkTakes(ev)))
  {
    var keys := f.sys.host.keys;
    FramedIsNext(p.max, p.suite.encodeHello(keys), AfterHello(p, f.sys));
    assert ev.input == Packet(p.suite.encodeHello(keys));
    assert A.Answered(ArkCfg(p), ArkState(f.sys), ev.input) == Some(keys);
    var packet := p.suite.sealEnvelope(A.Hello(ArkCfg(p), keys, ev));
    assert ArkPackets(p, f.sys, ArkTakes(ev)) == [packet];
    assert Fits(p.max, ArkPackets(p, f.sys, ArkTakes(ev))[0]);
    assert HelloOf(p, ev.eph, f'.sys.arkRuns[ev.eph]) == A.Hello(ArkCfg(p), keys, ev);
    assert (all + [packet])[..|all|] == all;
  }

  lemma {:induction false} FramedAllAppend(a: seq<Bytes>, b: seq<Bytes>)
    ensures FramedAll(a + b) == FramedAll(a) + FramedAll(b)
    decreases |a|
  {
    if a == [] {
      assert a + b == b;
    } else {
      assert (a + b)[1..] == a[1..] + b;
      FramedAllAppend(a[1..], b);
      Regroup(Framed(a[0]), FramedAll(a[1..]), FramedAll(b));
    }
  }

  /** More packets behind the queue, none of them for this host. */
  lemma QueueGrows(p: Params, all: seq<Bytes>, k: nat, more: seq<Bytes>, key: Key)
    requires k <= |all| && AllFit(p.max, all) && AllFit(p.max, more)
    ensures AllFit(p.max, all + more)
    ensures (all + more)[k..] == all[k..] + more
    ensures Stale(p.suite, all, key) && Stale(p.suite, more, key) ==> Stale(p.suite, all + more, key)
  {
    assert (all + more)[k..] == all[k..] + more;
  }

  /** Once the Ark has replied, it has nothing to read before the host goes on. */
  lemma RepliedIsStuck(p: Params, f: Fifo, keys: HostHello, queue: seq<Bytes>)
    requires Good(p, f) && f.sys.host.Waiting? && f.sys.host.keys == keys
    ensures Replied(p, f, keys, queue) ==> f.toArk == [] && NextInput(p.max, f.toArk) == None
  {
    if Replied(p, f, keys, queue) {
      var st :| At(p, f, st);
      assert Names(f.sys.arkRuns[f.sys.ark.eph].hello, keys);
      FirstZeroNone([]);
    }
  }

  lemma ArkTakesWhileWaiting(p: Params, f: Fifo, ev: Event, f': Fifo, keys: HostHello, all: seq<Bytes>, st: Stage)
    requires Lawful(p.suite, Limits.SEAL_OVERHEAD) && Sound(p, f.sys) && f.sys.host.Waiting? && f.sys.host.keys == keys
    requires Step(p, f, ArkTakes(ev), f') && Smooth(p, f.sys, ArkTakes(ev), keys.crypto) && p.suite.keyOk(keys.crypto)
    requires Coming(p, f, st) && Stale(p.suite, all, keys.crypto)
    ensures var packets := ArkPackets(p, f.sys, ArkTakes(ev));
            || (Stale(p.suite, packets, keys.crypto) && exists st' :: Coming(p, f', st'))
            || (packets != [] && Replied(p, f', keys, all + packets))
  {
    match st
    case Before(ahead) =>
      var st' := ArkTakesBefore(p, f, ev, f', ahead);
      AnswersOthers(p, f.sys, ev, keys);
      assert Coming(p, f', st');
    case Half =>
      TakesReset(p, f, ev, f');
    case Greeted =>
      AnswersThis(p, f, ev, f', all);
      assert all + [] == all;
    case _ =>
  }

  lemma ArkSendsWhileWaiting(p: Params, f: Fifo, a: Action, f': Fifo, keys: HostHello, st: Stage)
    requires Sound(p, f.sys) && Coming(p, f, st) && a.ArkSends? && Step(p, f, a, f') && Smooth(p, f.sys, a, keys.crypto)
    ensures Coming(p, f', st) && Stale(p.suite, ArkPackets(p, f.sys, a), keys.crypto)
  {
    ArkSendsKeeps(p, f, a, f', st);
  }

  /** An action of the Ark adds to the queue. */
  lemma ArkWhileWaiting(p: Params, f: Fifo, a: Action, f': Fifo, keys: HostHello, all: seq<Bytes>, k: nat)
    requires Lawful(p.suite, Limits.SEAL_OVERHEAD) && Waits(p, f, keys, all, k) && p.suite.keyOk(keys.crypto)
    requires Step(p, f, a, f') && Smooth(p, f.sys, a, keys.crypto) && (a.ArkTakes? || a.ArkSends?)
    ensures Waits(p, f', keys, all + ArkPackets(p, f.sys, a), k)
  {
    var packets := ArkPackets(p, f.sys, a);
    RepliedIsStuck(p, f, keys, all);
    var st :| Coming(p, f, st);
    if a.ArkTakes? {
      ArkTakesWhileWaiting(p, f, a.ev, f', keys, all, st);
    } else {
      ArkSendsWhileWaiting(p, f, a, f', keys, st);
    }
    ArkWritesFrames(p, f, a, f', keys.crypto);
    NextGood(p, f, a, f');
    ArkLeavesHost(p, f.sys, a);
    StillWaits(p, f, f', keys, all, packets, k);
  }

  lemma ArkLeavesHost(p: Params, s: Sys, a: Action)
    requires Enabled(p, s, a) && (a.ArkTakes? || a.ArkSends?)
    ensures Next(p, s, a).host == s.host
  {}

  lemma StillWaits(p: Params, f: Fifo, f': Fifo, keys: HostHello, all: seq<Bytes>, packets: seq<Bytes>, k: nat)
    requires Good(p, f') && k <= H.MAX_STALE_FRAMES && k <= |all| && f'.sys.host == H.Waiting(keys, k)
    requires AllFit(p.max, all) && AllFit(p.max, packets) && InFlight(p.max, f.toHost, all[k..])
    requires f'.toHost == f.toHost + FramedAll(packets) && Stale(p.suite, all, keys.crypto)
    requires || (Stale(p.suite, packets, keys.crypto) && exists st :: Coming(p, f', st))
             || (packets != [] && Replied(p, f', keys, all + packets))
    ensures Waits(p, f', keys, all + packets, k)
  {
    QueueGrows(p, all, k, packets, keys.crypto);
    InFlightGrows(p.max, f.toHost, all[k..], packets);
  }

  /** The next poll reads the next packet of the queue. */
  lemma PollReads(p: Params, f: Fifo, verifier: H.Verifier, ev: Event, f': Fifo, keys: HostHello, all: seq<Bytes>,
                  k: nat)
    requires Waits(p, f, keys, all, k) && Step(p, f, HostPolls(verifier, ev), f')
    ensures k < |all| && ev.input == Packet(all[k]) && f'.toHost == FramedAll(all[k + 1..])
  {
    InFlightNext(p.max, f.toHost, all[k..]);
    assert k < |all|;
    assert all[k..][0] == all[k] && all[k..][1..] == all[k + 1..];
  }

  /** A packet for somebody else costs one count. */
  lemma PollSkips(p: Params, f: Fifo, verifier: H.Verifier, ev: Event, f': Fifo, keys: HostHello, k: nat)
    requires f.sys.host == H.Waiting(keys, k) && Step(p, f, HostPolls(verifier, ev), f')
    requires ev.input.Packet? && !H.Addressed(HostCfg(p), keys, ev.input)
    ensures f'.sys == f.sys.(host := if k < H.MAX_STALE_FRAMES then H.Waiting(keys, k + 1) else H.Down)
    ensures f'.toArk == f.toArk
  {
    assert f.toArk + [] == f.toArk;
  }

  lemma ComingStays(p: Params, f: Fifo, f': Fifo, keys: HostHello, k: nat, st: Stage)
    requires Coming(p, f, st) && f.sys.host == H.Waiting(keys, k) && f'.toArk == f.toArk
    requires f'.sys == f.sys.(host := H.Waiting(keys, k + 1))
    ensures Coming(p, f', st)
  {}

  lemma RepliedStays(p: Params, f: Fifo, f': Fifo, keys: HostHello, k: nat, all: seq<Bytes>)
    requires Replied(p, f, keys, all) && f.sys.host == H.Waiting(keys, k)
    requires f'.sys == f.sys.(host := H.Waiting(keys, k + 1))
    ensures Replied(p, f', keys, all)
  {}

  /** Every packet is stale but a hello of the Ark at the end. */
  lemma StaleInFront(p: Params, f: Fifo, keys: HostHello, all: seq<Bytes>, k: nat)
    requires Waits(p, f, keys, all, k) && k < |all|
    requires Stale(p.suite, all, keys.crypto) || k < |all| - 1
    ensures Stale(p.suite, all[..k + 1], keys.crypto) && p.suite.recipientOf(all[k]) != Some(keys.crypto)
  {
    if !Stale(p.suite, all, keys.crypto) {
      assert all[k] == all[..|all| - 1][k];
      assert all[..k + 1] == all[..|all| - 1][..k + 1];
    }
  }

  /** The host polls a packet other than the Ark's hello. */
  lemma SkipsWhileWaiting(p: Params, f: Fifo, verifier: H.Verifier, ev: Event, f': Fifo, keys: HostHello,
                          all: seq<Bytes>, k: nat)
    requires Lawful(p.suite, Limits.SEAL_OVERHEAD) && Waits(p, f, keys, all, k)
    requires Step(p, f, HostPolls(verifier, ev), f')
    requires Stale(p.suite, all, keys.crypto) || k < |all| - 1
    ensures k < |all| && Stale(p.suite, all[..k + 1], keys.crypto) && f'.toArk == f.toArk
    ensures if k < H.MAX_STALE_FRAMES then Waits(p, f', keys, all, k + 1) else f'.sys.host.Down?
  {
    PollReads(p, f, verifier, ev, f', keys, all, k);
    StaleInFront(p, f, keys, all, k);
    PollSkips(p, f, verifier, ev, f', keys, k);
    if k < H.MAX_STALE_FRAMES {
      JustInFlight(p.max, all[k + 1..]);
      NextGood(p, f, HostPolls(verifier, ev), f');
      if Stale(p.suite, all, keys.crypto) && exists st :: Coming(p, f, st) {
        var st :| Coming(p, f, st);
        ComingStays(p, f, f', keys, k, st);
      } else {
        RepliedStays(p, f, f', keys, k, all);
        RepliedIsNotStale(p, f, keys, all);
      }
    }
  }

  lemma RepliedIsNotStale(p: Params, f: Fifo, keys: HostHello, queue: seq<Bytes>)
    requires Lawful(p.suite, Limits.SEAL_OVERHEAD) && Good(p, f)
    ensures Replied(p, f, keys, queue) ==> !Stale(p.suite, queue, keys.crypto)
  {}

  /** The host polls the Ark's hello. */
  ghost predicate Judges(p: Params, f: Fifo, verifier: H.Verifier, ev: Event, f': Fifo, keys: HostHello, hello: Bytes) {
    var step := H.Answer(HostCfg(p), f.sys.world, keys, hello, verifier, ev);
    && ev.input == Packet(hello) && f'.sys.host == step.state.phase && f'.toArk == f.toArk + step.out && f'.toHost == []
  }

  lemma JudgesWhileWaiting(p: Params, f: Fifo, verifier: H.Verifier, ev: Event, f': Fifo, keys: HostHello,
                           all: seq<Bytes>, k: nat)
    requires Lawful(p.suite, Limits.SEAL_OVERHEAD) && Waits(p, f, keys, all, k)
    requires Step(p, f, HostPolls(verifier, ev), f')
    requires !Stale(p.suite, all, keys.crypto) && k >= |all| - 1
    ensures k == |all| - 1 && Replied(p, f, keys, all) && Judges(p, f, verifier, ev, f', keys, all[k])
  {
    PollReads(p, f, verifier, ev, f', keys, all, k);
    assert p.suite.recipientOf(all[k]) == Some(keys.crypto);
    assert all[k + 1..] == [];
  }

  /** A poll that leaves the host waiting. */
  lemma PollsOnWaiting(p: Params, f: Fifo, verifier: H.Verifier, ev: Event, f': Fifo, keys: HostHello,
                       all: seq<Bytes>, k: nat)
    requires Lawful(p.suite, Limits.SEAL_OVERHEAD) && Waits(p, f, keys, all, k)
    requires Step(p, f, HostPolls(verifier, ev), f') && f'.sys.host.Waiting?
    ensures Waits(p, f', keys, all, k + 1)
  {
    if Stale(p.suite, all, keys.crypto) || k < |all| - 1 {
      SkipsWhileWaiting(p, f, verifier, ev, f', keys, all, k);
    } else {
      JudgesWhileWaiting(p, f, verifier, ev, f', keys, all, k);
    }
  }

  lemma OthersCannot(p: Params, f: Fifo, a: Action, f': Fifo, key: Key)
    requires Step(p, f, a, f') && Smooth(p, f.sys, a, key) && f.sys.host.Waiting?
    ensures a.HostPolls? || a.ArkTakes? || a.ArkSends?
  {}

  /** One more action that leaves the host waiting. */
  lemma WaitsOn(p: Params, f: Fifo, a: Action, f': Fifo, keys: HostHello, all: seq<Bytes>, k: nat)
    requires Lawful(p.suite, Limits.SEAL_OVERHEAD) && Waits(p, f, keys, all, k) && p.suite.keyOk(keys.crypto)
    requires Step(p, f, a, f') && Smooth(p, f.sys, a, keys.crypto) && f'.sys.host.Waiting?
    ensures Waits(p, f', keys, all + ArkPackets(p, f.sys, a), if a.HostPolls? then k + 1 else k)
  {
    OthersCannot(p, f, a, f', keys.crypto);
    if a.HostPolls? {
      PollsOnWaiting(p, f, a.verifier, a.hev, f', keys, all, k);
      assert all + [] == all;
    } else {
      ArkWhileWaiting(p, f, a, f', keys, all, k);
    }
  }

  // -------------------------------------------------------------------- runs

  /** The packets the Ark wrote in the part of a run behind its first `b` actions. */
  function ArkWrote(p: Params, states: seq<Fifo>, actions: seq<Action>, b: nat): seq<Bytes>
    requires |states| == |actions| + 1
  {
    var n := |actions|;
    if n <= b then []
    else ArkWrote(p, states[..n], actions[..n - 1], b) + ArkPackets(p, states[n - 1].sys, actions[n - 1])
  }

  function Polls(actions: seq<Action>, b: nat): nat {
    var n := |actions|;
    if n <= b then 0 else Polls(actions[..n - 1], b) + (if actions[n - 1].HostPolls? then 1 else 0)
  }

  /**
   In a run, the host begins with action `b`, with complete frames of the Ark in flight and
   nothing of them for the new key, and gets its reset and hello out. Nothing fails since.
   */
  ghost predicate Begun(p: Params, states: seq<Fifo>, actions: seq<Action>, b: nat, keys: HostHello, stale: seq<Bytes>)
  {
    && IsFifoRun(p, states, actions) && b < |actions|
    && actions[b].HostBegins? && actions[b].keys == keys && states[b + 1].sys.host.Waiting?
    && InFlight(p.max, states[b].toHost, stale) && AllFit(p.max, stale) && Stale(p.suite, stale, keys.crypto)
    && forall i :: b < i < |actions| ==> Smooth(p, states[i].sys, actions[i], keys.crypto)
  }

  lemma BegunPrefix(p: Params, states: seq<Fifo>, actions: seq<Action>, b: nat, keys: HostHello, stale: seq<Bytes>)
    requires Begun(p, states, actions, b, keys, stale) && b + 1 < |actions|
    ensures var n := |actions| - 1;
            && Begun(p, states[..n + 1], actions[..n], b, keys, stale) && states[..n + 1][n] == states[n]
            && Step(p, states[n], actions[n], states[n + 1]) && Smooth(p, states[n].sys, actions[n], keys.crypto)
  {}

  lemma BeginsToWait(p: Params, states: seq<Fifo>, actions: seq<Action>, b: nat, keys: HostHello, stale: seq<Bytes>)
    requires Lawful(p.suite, Limits.SEAL_OVERHEAD) && Begun(p, states, actions, b, keys, stale) && |actions| == b + 1
    ensures Waits(p, states[b + 1], keys, stale, 0)
  {
    RunGood(p, states, actions);
    HostBeginsKeeps(p, states[b], actions[b], states[b + 1]);
    assert Coming(p, states[b + 1], Before(states[b].toArk));
    assert stale[0..] == stale;
  }

  /** As long as the host waits, it has read so many packets and has the others before it. */
  lemma {:induction false} WaitsInRun(p: Params, states: seq<Fifo>, actions: seq<Action>, b: nat, keys: HostHello,
                                      stale: seq<Bytes>)
    requires Lawful(p.suite, Limits.SEAL_OVERHEAD) && p.suite.keyOk(keys.crypto)
    requires Begun(p, states, actions, b, keys, stale)
    requires forall i :: b < i <= |actions| ==> states[i].sys.host.Waiting?
    ensures Waits(p, states[|actions|], keys, stale + ArkWrote(p, states, actions, b + 1), Polls(actions, b + 1))
    decreases |actions|
  {
    var n := |actions| - 1;
    if n == b {
      BeginsToWait(p, states, actions, b, keys, stale);
      assert stale + [] == stale;
    } else {
      BegunPrefix(p, states, actions, b, keys, stale);
      WaitsInRun(p, states[..n + 1], actions[..n], b, keys, stale);
      var before := ArkWrote(p, states[..n + 1], actions[..n], b + 1);
      var all, k := stale + before, Polls(actions[..n], b + 1);
      WaitsOn(p, states[n], actions[n], states[n + 1], keys, all, k);
      Regroup(stale, before, ArkPackets(p, states[n].sys, actions[n]));
    }
  }

  /** An Ark that has read all there is while the host waits has replied. */
  lemma AllReadReplied(p: Params, states: seq<Fifo>, actions: seq<Action>, b: nat, keys: HostHello, stale: seq<Bytes>)
    requires Lawful(p.suite, Limits.SEAL_OVERHEAD) && p.suite.keyOk(keys.crypto)
    requires Begun(p, states, actions, b, keys, stale) && states[|actions|].toArk == []
    requires forall i :: b < i <= |actions| ==> states[i].sys.host.Waiting?
    ensures Replied(p, states[|actions|], keys, stale + ArkWrote(p, states, actions, b + 1))
  {
    WaitsInRun(p, states, actions, b, keys, stale);
    GreetingAhead(p, states[|actions|]);
  }

  lemma GreetingAhead(p: Params, f: Fifo)
    ensures (exists st :: Coming(p, f, st)) ==> f.toArk != []
  {}

  /** The last action is the poll that ends the host's waiting. */
  ghost predicate Concludes(p: Params, states: seq<Fifo>, actions: seq<Action>, b: nat, keys: HostHello,
                            stale: seq<Bytes>)
  {
    && Begun(p, states, actions, b, keys, stale) && b + 1 < |actions|
    && (forall i :: b < i < |actions| ==> states[i].sys.host.Waiting?) && !states[|actions|].sys.host.Waiting?
  }

  /**
   How the waiting ends: with the Ark's hello judged, if the Ark has replied and at most 32
   frames are in front of its hello; otherwise with 33 stale frames read.
   */
  ghost predicate Outcome(p: Params, f: Fifo, a: Action, f': Fifo, keys: HostHello, all: seq<Bytes>, polls: nat) {
    && a.HostPolls?
    && if Replied(p, f, keys, all) && |all| - 1 <= H.MAX_STALE_FRAMES
       then polls == |all| && Judges(p, f, a.verifier, a.hev, f', keys, all[|all| - 1])
       else
         && polls == H.MAX_STALE_FRAMES + 1 <= |all| && Stale(p.suite, all[..polls], keys.crypto)
         && f'.sys.host.Down? && f'.toArk == f.toArk
  }

  lemma WaitingEnds(p: Params, f: Fifo, a: Action, f': Fifo, keys: HostHello, all: seq<Bytes>, k: nat)
    requires Lawful(p.suite, Limits.SEAL_OVERHEAD) && Waits(p, f, keys, all, k) && p.suite.keyOk(keys.crypto)
    requires Step(p, f, a, f') && Smooth(p, f.sys, a, keys.crypto) && !f'.sys.host.Waiting?
    ensures Outcome(p, f, a, f', keys, all, k + 1)
  {
    if !a.HostPolls? {
      ArkWhileWaiting(p, f, a, f', keys, all, k);
    } else {
      RepliedIsNotStale(p, f, keys, all);
      if Stale(p.suite, all, keys.crypto) || k < |all| - 1 {
        SkipsWhileWaiting(p, f, a.verifier, a.hev, f', keys, all, k);
      } else {
        JudgesWhileWaiting(p, f, a.verifier, a.hev, f', keys, all, k);
      }
    }
  }

  lemma ConcludesPrefix(p: Params, states: seq<Fifo>, actions: seq<Action>, b: nat, keys: HostHello, stale: seq<Bytes>)
    requires Lawful(p.suite, Limits.SEAL_OVERHEAD) && p.suite.keyOk(keys.crypto)
    requires Concludes(p, states, actions, b, keys, stale)
    ensures var n := |actions| - 1;
            && Step(p, states[n], actions[n], states[n + 1]) && Smooth(p, states[n].sys, actions[n], keys.crypto)
            && !states[n + 1].sys.host.Waiting?
            && Waits(p, states[n], keys, stale + ArkWrote(p, states[..n + 1], actions[..n], b + 1),
                     Polls(actions[..n], b + 1))
  {
    var n := |actions| - 1;
    BegunPrefix(p, states, actions, b, keys, stale);
    WaitsInRun(p, states[..n + 1], actions[..n], b, keys, stale);
  }

  /**
   Stale-frame recovery. From the moment a host begins, with complete stale frames of the
   Ark in flight, and while the Ark goes on as it likes: the host reads what was in flight
   and what the Ark wrote since, in order. If the Ark has replied and at most 32 frames are
   in front of its hello, the host skips exactly those and judges the hello, nothing being
   in flight behind it. Otherwise it gives up, exactly 33 stale frames read.
   */
  lemma StaleFramesPolled(p: Params, states: seq<Fifo>, actions: seq<Action>, b: nat, keys: HostHello,
                          stale: seq<Bytes>)
    requires Lawful(p.suite, Limits.SEAL_OVERHEAD) && p.suite.keyOk(keys.crypto)
    requires Concludes(p, states, actions, b, keys, stale)
    ensures var n := |actions| - 1;
            Outcome(p, states[n], actions[n], states[n + 1], keys,
                    stale + ArkWrote(p, states, actions, b + 1), Polls(actions, b + 1))
  {
    var n := |actions| - 1;
    var before, k := ArkWrote(p, states[..n + 1], actions[..n], b + 1), Polls(actions[..n], b + 1);
    ConcludesPrefix(p, states, actions, b, keys, stale);
    LastOne(p, states, actions, b + 1);
    WaitingEnds(p, states[n], actions[n], states[n + 1], keys, stale + before, k);
    assert before + [] == before;
  }

  lemma LastOne(p: Params, states: seq<Fifo>, actions: seq<Action>, c: nat)
    requires |states| == |actions| + 1 && c < |actions|
    ensures var n := |actions| - 1;
            && ArkWrote(p, states, actions, c)
               == ArkWrote(p, states[..n + 1], actions[..n], c) + ArkPackets(p, states[n].sys, actions[n])
            && Polls(actions, c) == Polls(actions[..n], c) + (if actions[n].HostPolls? then 1 else 0)
  {}

  /** The Ark's hello is accepted: by the policy, for the values in it, and for the size of the answer. */
  ghost predicate Welcome(p: Params, s: Sys, verifier: H.Verifier, encap: Encap)
    requires s.ark.AwaitAck? && s.ark.eph in s.arkRuns
  {
    var run := s.arkRuns[s.ark.eph];
    var ack := H.Ack(run.hello, HelloOf(p, s.ark.eph, run).payload, p.arkSigner, encap);
    && Acceptable(ArkCfg(p), verifier, run.attest, s.ark.eph, run.encap)
    && p.suite.encapOk(encap) && Fits(p.max, p.suite.sealEnvelope(ack))
  }

  lemma WelcomeIsAnswered(p: Params, f: Fifo, verifier: H.Verifier, ev: Event, f': Fifo, keys: HostHello,
                          queue: seq<Bytes>)
    requires Lawful(p.suite, Limits.SEAL_OVERHEAD) && Good(p, f) && f.sys.host.Waiting? && f.sys.host.keys == keys
    requires Replied(p, f, keys, queue) && Welcome(p, f.sys, verifier, ev.encap) && ev.write.Whole?
    requires Step(p, f, HostPolls(verifier, ev), f')
    requires Judges(p, f, verifier, ev, f', keys, queue[|queue| - 1])
    ensures f'.sys.host.Up? && AnsweredThis(p, f'.sys) && f'.sys.hostRuns[f'.sys.run].encap == ev.encap
  {
    var s := f.sys;
    var run := s.arkRuns[s.ark.eph];
    var hello := Event(ev.input, run.attest, s.ark.eph, run.encap, Whole);
    assert A.Hello(ArkCfg(p), keys, hello) == HelloOf(p, s.ark.eph, run);
    AnswersAcceptable(ArkCfg(p), HostCfg(p), s.world, verifier, keys, hello, ev);
  }

  lemma AnsweredIsAhead(p: Params, f: Fifo)
    requires Good(p, f) && AnsweredThis(p, f.sys)
    ensures At(p, f, Answering) && Verified(f.sys, f.sys.hostRuns[f.sys.run])
  {
    var run := f.sys.hostRuns[f.sys.run];
    assert Verified(f.sys, run) && Names(f.sys.arkRuns[f.sys.ark.eph].hello, Keys(f.sys));
    var st :| At(p, f, st);
    assert st.Answering?;
  }

  /** The acknowledgement of the Ark's hello completes the handshake when the Ark reads it. */
  lemma AckCompletes(p: Params, f: Fifo, ev: Event, f': Fifo)
    requires Lawful(p.suite, Limits.SEAL_OVERHEAD) && Good(p, f) && AnsweredThis(p, f.sys)
    requires p.suite.encapOk(f.sys.hostRuns[f.sys.run].encap) && Step(p, f, ArkTakes(ev), f')
    ensures HoldSame(f'.sys)
  {
    var s := f.sys;
    var run := s.hostRuns[s.run];
    AnsweredIsAhead(p, f);
    FramedIsNext(p.max, p.suite.sealEnvelope(AckOf(run)), HostData(p, s, 0));
    assert ev.input == Packet(p.suite.sealEnvelope(AckOf(run)));
    CompletesOnAck(p, s, ev);
    NextSound(p, s, ArkTakes(ev));
    ArkTakesAck(p, f, ev, f');
  }

  /** The Ark takes the acknowledgement it awaits. */
  lemma CompletesOnAck(p: Params, s: Sys, ev: Event)
    requires Lawful(p.suite, Limits.SEAL_OVERHEAD) && Provenance(p, s) && AnsweredThis(p, s)
    requires p.suite.encapOk(s.hostRuns[s.run].encap) && Enabled(p, s, ArkTakes(ev))
    requires ev.input == Packet(p.suite.sealEnvelope(AckOf(s.hostRuns[s.run]))) && s.ark.hello.signer == s.run
    ensures Next(p, s, ArkTakes(ev)).ark.Live?
  {}

  lemma AnsweredStep(p: Params, f: Fifo, a: Action, f': Fifo)
    requires AnsweredThis(p, f.sys) && Step(p, f, a, f') && (a.HostSends? || a.HostTakes?) && f'.sys.host.Up?
    ensures AnsweredThis(p, f'.sys) && f'.sys.hostRuns == f.sys.hostRuns && f'.sys.run == f.sys.run
  {}

  /** While only the host acts and stays up, the Ark's hello stays answered. */
  lemma {:induction false} StaysAnswered(p: Params, states: seq<Fifo>, actions: seq<Action>, c: nat, d: nat)
    requires IsPath(p, states, actions) && c <= d <= |actions| && AnsweredThis(p, states[c].sys)
    requires forall i :: c <= i <= d ==> states[i].sys.host.Up?
    requires forall i :: c <= i < d ==> actions[i].HostSends? || actions[i].HostTakes?
    ensures AnsweredThis(p, states[d].sys)
    ensures states[d].sys.hostRuns == states[c].sys.hostRuns && states[d].sys.run == states[c].sys.run
    decreases d
  {
    if c < d {
      StaysAnswered(p, states, actions, c, d - 1);
      AnsweredStep(p, states[d - 1], actions[d - 1], states[d]);
    }
  }

  /** The host came to the Ark's hello behind at most 32 frames and accepted it. */
  ghost predicate Accepted(p: Params, states: seq<Fifo>, actions: seq<Action>, b: nat, keys: HostHello,
                           stale: seq<Bytes>)
    requires |states| == |actions| + 1
  {
    && Concludes(p, states, actions, b, keys, stale)
    && var n := |actions| - 1;
       var all := stale + ArkWrote(p, states, actions, b + 1);
       && Replied(p, states[n], keys, all) && |all| - 1 <= H.MAX_STALE_FRAMES
       && (actions[n].HostPolls? ==> Welcome(p, states[n].sys, actions[n].verifier, actions[n].hev.encap))
  }

  lemma AnsweredAtOnce(p: Params, f: Fifo, a: Action, f': Fifo, keys: HostHello, all: seq<Bytes>, k: nat)
    requires Lawful(p.suite, Limits.SEAL_OVERHEAD) && Waits(p, f, keys, all, k) && p.suite.keyOk(keys.crypto)
    requires Step(p, f, a, f') && Smooth(p, f.sys, a, keys.crypto) && !f'.sys.host.Waiting?
    requires Replied(p, f, keys, all) && |all| - 1 <= H.MAX_STALE_FRAMES
    requires a.HostPolls? ==> Welcome(p, f.sys, a.verifier, a.hev.encap)
    ensures var s := f'.sys; s.host.Up? && AnsweredThis(p, s) && p.suite.encapOk(s.hostRuns[s.run].encap)
  {
    WaitingEnds(p, f, a, f', keys, all, k);
    WelcomeIsAnswered(p, f, a.verifier, a.hev, f', keys, all);
  }

  lemma AcceptedIsAnswered(p: Params, states: seq<Fifo>, actions: seq<Action>, b: nat, keys: HostHello,
                           stale: seq<Bytes>)
    requires Lawful(p.suite, Limits.SEAL_OVERHEAD) && p.suite.keyOk(keys.crypto)
    requires |states| == |actions| + 1 && Accepted(p, states, actions, b, keys, stale)
    ensures var s := states[|actions|].sys;
            s.host.Up? && AnsweredThis(p, s) && p.suite.encapOk(s.hostRuns[s.run].encap)
  {
    var n := |actions| - 1;
    ConcludesPrefix(p, states, actions, b, keys, stale);
    var before, k := ArkWrote(p, states[..n + 1], actions[..n], b + 1), Polls(actions[..n], b + 1);
    LastPollWritesNothing(p, states, actions, b, keys, stale);
    AnsweredAtOnce(p, states[n], actions[n], states[n + 1], keys, stale + before, k);
  }

  lemma LastPollWritesNothing(p: Params, states: seq<Fifo>, actions: seq<Action>, b: nat, keys: HostHello,
                              stale: seq<Bytes>)
    requires Lawful(p.suite, Limits.SEAL_OVERHEAD) && p.suite.keyOk(keys.crypto)
    requires Concludes(p, states, actions, b, keys, stale)
    ensures var n := |actions| - 1;
            ArkWrote(p, states, actions, b + 1) == ArkWrote(p, states[..n + 1], actions[..n], b + 1)
  {
    StaleFramesPolled(p, states, actions, b, keys, stale);
    var n := |actions| - 1;
    var before := ArkWrote(p, states[..n + 1], actions[..n], b + 1);
    assert before + [] == before;
  }

  /** Once the Ark's hello is answered, its next read completes the handshake. */
  lemma AnsweredCompletes(p: Params, states: seq<Fifo>, actions: seq<Action>, c: nat)
    requires Lawful(p.suite, Limits.SEAL_OVERHEAD) && IsFifoRun(p, states, actions) && c < |actions|
    requires var s := states[c].sys; AnsweredThis(p, s) && p.suite.encapOk(s.hostRuns[s.run].encap)
    requires forall i :: c <= i < |actions| ==> states[i].sys.host.Up?
    requires forall i :: c <= i < |actions| - 1 ==> actions[i].HostSends? || actions[i].HostTakes?
    requires actions[|actions| - 1].ArkTakes?
    ensures HoldSame(states[|actions|].sys)
  {
    var n := |actions| - 1;
    var f, ev, f' := states[n], actions[n].ev, states[n + 1];
    StaysAnswered(p, states, actions, c, n);
    RunGoodAt(p, states, actions, n);
    AckCompletes(p, f, ev, f');
  }

  /**
   First-attempt recovery. From the moment a host begins, with complete stale frames of the
   Ark in flight, nothing failing since: if it comes to the Ark's hello behind at most 32
   frames and accepts it, then the Ark's next read, whatever the host sends before, puts
   both sides in the same session.
   */
  lemma FirstAttemptSucceeds(p: Params, states: seq<Fifo>, actions: seq<Action>, b: nat, c: nat, keys: HostHello,
                             stale: seq<Bytes>)
    requires Lawful(p.suite, Limits.SEAL_OVERHEAD) && p.suite.keyOk(keys.crypto)
    requires IsFifoRun(p, states, actions) && c < |actions|
    requires Accepted(p, states[..c + 1], actions[..c], b, keys, stale)
    requires forall i :: c <= i < |actions| ==> states[i].sys.host.Up?
    requires forall i :: c <= i < |actions| - 1 ==> actions[i].HostSends? || actions[i].HostTakes?
    requires actions[|actions| - 1].ArkTakes?
    ensures HoldSame(states[|actions|].sys)
  {
    AcceptedIsAnswered(p, states[..c + 1], actions[..c], b, keys, stale);
    AnsweredCompletes(p, states, actions, c);
  }

  // ------------------------------------------------- after a first attempt that failed

  /** A frame of which the first `k` bytes were written, with the Ark's hello merged into it. */
  function Merged(packet: Bytes, k: nat, hello: Bytes): Bytes
    requires k <= |Framed(packet)|
  {
    Framed(packet)[..k] + Framed(hello)
  }

  /** The merged frame is read as one frame or, if oversized, not seen at all; nothing of it stays behind. */
  lemma MergedIsOne(max: nat, packet: Bytes, k: nat, hello: Bytes)
    requires 0 < k < |Framed(packet)|
    ensures var s := Merged(packet, k, hello);
            if |s| - 1 > max then InFlight(max, s, []) else NextInput(max, s).Some? && NextInput(max, s).value.1 == []
  {
    var s, frame := Merged(packet, k, hello), Cobs.Encode(hello);
    var piece := Cobs.Encode(packet)[..k] + frame;
    Cobs.EncodeZeroFree(packet);
    Cobs.EncodeZeroFree(hello);
    assert Framed(packet)[..k] == Cobs.Encode(packet)[..k];
    Regroup(Cobs.Encode(packet)[..k], frame, [0]);
    assert s == piece + [0] + [];
    NextOfFirst(max, s, piece, []);
    SkippedOfFirst(max, s, piece, []);
    assert s + FramedAll([]) == s;
  }

  /**
   The second attempt is as good as a first one. Behind a cut frame the Ark's hello merges
   with it and is lost; but once that frame is read, if it is seen at all, a host that
   begins again begins with complete frames in flight, those the Ark wrote since.
   */
  lemma SecondAttempt(p: Params, states: seq<Fifo>, actions: seq<Action>, c: nat, b: nat, keys: HostHello,
                      packet: Bytes, k: nat, hello: Bytes, since: seq<Bytes>)
    requires IsFifoRun(p, states, actions) && c < b < |actions|
    requires 0 < k < |Framed(packet)| && states[c].toHost == Merged(packet, k, hello)
    requires AllFit(p.max, since) && Stale(p.suite, since, keys.crypto)
    requires if |states[c].toHost| - 1 > p.max then states[b].toHost == states[c].toHost + FramedAll(since)
             else
               && (actions[c].HostPolls? || actions[c].HostTakes?)
               && states[b].toHost == states[c + 1].toHost + FramedAll(since)
    requires actions[b].HostBegins? && actions[b].keys == keys && states[b + 1].sys.host.Waiting?
    requires forall i :: b < i < |actions| ==> Smooth(p, states[i].sys, actions[i], keys.crypto)
    ensures Begun(p, states, actions, b, keys, since)
  {
    MergedIsOne(p.max, packet, k, hello);
    assert Step(p, states[c], actions[c], states[c + 1]);
    if |states[c].toHost| - 1 > p.max {
      InFlightGrows(p.max, states[c].toHost, [], since);
    } else {
      JustInFlight(p.max, []);
      InFlightGrows(p.max, states[c + 1].toHost, [], since);
    }
    assert [] + since == since;
  }
}
