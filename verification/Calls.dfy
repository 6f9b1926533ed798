/**
 A call of either side is a stretch of a run: what it does at each of its reads is a step
 of the two-party system, with the other side's steps in between.
 */
module Calls {
  import opened Bytes
  import opened Channel
  import opened Crypto
  import opened Errors
  import opened Lockstep
  import opened Network
  import opened Packets
  import opened Splitter
  import opened Transport
  import opened Turns
  import A = ArkMachine
  import H = HostMachine
  import Limits

  predicate IsArks(a: Action) {
    a.ArkTakes? || a.ArkSends? || a.ArkFails?
  }

  /** The run goes from `f` to `g`. */
  ghost predicate Reaches(p: Params, f: Fifo, g: Fifo) {
    exists states, actions :: IsPath(p, states, actions) && states[0] == f && states[|actions|] == g
  }

  /** It does so in steps of the Ark only, or of the host only. */
  ghost predicate Goes(p: Params, f: Fifo, g: Fifo, arks: bool) {
    exists states, actions ::
      && IsPath(p, states, actions) && states[0] == f && states[|actions|] == g
      && forall i :: 0 <= i < |actions| ==> IsArks(actions[i]) == arks
  }

  lemma NowhereReached(p: Params, f: Fifo)
    ensures Reaches(p, f, f)
  {
    assert IsPath(p, [f], []);
  }

  lemma StepReaches(p: Params, f: Fifo, g: Fifo, a: Action, h: Fifo)
    requires Reaches(p, f, g) && Step(p, g, a, h)
    ensures Reaches(p, f, h)
  {
    var states, actions :| IsPath(p, states, actions) && states[0] == f && states[|actions|] == g;
    var states', actions' := states + [h], actions + [a];
    forall i | 0 <= i < |actions'|
      ensures Step(p, states'[i], actions'[i], states'[i + 1])
    {
      if i < |actions| {
        assert Step(p, states[i], actions[i], states[i + 1]);
      }
    }
    assert IsPath(p, states', actions');
  }

  lemma {:induction false} PathReaches(p: Params, f: Fifo, states: seq<Fifo>, actions: seq<Action>)
    requires IsPath(p, states, actions) && Reaches(p, f, states[0])
    ensures Reaches(p, f, states[|actions|])
    decreases |actions|
  {
    if actions != [] {
      var n := |actions| - 1;
      assert IsPath(p, states[..n + 1], actions[..n]);
      PathReaches(p, f, states[..n + 1], actions[..n]);
      StepReaches(p, f, states[n], actions[n], states[n + 1]);
    }
  }

  lemma GoesReaches(p: Params, f: Fifo, g: Fifo, h: Fifo, arks: bool)
    requires Reaches(p, f, g) && Goes(p, g, h, arks)
    ensures Reaches(p, f, h)
  {
    var states, actions :|
      && IsPath(p, states, actions) && states[0] == g && states[|actions|] == h
      && forall i :: 0 <= i < |actions| ==> IsArks(actions[i]) == arks;
    PathReaches(p, f, states, actions);
  }

  /** One side's steps leave the other side's phase alone. */
  lemma {:induction false} PathKeepsPhase(p: Params, states: seq<Fifo>, actions: seq<Action>, arks: bool)
    requires IsPath(p, states, actions) && forall i :: 0 <= i < |actions| ==> IsArks(actions[i]) == arks
    ensures if arks then states[|actions|].sys.host == states[0].sys.host
            else states[|actions|].sys.ark == states[0].sys.ark
    decreases |actions|
  {
    if actions != [] {
      var n := |actions| - 1;
      assert IsPath(p, states[..n + 1], actions[..n]);
      PathKeepsPhase(p, states[..n + 1], actions[..n], arks);
      assert Step(p, states[n], actions[n], states[n + 1]) && IsArks(actions[n]) == arks;
    }
  }

  lemma GoesKeepsPhase(p: Params, f: Fifo, g: Fifo, arks: bool)
    requires Goes(p, f, g, arks)
    ensures if arks then g.sys.host == f.sys.host else g.sys.ark == f.sys.ark
  {
    var states, actions :|
      && IsPath(p, states, actions) && states[0] == f && states[|actions|] == g
      && forall i :: 0 <= i < |actions| ==> IsArks(actions[i]) == arks;
    PathKeepsPhase(p, states, actions, arks);
  }

  /** Whatever holds in every run holds of what a call reaches. */
  lemma {:induction false} PathGood(p: Params, states: seq<Fifo>, actions: seq<Action>)
    requires Lawful(p.suite, Limits.SEAL_OVERHEAD) && IsPath(p, states, actions) && Good(p, states[0])
    ensures Good(p, states[|actions|])
    decreases |actions|
  {
    if actions != [] {
      var n := |actions| - 1;
      assert IsPath(p, states[..n + 1], actions[..n]);
      PathGood(p, states[..n + 1], actions[..n]);
      NextGood(p, states[n], actions[n], states[n + 1]);
    }
  }

  lemma ReachesGood(p: Params, f: Fifo, g: Fifo)
    requires Lawful(p.suite, Limits.SEAL_OVERHEAD) && Reaches(p, f, g) && Good(p, f)
    ensures Good(p, g)
  {
    var states, actions :| IsPath(p, states, actions) && states[0] == f && states[|actions|] == g;
    PathGood(p, states, actions);
  }

  // ----------------------------------------------------------------- the host

  /** The system is where the host sees itself to be. */
  ghost predicate HostAt(f: Fifo, v: H.View) {
    f.sys.world == v.state.world && f.sys.host == v.state.phase && f.toHost == v.rest
  }

  /** An interlude of the host's call is what the Ark does between `f` and `g`. */
  ghost predicate ArkFills(p: Params, f: Fifo, m: Interlude, g: Fifo) {
    && Goes(p, f, g, true)
    && g.toHost == f.toHost + m.arrived && g.sys.world == Grown(f.sys.world, m.others)
  }

  /** The Ark fills the interludes, and the host's turns change the system as polls do. */
  ghost predicate HostWoven(p: Params, verifier: H.Verifier, f: Fifo, turns: seq<Turn>, f': Fifo)
    decreases |turns|
  {
    if turns == [] then f' == f
    else
      var n := |turns| - 1;
      exists mid, g ::
        && HostWoven(p, verifier, f, turns[..n], mid) && ArkFills(p, mid, turns[n].meanwhile, g)
        && f' == AfterPoll(p, g, verifier, turns[n].ev)
  }

  /** The system after the host polls the next input in it. */
  ghost function AfterPoll(p: Params, g: Fifo, verifier: H.Verifier, ev: Event): Fifo {
    match NextInput(p.max, g.toHost)
    case None => g
    case Some((_, rest)) =>
      if !g.sys.host.Waiting? then g
      else
        var out := H.Poll(HostCfg(p), HostState(g.sys), verifier, ev).out;
        Fifo(AfterHostPolls(p, g.sys, verifier, ev), g.toArk + out, rest)
  }

  /** One turn of the host's handshake is a poll. */
  lemma HostTurnIsStep(p: Params, verifier: H.Verifier, f: Fifo, v: H.View, before: H.Step, turn: Turn, g: Fifo)
    requires HostAt(f, v) && ArkFills(p, f, turn.meanwhile, g) && before.state == v.state
    requires H.PolledOnce(HostCfg(p), before, verifier, turn).Some?
    requires var next := NextInput(p.max, v.rest + turn.meanwhile.arrived);
             next.Some? && next.value.0 == turn.ev.input
    ensures var f' := AfterPoll(p, g, verifier, turn.ev);
            && Step(p, g, HostPolls(verifier, turn.ev), f')
            && f'.sys.world == H.PolledOnce(HostCfg(p), before, verifier, turn).value.state.world
            && f'.sys.host == H.PolledOnce(HostCfg(p), before, verifier, turn).value.state.phase
            && f'.toHost == NextInput(p.max, v.rest + turn.meanwhile.arrived).value.1
  {
    GoesKeepsPhase(p, f, g, true);
    assert HostState(g.sys) == H.Meanwhile(v.state, turn.meanwhile);
  }

  /**
   A handshake of the host, however it ends short of a transport error, is a stretch of a
   run: if the Ark's steps fill the interludes of the call, the host's turns are polls.
   */
  lemma {:induction false} HostCallIsRun(p: Params, verifier: H.Verifier, f: Fifo, a: H.View, turns: seq<Turn>,
                                         b: H.View, result: H.Outcome, f': Fifo)
    requires H.Journey(HostCfg(p), verifier, a, turns, b, result) && HostAt(f, a)
    requires HostWoven(p, verifier, f, turns, f')
    ensures Reaches(p, f, f') && HostAt(f', b)
    decreases |turns|
  {
    if turns == [] {
      NowhereReached(p, f);
    } else {
      var n := |turns| - 1;
      var init, turn := turns[..n], turns[n];
      var mid, g :| HostWoven(p, verifier, f, init, mid) && ArkFills(p, mid, turn.meanwhile, g)
                    && f' == AfterPoll(p, g, verifier, turn.ev);
      var before := H.Polled(HostCfg(p), a.state, verifier, init).value;
      var v := H.View(Feed(p.max, a.rest, init).value, a.sent + before.out, before.state);
      HostCallIsRun(p, verifier, f, a, init, v, before.result, mid);
      HostTurnIsStep(p, verifier, mid, v, before, turn, g);
      GoesReaches(p, f, mid, g, true);
      StepReaches(p, f, g, HostPolls(verifier, turn.ev), f');
    }
  }

  /** And so is the whole call, beginning included: the classes' handshake is a stretch of a run. */
  lemma HandshakeIsRun(p: Params, verifier: H.Verifier, f: Fifo, keys: HostHello, reset: Write, write: Write, f0: Fifo,
                       sent: Bytes, turns: seq<Turn>, b: H.View, result: H.Outcome, f': Fifo)
    requires Step(p, f, HostBegins(keys, reset, write), f0)
    requires var begun := H.Begin(HostCfg(p), f.sys.world, keys, reset, write);
             H.Journey(HostCfg(p), verifier, H.View(f.toHost, sent + begun.out, begun.state), turns, b, result)
    requires HostWoven(p, verifier, f0, turns, f')
    ensures Reaches(p, f, f') && HostAt(f', b)
    ensures Lawful(p.suite, Limits.SEAL_OVERHEAD) && Good(p, f) ==> Good(p, f')
  {
    var begun := H.Begin(HostCfg(p), f.sys.world, keys, reset, write);
    var start := H.View(f.toHost, sent + begun.out, begun.state);
    HostCallIsRun(p, verifier, f0, start, turns, b, result, f');
    NowhereReached(p, f);
    StepReaches(p, f, f, HostBegins(keys, reset, write), f0);
    var states, actions :| IsPath(p, states, actions) && states[0] == f0 && states[|actions|] == f';
    PathReaches(p, f, states, actions);
    if Lawful(p.suite, Limits.SEAL_OVERHEAD) && Good(p, f) {
      ReachesGood(p, f, f');
    }
  }

  /** A read of the host that fails, in a handshake or outside, is a step too. */
  lemma HostFailureIsStep(p: Params, f: Fifo, v: H.View, m: Interlude, g: Fifo, e: Error, after: Bytes)
    requires HostAt(f, v) && ArkFills(p, f, m, g) && Stopped(p.max, H.Waited(v, m).rest, e, after)
    ensures Step(p, g, HostFails, Fifo(g.sys.(host := H.Down), g.toArk, after))
  {}

  /** And so is the reading of a message. */
  lemma HostReadIsStep(p: Params, f: Fifo, v: H.View, m: Interlude, g: Fifo, input: Input, rest: Bytes)
    requires HostAt(f, v) && !v.state.phase.Waiting? && ArkFills(p, f, m, g)
    requires NextInput(p.max, H.Waited(v, m).rest) == Some((input, rest))
    ensures var f' := Fifo(AfterHostTakes(p, g.sys, input), g.toArk, rest);
            var s := H.Receive(HostCfg(p), H.Waited(v, m).state, input).0;
            && Step(p, g, HostTakes(input), f') && f'.sys.world == s.world && f'.sys.host == s.phase
  {
    GoesKeepsPhase(p, f, g, true);
    assert HostState(g.sys) == H.Waited(v, m).state;
  }

  // ------------------------------------------------------------------ the Ark

  ghost predicate ArkAt(f: Fifo, v: A.View) {
    f.sys.world == v.state.world && f.sys.ark == v.state.phase && f.toArk == v.rest
  }

  ghost predicate HostFills(p: Params, f: Fifo, m: Interlude, g: Fifo) {
    && Goes(p, f, g, false)
    && g.toArk == f.toArk + m.arrived && g.sys.world == Grown(f.sys.world, m.others)
  }

  /** If the Ark draws a key for this input, it is not one that somebody guessed. */
  ghost predicate Unguessed(p: Params, g: Fifo, ev: Event) {
    A.Answered(ArkCfg(p), ArkState(g.sys), ev.input).Some? ==> NoArkHello(p.suite, g.toHost, ev.eph)
  }

  /** The host fills the interludes; a key the Ark draws is not one that somebody guessed. */
  ghost predicate ArkWoven(p: Params, f: Fifo, turns: seq<Turn>, f': Fifo)
    decreases |turns|
  {
    if turns == [] then f' == f
    else
      var n := |turns| - 1;
      exists mid, g ::
        && ArkWoven(p, f, turns[..n], mid) && HostFills(p, mid, turns[n].meanwhile, g)
        && Unguessed(p, g, turns[n].ev) && f' == AfterTake(p, g, turns[n].ev)
  }

  ghost function AfterTake(p: Params, g: Fifo, ev: Event): Fifo {
    match NextInput(p.max, g.toArk)
    case None => g
    case Some((_, rest)) =>
      Fifo(AfterArkTakes(p, g.sys, ev), rest, g.toHost + A.Receive(ArkCfg(p), ArkState(g.sys), ev).1.out)
  }

  lemma ArkTurnIsStep(p: Params, f: Fifo, v: A.View, turn: Turn, g: Fifo)
    requires ArkAt(f, v) && HostFills(p, f, turn.meanwhile, g) && Unguessed(p, g, turn.ev)
    requires var w := A.Waited(v, turn.meanwhile);
             && A.Fresh(ArkCfg(p), w.state, turn.ev) && NextInput(p.max, w.rest).Some?
             && NextInput(p.max, w.rest).value.0 == turn.ev.input
    ensures var f' := AfterTake(p, g, turn.ev);
            var w := A.Waited(v, turn.meanwhile);
            var s := A.Receive(ArkCfg(p), w.state, turn.ev).0;
            && Step(p, g, ArkTakes(turn.ev), f')
            && f'.sys.world == s.world && f'.sys.ark == s.phase && f'.toArk == NextInput(p.max, w.rest).value.1
  {
    GoesKeepsPhase(p, f, g, false);
    assert ArkState(g.sys) == A.Waited(v, turn.meanwhile).state;
  }

  /**
   A call of the Ark is a stretch of a run: if the host's steps fill the interludes of the
   call, each turn of the Ark is its step on the next input.
   */
  lemma {:induction false} ArkCallIsRun(p: Params, f: Fifo, a: A.View, turns: seq<Turn>, b: A.View,
                                        messages: seq<Bytes>, f': Fifo)
    requires A.Journey(ArkCfg(p), a, turns, b, messages) && ArkAt(f, a) && ArkWoven(p, f, turns, f')
    ensures Reaches(p, f, f') && ArkAt(f', b)
    decreases |turns|
  {
    if turns == [] {
      NowhereReached(p, f);
    } else {
      var n := |turns| - 1;
      var init, turn := turns[..n], turns[n];
      var mid, g :| ArkWoven(p, f, init, mid) && HostFills(p, mid, turn.meanwhile, g)
                    && Unguessed(p, g, turn.ev) && f' == AfterTake(p, g, turn.ev);
      var before := A.Run(ArkCfg(p), A.Trace(a.state, a.sent, []), init);
      var v := A.View(Feed(p.max, a.rest, init).value, before.out, before.state);
      ArkCallIsRun(p, f, a, init, v, before.messages, mid);
      ArkTurnIsStep(p, mid, v, turn, g);
      GoesReaches(p, f, mid, g, false);
      StepReaches(p, f, g, ArkTakes(turn.ev), f');
    }
  }

  /** A read of the Ark that fails ends a handshake in progress and nothing else. */
  lemma ArkFailureIsStep(p: Params, f: Fifo, v: A.View, m: Interlude, g: Fifo, e: Error, after: Bytes)
    requires ArkAt(f, v) && HostFills(p, f, m, g) && Stopped(p.max, A.Waited(v, m).rest, e, after)
    ensures Step(p, g, ArkFails, Fifo(g.sys.(ark := A.Interrupt(v.state.phase)), after, g.toHost))
  {
    GoesKeepsPhase(p, f, g, false);
  }
}
