/** How the two sides find each other again after anything went wrong. */
module Recovery {
  import opened Bytes
  import opened Crypto
  import opened Errors
  import opened Packets
  import opened Splitter
  import opened Turns
  import A = ArkMachine
  import Channel
  import Cobs
  import H = HostMachine
  import Limits

  // ------------------------------------------------ the Ark finds the host

  /** A reset and the hello of a new run, as a host writes them. */
  function Knock(suite: Suite, keys: HostHello): Bytes {
    [0] + ([0] + Framed(suite.encodeHello(keys)))
  }

  lemma Peel(cfg: A.Config, t: A.Trace, turns: seq<Turn>)
    requires turns != []
    ensures A.Run(cfg, t, turns) == A.Run(cfg, A.Step(cfg, t, turns[0]), turns[1..])
    ensures InputsOf(turns)[1..] == InputsOf(turns[1..])
  {
    assert turns == [turns[0]] + turns[1..];
    A.RunConcat(cfg, t, [turns[0]], turns[1..]);
    assert [turns[0]][..0] == [];
  }

  /** The Ark answered the hello of this run and awaits the acknowledgement, unless it could not answer. */
  ghost predicate Greets(cfg: A.Config, st: A.State, keys: HostHello, ev: Event) {
    var reply := cfg.suite.sealEnvelope(A.Hello(cfg, keys, ev));
    var answered := cfg.suite.keyOk(keys.crypto) && SendOk(cfg.max, reply, ev.write);
    var sender := Endpoint(Context(keys.crypto, ev.encap, ArkToHost), 0);
    && st.phase == (if answered then A.AwaitAck(keys, ev.eph, sender) else A.Idle)
    && (answered ==> A.Hello(cfg, keys, ev) in st.world.signed)
  }

  /** The Ark takes `inputs`, the last one of the stream `s` included. */
  ghost predicate Consumes(max: nat, s: Bytes, inputs: seq<Input>) {
    Take(max, s, |inputs|) == Some((inputs, []))
  }

  /** After the reset, only the hello is left to answer. */
  lemma AnswersHello(cfg: A.Config, t: A.Trace, keys: HostHello, turns: seq<Turn>)
    requires Lawful(cfg.suite, Limits.SEAL_OVERHEAD) && Fits(cfg.max, cfg.suite.encodeHello(keys))
    requires t.state.phase.AwaitHello?
    requires Consumes(cfg.max, Framed(cfg.suite.encodeHello(keys)), InputsOf(turns))
    ensures turns != [] && Greets(cfg, A.Run(cfg, t, turns).state, keys, turns[|turns| - 1].ev)
  {
    var packet := cfg.suite.encodeHello(keys);
    assert Framed(packet) + [] == Framed(packet);
    FramedIsNext(cfg.max, packet, []);
    assert turns != [];
    TakeFront(cfg.max, Framed(packet), |turns|);
    if |turns| > 1 {
      FirstZeroNone([]);
      TakeFront(cfg.max, [], |turns| - 1);
    } else {
      Peel(cfg, t, turns);
      assert turns[1..] == [];
    }
  }

  lemma AnswersAfterReset(cfg: A.Config, t: A.Trace, keys: HostHello, turns: seq<Turn>)
    requires Lawful(cfg.suite, Limits.SEAL_OVERHEAD) && Fits(cfg.max, cfg.suite.encodeHello(keys))
    requires turns != [] && turns[0].ev.input == Reset
    requires Consumes(cfg.max, Framed(cfg.suite.encodeHello(keys)), InputsOf(turns)[1..])
    ensures Greets(cfg, A.Run(cfg, t, turns).state, keys, turns[|turns| - 1].ev)
  {
    Peel(cfg, t, turns);
    AnswersHello(cfg, A.Step(cfg, t, turns[0]), keys, turns[1..]);
  }

  lemma ConsumesFront(max: nat, s: Bytes, inputs: seq<Input>)
    requires s != [] && Consumes(max, s, inputs)
    ensures inputs != [] && NextInput(max, s).Some?
    ensures NextInput(max, s).value.0 == inputs[0] && Consumes(max, NextInput(max, s).value.1, inputs[1..])
  {
    assert inputs != [];
    TakeFront(max, s, |inputs|);
  }

  /** With one reset delimiter to go, the reset is what comes next. */
  lemma SecondKnock(max: nat, hello: Bytes, inputs: seq<Input>)
    requires Consumes(max, [0] + hello, inputs)
    ensures inputs != [] && inputs[0] == Reset && Consumes(max, hello, inputs[1..])
  {
    ConsumesFront(max, [0] + hello, inputs);
    ZeroIsReset(max, hello);
  }

  /** The first input of bytes followed by a reset and a hello: the reset, or something in front of it. */
  lemma FirstKnock(max: nat, ahead: Bytes, hello: Bytes, inputs: seq<Input>) returns (cut: nat)
    requires Consumes(max, ahead + ([0] + ([0] + hello)), inputs)
    ensures inputs != []
    ensures || (inputs[0] == Reset && Consumes(max, hello, inputs[1..]))
            || Consumes(max, [0] + hello, inputs[1..])
            || (cut <= |ahead| && Consumes(max, ahead[cut..] + ([0] + ([0] + hello)), inputs[1..]))
  {
    ConsumesFront(max, ahead + ([0] + ([0] + hello)), inputs);
    cut := Channel.AheadNext(max, ahead, [0] + hello);
    ZeroIsReset(max, hello);
  }

  /** Somewhere a reset comes, with nothing but the hello behind it. */
  lemma {:induction false} KnockHeard(max: nat, ahead: Bytes, hello: Bytes, inputs: seq<Input>) returns (j: nat)
    requires Consumes(max, ahead + ([0] + ([0] + hello)), inputs)
    ensures j < |inputs| && inputs[j] == Reset && Consumes(max, hello, inputs[j + 1..])
    decreases |inputs|
  {
    var cut := FirstKnock(max, ahead, hello, inputs);
    var rest := inputs[1..];
    j := 0;
    if !(inputs[0] == Reset && Consumes(max, hello, rest)) {
      if Consumes(max, [0] + hello, rest) {
        SecondKnock(max, hello, rest);
      } else {
        j := KnockHeard(max, ahead[cut..], hello, rest);
      }
      assert rest[j + 1..] == inputs[j + 2..];
      j := j + 1;
    }
  }

  /**
   Reset is self-stabilising. Whatever phase the Ark is in and whatever complete,
   unterminated or oversized bytes are ahead, once it has consumed them together with
   the two reset delimiters and a host's hello, it awaits the acknowledgement of exactly
   that hello, its reply having gone out.
   */
  lemma ResetStabilises(cfg: A.Config, t: A.Trace, ahead: Bytes, keys: HostHello, turns: seq<Turn>)
    requires Lawful(cfg.suite, Limits.SEAL_OVERHEAD) && Fits(cfg.max, cfg.suite.encodeHello(keys))
    requires Consumes(cfg.max, ahead + Knock(cfg.suite, keys), InputsOf(turns))
    ensures turns != [] && Greets(cfg, A.Run(cfg, t, turns).state, keys, turns[|turns| - 1].ev)
  {
    var j := KnockHeard(cfg.max, ahead, Framed(cfg.suite.encodeHello(keys)), InputsOf(turns));
    var front, back := turns[..j], turns[j..];
    assert turns == front + back;
    A.RunConcat(cfg, t, front, back);
    assert InputsOf(back)[1..] == InputsOf(turns)[j + 1..];
    AnswersAfterReset(cfg, A.Run(cfg, t, front), keys, back);
  }

  /** The same of a call: it is all one when the reset and the hello arrive, or in how many parts. */
  lemma ResetReachesArk(cfg: A.Config, a: A.View, turns: seq<Turn>, b: A.View, messages: seq<Bytes>, ahead: Bytes,
                        keys: HostHello)
    requires Lawful(cfg.suite, Limits.SEAL_OVERHEAD) && Fits(cfg.max, cfg.suite.encodeHello(keys))
    requires A.Journey(cfg, a, turns, b, messages) && b.rest == []
    requires a.rest + Arrivals(turns) == ahead + Knock(cfg.suite, keys)
    ensures turns != [] && Greets(cfg, b.state, keys, turns[|turns| - 1].ev)
  {
    FeedTakes(cfg.max, a.rest, turns);
    ResetStabilises(cfg, A.Trace(a.state, a.sent, []), ahead, keys, turns);
  }

  /** The matching acknowledgement then establishes the session, paired with the host's. */
  lemma AckEstablishes(cfg: A.Config, w: World, keys: HostHello, hello: Event, sender: Endpoint, encap: Encap,
                       ev: Event)
    requires Lawful(cfg.suite, Limits.SEAL_OVERHEAD) && cfg.suite.encapOk(encap)
    requires sender == Endpoint(Context(keys.crypto, hello.encap, ArkToHost), 0)
    requires var ack := H.Ack(keys, A.Hello(cfg, keys, hello).payload, cfg.signer, encap);
             ack in w.signed && ev.input == Packet(cfg.suite.sealEnvelope(ack))
    ensures var st := A.Receive(cfg, A.State(w, A.AwaitAck(keys, hello.eph, sender)), ev).0;
            var host := H.Established(keys, A.Hello(cfg, keys, hello).payload, encap);
            && st.phase.Live?
            && st.phase.link.receiver == host.sender && st.phase.link.sender == host.receiver
  {}

  // ------------------------------------------------ the host finds the Ark

  function FramedAll(packets: seq<Bytes>): Bytes {
    if packets == [] then [] else Framed(packets[0]) + FramedAll(packets[1..])
  }

  ghost predicate AllFit(max: nat, packets: seq<Bytes>) {
    forall i :: 0 <= i < |packets| ==> Fits(max, packets[i])
  }

  /** Packets left over from before: none of them is addressed to the fresh key. */
  ghost predicate Stale(suite: Suite, packets: seq<Bytes>, key: Key) {
    forall i :: 0 <= i < |packets| ==> suite.recipientOf(packets[i]) != Some(key)
  }

  function AsInputs(packets: seq<Bytes>): (ins: seq<Input>)
    ensures |ins| == |packets|
  {
    seq(|packets|, i requires 0 <= i < |packets| => Packet(packets[i]))
  }

  lemma {:induction false} TakePackets(max: nat, packets: seq<Bytes>, rest: Bytes, n: nat)
    requires AllFit(max, packets) && n <= |packets|
    ensures Take(max, FramedAll(packets) + rest, n) == Some((AsInputs(packets[..n]), FramedAll(packets[n..]) + rest))
    decreases n
  {
    if n > 0 {
      TakePackets(max, packets, rest, n - 1);
      assert packets[n - 1..][1..] == packets[n..];
      Regroup(Framed(packets[n - 1]), FramedAll(packets[n..]), rest);
      FramedIsNext(max, packets[n - 1], FramedAll(packets[n..]) + rest);
      assert AsInputs(packets[..n]) == AsInputs(packets[..n - 1]) + [Packet(packets[n - 1])];
    } else {
      assert packets[0..] == packets;
    }
  }

  /** Where a host is after `k` stale packets. */
  function AfterStale(w: World, keys: HostHello, k: nat): H.Step {
    if k <= H.MAX_STALE_FRAMES then H.Step(H.State(w, H.Waiting(keys, k)), [], Ok(()))
    else H.Step(H.State(w, H.Down), [], Err(HandshakeFailed))
  }

  lemma PollsOneStale(cfg: H.Config, w: World, keys: HostHello, verifier: H.Verifier, turn: Turn, k: nat)
    requires turn.ev.input.Packet? && !H.Addressed(cfg, keys, turn.ev.input) && k <= H.MAX_STALE_FRAMES
    ensures H.PolledOnce(cfg, AfterStale(w, keys, k), verifier, turn)
            == Some(AfterStale(Grown(w, turn.meanwhile.others), keys, k + 1))
  {
    var none: Bytes := [];
    assert none + none == none;
  }

  /** Nothing but packets for other recipients is read. */
  ghost predicate OnlyStale(cfg: H.Config, keys: HostHello, turns: seq<Turn>) {
    forall i :: 0 <= i < |turns| ==> turns[i].ev.input.Packet? && !H.Addressed(cfg, keys, turns[i].ev.input)
  }

  /** Every stale packet costs one count and nothing else, as long as the count lasts. */
  lemma {:induction false} PollsStale(cfg: H.Config, w: World, keys: HostHello, verifier: H.Verifier, turns: seq<Turn>)
    requires OnlyStale(cfg, keys, turns) && |turns| <= H.MAX_STALE_FRAMES + 1
    ensures H.Polled(cfg, H.State(w, H.Waiting(keys, 0)), verifier, turns)
            == Some(AfterStale(Later(w, turns), keys, |turns|))
    decreases |turns|
  {
    if turns != [] {
      var k := |turns| - 1;
      var init, turn := turns[..k], turns[k];
      PollsStale(cfg, w, keys, verifier, init);
      PollsOneStale(cfg, Later(w, init), keys, verifier, turn, k);
      assert H.Polled(cfg, H.State(w, H.Waiting(keys, 0)), verifier, turns)
          == H.PolledOnce(cfg, AfterStale(Later(w, init), keys, k), verifier, turn);
    }
  }

  lemma {:induction false} PolledPrefix(cfg: H.Config, s: H.State, verifier: H.Verifier, turns: seq<Turn>, k: nat)
    requires H.Polled(cfg, s, verifier, turns).Some? && k < |turns|
    ensures H.Polled(cfg, s, verifier, turns[..k]).Some?
    ensures H.Polled(cfg, s, verifier, turns[..k]).value.state.phase.Waiting?
    decreases |turns|
  {
    var init := turns[..|turns| - 1];
    if k < |init| {
      PolledPrefix(cfg, s, verifier, init, k);
      assert init[..k] == turns[..k];
    } else {
      assert init == turns[..k];
    }
  }

  /** A handshake over packets that were there or arrived: `stale` ones, then `hello`, then whatever. */
  ghost predicate Queued(cfg: H.Config, a: H.View, turns: seq<Turn>, keys: HostHello, stale: seq<Bytes>, hello: Bytes,
                         rest: Bytes)
  {
    && a.state.phase == H.Waiting(keys, 0)
    && AllFit(cfg.max, stale + [hello]) && a.rest + Arrivals(turns) == FramedAll(stale + [hello]) + rest
    && Stale(cfg.suite, stale, keys.crypto) && cfg.suite.recipientOf(hello) == Some(keys.crypto)
  }

  /** The inputs of the handshake are these packets. */
  lemma QueuedInputs(cfg: H.Config, verifier: H.Verifier, a: H.View, turns: seq<Turn>, b: H.View, result: H.Outcome,
                     keys: HostHello, stale: seq<Bytes>, hello: Bytes, rest: Bytes, k: nat)
    requires H.Journey(cfg, verifier, a, turns, b, result) && Queued(cfg, a, turns, keys, stale, hello, rest)
    requires k <= |stale| + 1 && k <= |turns|
    ensures InputsOf(turns)[..k] == AsInputs((stale + [hello])[..k])
    ensures k == |turns| ==> b.rest == FramedAll((stale + [hello])[k..]) + rest
  {
    FeedTakes(cfg.max, a.rest, turns);
    TakePackets(cfg.max, stale + [hello], rest, k);
    TakePrefix(cfg.max, a.rest + Arrivals(turns), |turns|, k);
  }

  /** What the host has come to after the first `k` queued packets, all stale. */
  lemma StalePrefix(cfg: H.Config, verifier: H.Verifier, a: H.View, turns: seq<Turn>, b: H.View, result: H.Outcome,
                    keys: HostHello, stale: seq<Bytes>, hello: Bytes, rest: Bytes, k: nat)
    requires H.Journey(cfg, verifier, a, turns, b, result) && Queued(cfg, a, turns, keys, stale, hello, rest)
    requires k <= |stale| && k <= |turns| && k <= H.MAX_STALE_FRAMES + 1
    ensures H.Polled(cfg, a.state, verifier, turns[..k])
            == Some(AfterStale(Later(a.state.world, turns[..k]), keys, k))
  {
    QueuedInputs(cfg, verifier, a, turns, b, result, keys, stale, hello, rest, k);
    assert (stale + [hello])[..k] == stale[..k];
    forall i | 0 <= i < k
      ensures turns[..k][i].ev.input == Packet(stale[i])
    {
      assert InputsOf(turns)[..k][i] == AsInputs(stale[..k])[i];
    }
    PollsStale(cfg, a.state.world, keys, verifier, turns[..k]);
  }

  /** A journey ends where the host stops waiting, and nowhere before. */
  lemma Ends(cfg: H.Config, s: H.State, verifier: H.Verifier, turns: seq<Turn>, n: nat)
    requires H.Polled(cfg, s, verifier, turns).Some? && n <= |turns|
    requires var at := H.Polled(cfg, s, verifier, turns[..n]); at.Some? ==> !at.value.state.phase.Waiting?
    ensures n == |turns| && turns[..n] == turns
  {
    if n < |turns| {
      PolledPrefix(cfg, s, verifier, turns, n);
    }
  }

  /** While only stale packets were read, at most 32 of them, the host is still waiting. */
  lemma StillWaiting(cfg: H.Config, verifier: H.Verifier, a: H.View, turns: seq<Turn>, b: H.View, result: H.Outcome,
                     keys: HostHello, stale: seq<Bytes>, hello: Bytes, rest: Bytes)
    requires H.Journey(cfg, verifier, a, turns, b, result) && Queued(cfg, a, turns, keys, stale, hello, rest)
    requires |turns| <= |stale| && |turns| <= H.MAX_STALE_FRAMES
    ensures b.state.phase.Waiting?
  {
    StalePrefix(cfg, verifier, a, turns, b, result, keys, stale, hello, rest, |turns|);
    assert turns[..|turns|] == turns;
  }

  lemma GivesUp(cfg: H.Config, verifier: H.Verifier, a: H.View, turns: seq<Turn>, b: H.View, result: H.Outcome,
                keys: HostHello, stale: seq<Bytes>, hello: Bytes, rest: Bytes)
    requires H.Journey(cfg, verifier, a, turns, b, result) && Queued(cfg, a, turns, keys, stale, hello, rest)
    requires H.MAX_STALE_FRAMES < |stale| && H.MAX_STALE_FRAMES < |turns|
    ensures |turns| == H.MAX_STALE_FRAMES + 1 && b.state == H.State(Later(a.state.world, turns), H.Down)
    ensures b.sent == a.sent && result == Err(HandshakeFailed)
  {
    var n := H.MAX_STALE_FRAMES + 1;
    StalePrefix(cfg, verifier, a, turns, b, result, keys, stale, hello, rest, n);
    Ends(cfg, a.state, verifier, turns, n);
  }

  /** The packet behind the stale ones, addressed to the fresh key, is judged. */
  lemma PollsHello(cfg: H.Config, w: World, keys: HostHello, verifier: H.Verifier, turn: Turn, k: nat, hello: Bytes)
    requires k <= H.MAX_STALE_FRAMES
    requires turn.ev.input == Packet(hello) && cfg.suite.recipientOf(hello) == Some(keys.crypto)
    ensures var step := H.PolledOnce(cfg, AfterStale(w, keys, k), verifier, turn);
            var judged := H.Answer(cfg, Grown(w, turn.meanwhile.others), keys, hello, verifier, turn.ev);
            (step.Some? ==> step.value == judged) && !judged.state.phase.Waiting?
  {
    var none: Bytes := [];
    var out := H.Answer(cfg, Grown(w, turn.meanwhile.others), keys, hello, verifier, turn.ev).out;
    assert none + out == out;
  }

  lemma EndsWithHello(cfg: H.Config, s: H.State, keys: HostHello, verifier: H.Verifier, turns: seq<Turn>, n: nat,
                      w: World, hello: Bytes)
    requires n < |turns| && n <= H.MAX_STALE_FRAMES && H.Polled(cfg, s, verifier, turns).Some?
    requires H.Polled(cfg, s, verifier, turns[..n]) == Some(AfterStale(w, keys, n))
    requires turns[n].ev.input == Packet(hello) && cfg.suite.recipientOf(hello) == Some(keys.crypto)
    ensures |turns| == n + 1
    ensures H.Polled(cfg, s, verifier, turns).value
            == H.Answer(cfg, Grown(w, turns[n].meanwhile.others), keys, hello, verifier, turns[n].ev)
  {
    PollsHello(cfg, w, keys, verifier, turns[n], n, hello);
    H.PolledAt(cfg, s, verifier, turns, n);
    Ends(cfg, s, verifier, turns, n + 1);
  }

  lemma JudgesHello(cfg: H.Config, verifier: H.Verifier, a: H.View, turns: seq<Turn>, b: H.View, result: H.Outcome,
                    keys: HostHello, stale: seq<Bytes>, hello: Bytes, rest: Bytes)
    requires H.Journey(cfg, verifier, a, turns, b, result) && Queued(cfg, a, turns, keys, stale, hello, rest)
    requires |stale| <= H.MAX_STALE_FRAMES && |stale| < |turns|
    ensures |turns| == |stale| + 1 && b.rest == rest
    ensures H.Polled(cfg, a.state, verifier, turns)
            == Some(H.Answer(cfg, Later(a.state.world, turns), keys, hello, verifier, turns[|stale|].ev))
  {
    var n := |stale|;
    StalePrefix(cfg, verifier, a, turns, b, result, keys, stale, hello, rest, n);
    QueuedInputs(cfg, verifier, a, turns, b, result, keys, stale, hello, rest, n + 1);
    assert turns[n].ev.input == InputsOf(turns)[..n + 1][n] == AsInputs((stale + [hello])[..n + 1])[n];
    EndsWithHello(cfg, a.state, keys, verifier, turns, n, Later(a.state.world, turns[..n]), hello);
    LaterAt(a.state.world, turns, n);
    assert turns[..n + 1] == turns;
    assert (stale + [hello])[n + 1..] == [];
    var none: Bytes := [];
    assert none + rest == rest;
  }

  /**
   Stale-frame recovery, as a call sees it. With the Ark's bytes at a frame boundary, and
   `n` stale frames queued or arriving in front of a packet addressed to the fresh key, a
   handshake that comes to an end skipped exactly those `n` and judged that packet, the
   rest of the stream staying for the session, if `n` is at most 32; otherwise it gave up
   after 33.
   */
  lemma StaleFramesSkipped(cfg: H.Config, verifier: H.Verifier, a: H.View, turns: seq<Turn>, b: H.View,
                           result: H.Outcome, keys: HostHello, stale: seq<Bytes>, hello: Bytes, rest: Bytes)
    requires H.Journey(cfg, verifier, a, turns, b, result) && Queued(cfg, a, turns, keys, stale, hello, rest)
    requires !b.state.phase.Waiting?
    ensures if |stale| <= H.MAX_STALE_FRAMES
            then
              && |turns| == |stale| + 1 && b.rest == rest
              && var step := H.Answer(cfg, Later(a.state.world, turns), keys, hello, verifier, turns[|stale|].ev);
                 b.state == step.state && b.sent == a.sent + step.out && result == step.result
            else
              && |turns| == H.MAX_STALE_FRAMES + 1 && b.state == H.State(Later(a.state.world, turns), H.Down)
              && b.sent == a.sent && result == Err(HandshakeFailed)
  {
    if |turns| <= |stale| && |turns| <= H.MAX_STALE_FRAMES {
      StillWaiting(cfg, verifier, a, turns, b, result, keys, stale, hello, rest);
    } else if |stale| <= H.MAX_STALE_FRAMES {
      JudgesHello(cfg, verifier, a, turns, b, result, keys, stale, hello, rest);
    } else {
      GivesUp(cfg, verifier, a, turns, b, result, keys, stale, hello, rest);
    }
  }

  /** Only frames that decode are skipped: one that does not ends the handshake. */
  lemma GarbledEndsHandshake(cfg: H.Config, verifier: H.Verifier, a: H.View, turns: seq<Turn>, b: H.View,
                             result: H.Outcome, k: nat)
    requires H.Journey(cfg, verifier, a, turns, b, result) && k < |turns| && turns[k].ev.input.Garbled?
    ensures k == |turns| - 1 && b.state.phase.Down? && result == Err(FrameDecodingFailed)
  {
    PolledPrefix(cfg, a.state, verifier, turns, k);
    assert turns[..k + 1][..k] == turns[..k];
    Ends(cfg, a.state, verifier, turns, k + 1);
  }

  /** The host accepts this hello: its policy names the Ark, and the values in it are usable. */
  ghost predicate Acceptable(ark: A.Config, verifier: H.Verifier, attest: Bytes, eph: Key, encap: Encap) {
    && verifier(attest) == Some(ark.signer) && ark.suite.wellShaped(attest)
    && ark.suite.keyOk(eph) && ark.suite.encapOk(encap)
  }

  /** The hello is accepted and acknowledged. */
  lemma AnswersAcceptable(ark: A.Config, cfg: H.Config, w: World, verifier: H.Verifier, keys: HostHello, hello: Event,
                          ev: Event)
    requires Lawful(cfg.suite, Limits.SEAL_OVERHEAD) && ark.suite == cfg.suite
    requires A.Hello(ark, keys, hello) in w.signed && Acceptable(ark, verifier, hello.attest, hello.eph, hello.encap)
    requires var ack := H.Ack(keys, A.Hello(ark, keys, hello).payload, ark.signer, ev.encap);
             SendOk(cfg.max, cfg.suite.sealEnvelope(ack), ev.write)
    ensures var envelope := A.Hello(ark, keys, hello);
            var ack := H.Ack(keys, envelope.payload, ark.signer, ev.encap);
            var data := cfg.suite.sealEnvelope(envelope);
            && H.Judge(cfg, w, keys, data, verifier) == Ok((envelope, ark.signer))
            && H.Answer(cfg, w, keys, data, verifier, ev)
               == H.Step(H.State(Sign(Draw(w, {ev.encap}), ack), H.Up(H.Established(keys, envelope.payload, ev.encap))),
                         Framed(cfg.suite.sealEnvelope(ack)), Ok(()))
  {}

  /**
   First-attempt recovery, as a call sees it. The Ark signs its hello while the host reads,
   and it arrives behind at most 32 stale frames: the handshake succeeds if its
   acknowledgement goes out, and that acknowledgement puts the Ark, still awaiting it, in
   a session whose ends pair up with the host's.
   */
  lemma HandshakeSucceeds(ark: A.Config, cfg: H.Config, verifier: H.Verifier, keys: HostHello, hello: Event,
                          a: H.View, turns: seq<Turn>, b: H.View, result: H.Outcome, stale: seq<Bytes>, rest: Bytes)
    requires Lawful(cfg.suite, Limits.SEAL_OVERHEAD) && ark.suite == cfg.suite
    requires A.Hello(ark, keys, hello) in Later(a.state.world, turns).signed
    requires Acceptable(ark, verifier, hello.attest, hello.eph, hello.encap)
    requires Queued(cfg, a, turns, keys, stale, cfg.suite.sealEnvelope(A.Hello(ark, keys, hello)), rest)
    requires |stale| <= H.MAX_STALE_FRAMES
    requires H.Journey(cfg, verifier, a, turns, b, result) && !b.state.phase.Waiting?
    requires |turns| == |stale| + 1 && cfg.suite.encapOk(turns[|stale|].ev.encap)
    requires var ev := turns[|stale|].ev;
             var ack := H.Ack(keys, A.Hello(ark, keys, hello).payload, ark.signer, ev.encap);
             SendOk(cfg.max, cfg.suite.sealEnvelope(ack), ev.write)
    ensures result == Ok(()) && b.state.phase.Up? && b.rest == rest
    ensures var encap := turns[|stale|].ev.encap;
            var ack := cfg.suite.sealEnvelope(H.Ack(keys, A.Hello(ark, keys, hello).payload, ark.signer, encap));
            var sender := Endpoint(Context(keys.crypto, hello.encap, ArkToHost), 0);
            var awaiting := A.State(b.state.world, A.AwaitAck(keys, hello.eph, sender));
            var live := A.Receive(ark, awaiting, Plain(Packet(ack))).0.phase;
            && b.sent == a.sent + Framed(ack) && live.Live?
            && live.link.receiver == b.state.phase.link.sender && live.link.sender == b.state.phase.link.receiver
  {
    var envelope := A.Hello(ark, keys, hello);
    var ev := turns[|stale|].ev;
    StaleFramesSkipped(cfg, verifier, a, turns, b, result, keys, stale, cfg.suite.sealEnvelope(envelope), rest);
    AnswersAcceptable(ark, cfg, Later(a.state.world, turns), verifier, keys, hello, ev);
    AckEstablishes(ark, b.state.world, keys, hello, Endpoint(Context(keys.crypto, hello.encap, ArkToHost), 0), ev.encap,
                   Plain(Packet(cfg.suite.sealEnvelope(H.Ack(keys, envelope.payload, ark.signer, ev.encap)))));
  }

  // ------------------------------------------------ a message cut short

  /**
   A sealed message of which only the first `k` bytes were written, the next run's reset
   delimiter behind them, opens exactly when at most its delimiter was missing.
   */
  lemma CutMessageOpens(max: nat, suite: Suite, w: World, l: Link, k: nat, rest: Bytes)
    requires var n := l.receiver.seqno;
             var msgs := SealedIn(w, l.receiver.ctx);
             && n < |msgs| && n < suite.limit && Fits(max, suite.sealData(l.receiver.ctx, n, msgs[n]))
             && k <= |Cobs.Encode(suite.sealData(l.receiver.ctx, n, msgs[n]))|
    ensures var Endpoint(ctx, n) := l.receiver;
            var packet := suite.sealData(ctx, n, SealedIn(w, ctx)[n]);
            var next := NextInput(max, Framed(packet)[..k] + ([0] + rest));
            && next.Some? && next.value.1 == rest
            && (next.value.0.Packet? && Open(suite, w, l, next.value.0.data).Some? <==> k == |Cobs.Encode(packet)|)
  {
    var packet := suite.sealData(l.receiver.ctx, l.receiver.seqno, SealedIn(w, l.receiver.ctx)[l.receiver.seqno]);
    var e := Cobs.Encode(packet)[..k];
    Cobs.EncodeZeroFree(packet);
    Cobs.EncodeLength(packet);
    Cobs.DecodeEncode(packet);
    assert Framed(packet)[..k] == e;
    Regroup(e, [0], rest);
    NextOfFirst(max, e + ([0] + rest), e, rest);
    if k == |Cobs.Encode(packet)| {
      assert e == Cobs.Encode(packet);
    } else if Cobs.Decode(e).Some? {
      Cobs.DecodeCutShort(packet, e);
    }
  }

  // -------------------------------------------- when the first attempt cannot work

  /**
   The Ark writes no delimiter in front of its hello. Behind a frame it wrote only the
   first `k` bytes of, the hello reaches the host as a frame of its own exactly when that
   leaves the stream at a frame boundary.
   */
  lemma HelloNeedsBoundary(max: nat, packet: Bytes, k: nat, hello: Bytes)
    requires Fits(max, packet) && Fits(max, hello) && k <= |Framed(packet)|
    ensures Cobs.Encode(hello) in Frames(max, Framed(packet)[..k] + Framed(hello)) <==> k == 0 || k == |Framed(packet)|
  {
    var frame, encoded := Cobs.Encode(hello), Cobs.Encode(packet);
    Cobs.EncodeZeroFree(hello);
    Cobs.EncodeLength(hello);
    Cobs.EncodeZeroFree(packet);
    Cobs.EncodeLength(packet);
    FramesOfFirst(max, frame + [0], frame, []);
    if k == |Framed(packet)| {
      assert Framed(packet)[..k] == encoded + [0];
      FramesOfFirst(max, Framed(packet)[..k] + Framed(hello), encoded, Framed(hello));
    } else {
      var cut := encoded[..k];
      assert Framed(packet)[..k] == cut;
      Regroup(cut, frame, [0]);
      FramesOfFirst(max, cut + Framed(hello), cut + frame, []);
      assert k == 0 ==> cut + frame == frame;
    }
  }
}
