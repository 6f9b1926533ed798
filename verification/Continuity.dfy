/** A session never outlives an input that is not its next message. */
module Continuity {
  import opened Bytes
  import opened Crypto
  import opened Packets
  import opened Splitter
  import opened Turns
  import A = ArkMachine
  import H = HostMachine

  /** The input is the packet of the message that is next for the receiver. */
  predicate IsNext(suite: Suite, msgs: seq<Bytes>, receiver: Endpoint, input: Input) {
    var Endpoint(ctx, n) := receiver;
    n < |msgs| && n < suite.limit && input == Packet(suite.sealData(ctx, n, msgs[n]))
  }

  /** What others have sealed for the receiver, and how many packets it was given of that. */
  datatype Progress = Progress(msgs: seq<Bytes>, k: nat)

  /**
   Where a receiver stands if each input was the next packet sealed for it by the time it
   was read; whether it may see empty frames in between depends on the side.
   */
  function Followed(suite: Suite, msgs: seq<Bytes>, receiver: Endpoint, turns: seq<Turn>, resets: bool)
    : Option<Progress>
  {
    if turns == [] then Some(Progress(msgs, 0))
    else
      match Followed(suite, msgs, receiver, turns[..|turns| - 1], resets)
      case None => None
      case Some(before) => FollowedOnce(suite, before, receiver, turns[|turns| - 1], resets)
  }

  function FollowedOnce(suite: Suite, before: Progress, receiver: Endpoint, turn: Turn, resets: bool)
    : Option<Progress>
  {
    var Progress(msgs, k) := before;
    var now := msgs + Added(turn.meanwhile.others, receiver.ctx);
    if resets && turn.ev.input.Reset? then Some(Progress(now, k))
    else
      var next := Endpoint(receiver.ctx, receiver.seqno + k);
      if IsNext(suite, now, next, turn.ev.input) then Some(Progress(now, k + 1)) else None
  }

  /** `messages` are the next `k` of those sealed for the receiver, and the session stands behind them. */
  predicate OpenedAll(msgs: seq<Bytes>, link: Link, k: nat, now: Link, messages: seq<Bytes>) {
    var Endpoint(ctx, n) := link.receiver;
    n + k <= |msgs| && messages == msgs[n..n + k] && now == Link(link.sender, Endpoint(ctx, n + k))
  }

  /** One more message, sealed by now. */
  lemma OpensOneMore(msgs: seq<Bytes>, more: seq<Bytes>, link: Link, k: nat, now: Link, messages: seq<Bytes>)
    requires OpenedAll(msgs, link, k, now, messages)
    ensures OpenedAll(msgs + more, link, k, now, messages)
    ensures var Endpoint(ctx, n) := now.receiver;
            n < |msgs + more| ==>
              var next := Link(now.sender, Endpoint(ctx, n + 1));
              OpenedAll(msgs + more, link, k + 1, next, messages + [(msgs + more)[n]])
  {
    var n, all := link.receiver.seqno, msgs + more;
    assert all[n..n + k] == msgs[n..n + k];
    if n + k < |all| {
      assert all[n..n + k + 1] == all[n..n + k] + [all[n + k]];
    }
  }

  // ---------------------------------------------------------------- the Ark

  /** The Ark after these turns, if its session is there all along. */
  function Staying(cfg: A.Config, t: A.Trace, turns: seq<Turn>): Option<A.Trace> {
    if turns == [] then if t.state.phase.Live? then Some(t) else None
    else
      match Staying(cfg, t, turns[..|turns| - 1])
      case None => None
      case Some(r) =>
        var r' := A.Step(cfg, r, turns[|turns| - 1]);
        if r'.state.phase.Live? then Some(r') else None
  }

  /** The same said of the run: there is a session at every point of it. */
  predicate LiveThroughout(cfg: A.Config, t: A.Trace, turns: seq<Turn>) {
    A.Run(cfg, t, turns).state.phase.Live? && (turns == [] || LiveThroughout(cfg, t, turns[..|turns| - 1]))
  }

  lemma {:induction false} StayingIsRunning(cfg: A.Config, t: A.Trace, turns: seq<Turn>)
    ensures LiveThroughout(cfg, t, turns) <==> Staying(cfg, t, turns).Some?
    ensures Staying(cfg, t, turns).Some? ==> Staying(cfg, t, turns).value == A.Run(cfg, t, turns)
    decreases |turns|
  {
    if turns != [] {
      StayingIsRunning(cfg, t, turns[..|turns| - 1]);
    }
  }

  /** What a session has come to after opening what it was given. */
  ghost predicate ArkOpenedAll(t: A.Trace, p: Progress, r: A.Trace, messages: seq<Bytes>)
    requires t.state.phase.Live?
  {
    var link := t.state.phase.link;
    && r.state.phase.Live? && r.out == t.out && r.messages == t.messages + messages
    && SealedIn(r.state.world, link.receiver.ctx) == p.msgs
    && OpenedAll(p.msgs, link, p.k, r.state.phase.link, messages)
  }

  lemma ArkTakesOneMore(cfg: A.Config, t: A.Trace, p: Progress, r: A.Trace, turn: Turn, messages: seq<Bytes>)
    returns (more: seq<Bytes>)
    requires t.state.phase.Live? && ArkOpenedAll(t, p, r, messages)
    ensures var p' := FollowedOnce(cfg.suite, p, t.state.phase.link.receiver, turn, false);
            var r' := A.Step(cfg, r, turn);
            && (r'.state.phase.Live? <==> p'.Some?)
            && (r'.state.phase.Live? ==> ArkOpenedAll(t, p'.value, r', more))
  {
    var link := t.state.phase.link;
    var Endpoint(ctx, n) := link.receiver;
    var others := turn.meanwhile.others;
    GrownSealed(r.state.world, others, ctx);
    OpensOneMore(p.msgs, Added(others, ctx), link, p.k, r.state.phase.link, messages);
    more := messages;
    if A.Step(cfg, r, turn).state.phase.Live? {
      var msg := (p.msgs + Added(others, ctx))[n + p.k];
      more := messages + [msg];
      Regroup(t.messages, messages, [msg]);
      assert r.out + [] == r.out;
    }
  }

  /**
   An Ark's session survives a sequence of inputs exactly if each of them was, when it was
   read, the next packet sealed for it; and then each was opened: nothing is ever skipped.
   */
  lemma {:induction false} ArkSkipsNothing(cfg: A.Config, t: A.Trace, turns: seq<Turn>) returns (messages: seq<Bytes>)
    requires t.state.phase.Live?
    requires var Endpoint(ctx, n) := t.state.phase.link.receiver; n <= |SealedIn(t.state.world, ctx)|
    ensures var receiver := t.state.phase.link.receiver;
            var p := Followed(cfg.suite, SealedIn(t.state.world, receiver.ctx), receiver, turns, false);
            var r := Staying(cfg, t, turns);
            (r.Some? <==> p.Some?) && (r.Some? ==> ArkOpenedAll(t, p.value, r.value, messages))
    decreases |turns|
  {
    messages := [];
    if turns == [] {
      assert t.messages + messages == t.messages;
    } else {
      var init, turn := turns[..|turns| - 1], turns[|turns| - 1];
      var receiver := t.state.phase.link.receiver;
      messages := ArkSkipsNothing(cfg, t, init);
      var p := Followed(cfg.suite, SealedIn(t.state.world, receiver.ctx), receiver, init, false);
      if p.Some? {
        messages := ArkTakesOneMore(cfg, t, p.value, Staying(cfg, t, init).value, turn, messages);
      }
    }
  }

  /** Without a session or a handshake, the Ark ignores everything until the next reset. */
  lemma {:induction false} IdleUntilReset(cfg: A.Config, t: A.Trace, turns: seq<Turn>)
    requires t.state.phase.Idle? && forall i :: 0 <= i < |turns| ==> !turns[i].ev.input.Reset?
    ensures A.Run(cfg, t, turns) == t.(state := A.State(Later(t.state.world, turns), A.Idle))
    decreases |turns|
  {
    if turns != [] {
      IdleUntilReset(cfg, t, turns[..|turns| - 1]);
      assert t.out + [] == t.out && t.messages + [] == t.messages;
    }
  }

  // --------------------------------------------------------------- the host

  /** The host reading one input after another, and the messages it opens. */
  function ReadAll(cfg: H.Config, s: H.State, turns: seq<Turn>): (H.State, seq<Bytes>) {
    if turns == [] then (s, [])
    else
      var (before, messages) := ReadAll(cfg, s, turns[..|turns| - 1]);
      ReadOne(cfg, before, messages, turns[|turns| - 1])
  }

  function ReadOne(cfg: H.Config, s: H.State, messages: seq<Bytes>, turn: Turn): (H.State, seq<Bytes>) {
    var Turn(m, ev) := turn;
    var mid := H.Meanwhile(s, m);
    var message :=
      if mid.phase.Up? && ev.input.Packet? then Open(cfg.suite, mid.world, mid.phase.link, ev.input.data) else None;
    (H.Receive(cfg, mid, ev.input).0, messages + (if message.Some? then [message.value.1] else []))
  }

  ghost predicate HostOpenedAll(link: Link, p: Progress, r: H.State, messages: seq<Bytes>) {
    && r.phase.Up? && SealedIn(r.world, link.receiver.ctx) == p.msgs
    && OpenedAll(p.msgs, link, p.k, r.phase.link, messages)
  }

  lemma HostTakesOneMore(cfg: H.Config, link: Link, p: Progress, s: H.State, turn: Turn, messages: seq<Bytes>)
    requires HostOpenedAll(link, p, s, messages)
    ensures var (r, more) := ReadOne(cfg, s, messages, turn);
            var p' := FollowedOnce(cfg.suite, p, link.receiver, turn, true);
            (r.phase.Up? <==> p'.Some?) && (r.phase.Up? ==> HostOpenedAll(link, p'.value, r, more))
  {
    GrownSealed(s.world, turn.meanwhile.others, link.receiver.ctx);
    OpensOneMore(p.msgs, Added(turn.meanwhile.others, link.receiver.ctx), link, p.k, s.phase.link, messages);
    assert messages + [] == messages;
  }

  lemma DownStaysDown(cfg: H.Config, s: H.State, turn: Turn, messages: seq<Bytes>)
    requires !s.phase.Up?
    ensures !ReadOne(cfg, s, messages, turn).0.phase.Up?
  {}

  /**
   A host's session survives a sequence of inputs exactly if, empty frames aside, each of
   them was, when it was read, the next packet sealed for it; and then each was opened.
   */
  lemma {:induction false} HostSkipsNothing(cfg: H.Config, s: H.State, turns: seq<Turn>)
    requires s.phase.Up?
    requires var Endpoint(ctx, n) := s.phase.link.receiver; n <= |SealedIn(s.world, ctx)|
    ensures var receiver := s.phase.link.receiver;
            var p := Followed(cfg.suite, SealedIn(s.world, receiver.ctx), receiver, turns, true);
            var (r, messages) := ReadAll(cfg, s, turns);
            (r.phase.Up? <==> p.Some?) && (r.phase.Up? ==> HostOpenedAll(s.phase.link, p.value, r, messages))
    decreases |turns|
  {
    if turns != [] {
      var init, turn := turns[..|turns| - 1], turns[|turns| - 1];
      var receiver := s.phase.link.receiver;
      HostSkipsNothing(cfg, s, init);
      var (before, messages) := ReadAll(cfg, s, init);
      var p := Followed(cfg.suite, SealedIn(s.world, receiver.ctx), receiver, init, true);
      if p.Some? {
        HostTakesOneMore(cfg, s.phase.link, p.value, before, turn, messages);
      } else {
        DownStaysDown(cfg, before, turn, messages);
      }
    }
  }
}
