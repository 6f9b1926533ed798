/** What a session delivers, over an arbitrary network. */
module Delivery {
  import opened Bytes
  import opened Crypto
  import opened Network
  import A = ArkMachine
  import Agreement
  import H = HostMachine
  import opened Session
  import opened Turns

  /** The messages opened in a context so far are a prefix of those sealed in it. */
  ghost predicate InOrder(s: Sys) {
    forall ctx :: ReadIn(s, ctx) <= SealedIn(s.world, ctx)
  }

  /** Only drawn names occur in the histories. */
  ghost predicate Drawn(s: Sys) {
    && s.foreign <= s.world.used
    && (forall ctx :: ctx in s.read ==> ctx.recipient in s.world.used)
    && (forall ctx :: ctx in s.world.sealed ==> ctx.encap in s.world.used)
  }

  /** Nothing has been opened under a key yet, in the given direction. */
  ghost predicate Untouched(s: Sys, key: Key, info: Info) {
    key in s.world.used && forall ctx :: ctx in s.read && ctx.info == info ==> ctx.recipient != key
  }

  /** The encapsulations of genuine runs are not outsiders'. */
  ghost predicate Owned(s: Sys) {
    && (forall k :: k in s.arkRuns ==> Own(s, s.arkRuns[k].encap))
    && (forall k :: k in s.hostRuns ==> Own(s, s.hostRuns[k].encap))
  }

  predicate Own(s: Sys, encap: Encap) {
    encap in s.world.used && encap !in s.foreign
  }

  /** A sender is where its context is, and nobody else seals in it. */
  ghost predicate Sends(s: Sys, e: Endpoint, info: Info) {
    && e.ctx.info == info && e.ctx.encap in s.world.used && e.ctx.encap !in s.foreign
    && e.seqno == |SealedIn(s.world, e.ctx)|
  }

  ghost predicate Reads(s: Sys, e: Endpoint, info: Info) {
    e.ctx.info == info && e.ctx.recipient in s.world.used && e.seqno == |ReadIn(s, e.ctx)|
  }

  ghost predicate ArkPlace(s: Sys) {
    match s.ark
    case AwaitAck(_, eph, sender) => Untouched(s, eph, HostToArk) && Sends(s, sender, ArkToHost)
    case Live(link) => Sends(s, link.sender, ArkToHost) && Reads(s, link.receiver, HostToArk)
    case _ => true
  }

  ghost predicate HostPlace(s: Sys) {
    match s.host
    case Waiting(keys, _) => Untouched(s, keys.crypto, ArkToHost)
    case Up(link) => Sends(s, link.sender, HostToArk) && Reads(s, link.receiver, ArkToHost)
    case Down => true
  }

  ghost predicate Inv(s: Sys) {
    InOrder(s) && Drawn(s) && Owned(s) && ArkPlace(s) && HostPlace(s)
  }

  lemma InitInv(p: Params, s: Sys)
    requires Init(p, s)
    ensures Inv(s)
  {}

  /** Steps that draw names at most and change no record. */
  lemma QuietKeeps(s: Sys, s': Sys)
    requires Inv(s) && s'.read == s.read && s'.world.sealed == s.world.sealed && s'.foreign == s.foreign
    requires s.world.used <= s'.world.used && Owned(s')
    requires s'.ark == s.ark || !(s'.ark.AwaitAck? || s'.ark.Live?) || ArkPlace(s')
    requires s'.host == s.host || s'.host.Down? || HostPlace(s')
    ensures Inv(s')
  {
    forall ctx
      ensures ReadIn(s', ctx) <= SealedIn(s'.world, ctx)
    {
      assert ReadIn(s, ctx) <= SealedIn(s.world, ctx);
    }
  }

  /** A context nothing was opened in counts from zero. */
  lemma UntouchedReads(s: Sys, key: Key, ctx: Context)
    requires Untouched(s, key, ctx.info) && ctx.recipient == key
    ensures Reads(s, Endpoint(ctx, 0), ctx.info)
  {}

  lemma ArkRepliesKeeps(p: Params, s: Sys, ev: Event)
    requires Inv(s) && Enabled(p, s, ArkTakes(ev)) && A.Answered(ArkCfg(p), ArkState(s), ev.input).Some?
    ensures Inv(Next(p, s, ArkTakes(ev)))
  {
    var s' := Next(p, s, ArkTakes(ev));
    if s'.ark.AwaitAck? {
      var hello := A.Answered(ArkCfg(p), ArkState(s), ev.input).value;
      var ctx := Context(hello.crypto, ev.encap, ArkToHost);
      assert ctx !in s.world.sealed;
    }
    QuietKeeps(s, s');
  }

  lemma ArkTakesKeeps(p: Params, s: Sys, ev: Event)
    requires Inv(s) && Enabled(p, s, ArkTakes(ev)) && !(s.ark.Live? && ev.input.Packet?)
    ensures Inv(Next(p, s, ArkTakes(ev)))
  {
    var s' := Next(p, s, ArkTakes(ev));
    if A.Answered(ArkCfg(p), ArkState(s), ev.input).Some? {
      ArkRepliesKeeps(p, s, ev);
    } else {
      if s'.ark.Live? {
        UntouchedReads(s, s.ark.eph, s'.ark.link.receiver.ctx);
      }
      QuietKeeps(s, s');
    }
  }

  /** Opening the next message of a context keeps it in order. */
  lemma OpenKeeps(s: Sys, s': Sys, ctx: Context, msg: Bytes)
    requires Inv(s) && s'.world == s.world && s'.foreign == s.foreign && s'.read == Reading(s, ctx, msg)
    requires var n := |ReadIn(s, ctx)|; n < |SealedIn(s.world, ctx)| && msg == SealedIn(s.world, ctx)[n]
    requires ctx.recipient in s.world.used
    ensures InOrder(s') && Drawn(s')
  {}

  lemma ArkOpensKeeps(p: Params, s: Sys, ev: Event)
    requires Inv(s) && Enabled(p, s, ArkTakes(ev)) && s.ark.Live? && ev.input.Packet?
    ensures Inv(Next(p, s, ArkTakes(ev)))
  {
    var s' := Next(p, s, ArkTakes(ev));
    match Open(p.suite, s.world, s.ark.link, ev.input.data) {
      case None => QuietKeeps(s, s');
      case Some((link, msg)) =>
        OpenKeeps(s, s', s.ark.link.receiver.ctx, msg);
    }
  }

  /** Sealing in a context nobody else seals in. */
  lemma SealKeeps(s: Sys, s': Sys, ctx: Context, msg: Bytes)
    requires Inv(s) && s'.read == s.read && s'.foreign == s.foreign && s'.world.used == s.world.used
    requires s'.world.sealed == s.world.sealed[ctx := SealedIn(s.world, ctx) + [msg]] && ctx.encap in s.world.used
    ensures InOrder(s') && Drawn(s')
    ensures forall e: Endpoint, info :: Sends(s, e, info) && e.ctx != ctx ==> Sends(s', e, info)
    ensures forall e: Endpoint, info :: Reads(s, e, info) ==> Reads(s', e, info)
  {
    forall c
      ensures ReadIn(s', c) <= SealedIn(s'.world, c)
    {
      assert ReadIn(s, c) <= SealedIn(s.world, c);
    }
  }

  lemma ArkSendsKeeps(p: Params, s: Sys, a: Action)
    requires Inv(s) && Enabled(p, s, a) && a.ArkSends?
    ensures Inv(Next(p, s, a))
  {
    var s' := Next(p, s, a);
    if s'.world.sealed == s.world.sealed {
      QuietKeeps(s, s');
    } else {
      SealKeeps(s, s', s.ark.link.sender.ctx, a.msg);
    }
  }

  lemma HostSendsKeeps(p: Params, s: Sys, a: Action)
    requires Inv(s) && Enabled(p, s, a) && a.HostSends?
    ensures Inv(Next(p, s, a))
  {
    var s' := Next(p, s, a);
    if s'.world.sealed == s.world.sealed {
      QuietKeeps(s, s');
    } else {
      SealKeeps(s, s', s.host.link.sender.ctx, a.msg);
    }
  }

  lemma HostBeginsKeeps(p: Params, s: Sys, a: Action)
    requires Inv(s) && Enabled(p, s, a) && a.HostBegins?
    ensures Inv(Next(p, s, a))
  {
    QuietKeeps(s, Next(p, s, a));
  }

  lemma HostPollsKeeps(p: Params, s: Sys, verifier: H.Verifier, ev: Event)
    requires Inv(s) && Enabled(p, s, HostPolls(verifier, ev))
    ensures Inv(Next(p, s, HostPolls(verifier, ev)))
  {
    var s' := Next(p, s, HostPolls(verifier, ev));
    if s'.host.Up? {
      var e := Judged(p, s, verifier, ev.input).value.0;
      assert Context(e.payload.crypto, ev.encap, HostToArk) !in s.world.sealed;
      UntouchedReads(s, s.host.keys.crypto, s'.host.link.receiver.ctx);
    }
    QuietKeeps(s, s');
  }

  lemma HostTakesKeeps(p: Params, s: Sys, a: Action)
    requires Inv(s) && Enabled(p, s, a) && a.HostTakes?
    ensures Inv(Next(p, s, a))
  {
    var s' := Next(p, s, a);
    if s.host.Up? && a.input.Packet? && Open(p.suite, s.world, s.host.link, a.input.data).Some? {
      OpenKeeps(s, s', s.host.link.receiver.ctx, Open(p.suite, s.world, s.host.link, a.input.data).value.1);
    } else {
      QuietKeeps(s, s');
    }
  }

  lemma OutsiderKeeps(p: Params, s: Sys, a: Action)
    requires Inv(s) && Enabled(p, s, a) && (a.OutsiderDraws? || a.OutsiderSeals?)
    ensures Inv(Next(p, s, a))
  {
    var s' := Next(p, s, a);
    match a
    case OutsiderSeals(ctx, msg) => SealKeeps(s, s', ctx, msg);
    case OutsiderDraws(_) =>
      forall ctx
        ensures ReadIn(s', ctx) <= SealedIn(s'.world, ctx)
      {
        assert ReadIn(s, ctx) <= SealedIn(s.world, ctx);
      }
  }

  lemma NextInv(p: Params, s: Sys, a: Action)
    requires Inv(s) && Enabled(p, s, a)
    ensures Inv(Next(p, s, a))
  {
    match a
    case ArkTakes(ev) =>
      if s.ark.Live? && ev.input.Packet? { ArkOpensKeeps(p, s, ev); } else { ArkTakesKeeps(p, s, ev); }
    case ArkSends(_, _) => ArkSendsKeeps(p, s, a);
    case HostSends(_, _) => HostSendsKeeps(p, s, a);
    case HostBegins(_, _, _) => HostBeginsKeeps(p, s, a);
    case HostPolls(verifier, ev) => HostPollsKeeps(p, s, verifier, ev);
    case HostTakes(_) => HostTakesKeeps(p, s, a);
    case ArkFails => QuietKeeps(s, Next(p, s, a));
    case HostFails => QuietKeeps(s, Next(p, s, a));
    case _ => OutsiderKeeps(p, s, a);
  }

  lemma {:induction false} RunInv(p: Params, states: seq<Sys>, actions: seq<Action>)
    requires IsRun(p, states, actions)
    ensures Inv(states[|actions|])
    decreases |actions|
  {
    if actions == [] {
      InitInv(p, states[0]);
    } else {
      var n := |actions| - 1;
      RunInv(p, states[..n + 1], actions[..n]);
      NextInv(p, states[n], actions[n]);
    }
  }

  /**
   In-order delivery. In every run over a network anybody can write to, with failing
   reads and writes, resets and repeated handshakes, the messages opened in a context
   are a gap-free, duplicate-free prefix of the messages sealed in that context; and
   the live sessions stand exactly at the ends of these records.
   */
  lemma DeliveredInOrder(p: Params, states: seq<Sys>, actions: seq<Action>)
    requires IsRun(p, states, actions)
    ensures var s := states[|actions|];
            && (forall ctx :: ReadIn(s, ctx) <= SealedIn(s.world, ctx))
            && (s.ark.Live? ==>
                  && s.ark.link.receiver.seqno == |ReadIn(s, s.ark.link.receiver.ctx)|
                  && s.ark.link.sender.seqno == |SealedIn(s.world, s.ark.link.sender.ctx)|)
            && (s.host.Up? ==>
                  && s.host.link.receiver.seqno == |ReadIn(s, s.host.link.receiver.ctx)|
                  && s.host.link.sender.seqno == |SealedIn(s.world, s.host.link.sender.ctx)|)
  {
    RunInv(p, states, actions);
  }

  /** Taking input and starting over seal no message. */
  lemma ArkTakingSealsNothing(p: Params, s: Sys, ev: Event)
    requires Enabled(p, s, ArkTakes(ev))
    ensures Next(p, s, ArkTakes(ev)).world.sealed == s.world.sealed
  {
    A.ReceivingSealsNothing(ArkCfg(p), ArkState(s), ev);
  }

  lemma HostTakingSealsNothing(p: Params, s: Sys, a: Action)
    requires Enabled(p, s, a) && (a.HostBegins? || a.HostPolls? || a.HostTakes?)
    ensures Next(p, s, a).world.sealed == s.world.sealed
  {}

  /** Only a live session holding its sender, or an outsider in an outsider's context, adds to a context. */
  lemma OnlySenderSeals(p: Params, s: Sys, a: Action, ctx: Context)
    requires Enabled(p, s, a) && SealedIn(Next(p, s, a).world, ctx) != SealedIn(s.world, ctx)
    ensures || (a.ArkSends? && s.ark.Live? && s.ark.link.sender.ctx == ctx)
            || (a.HostSends? && s.host.Up? && s.host.link.sender.ctx == ctx)
            || (a.OutsiderSeals? && ctx.encap in s.foreign)
  {
    if a.ArkTakes? {
      ArkTakingSealsNothing(p, s, a.ev);
    } else if a.HostBegins? || a.HostPolls? || a.HostTakes? {
      HostTakingSealsNothing(p, s, a);
    }
  }

  /**
   A genuine session delivers what its peer sealed in it and nothing else: both its
   contexts belong to the two runs that agreed on them, and what was opened in either is
   a prefix of what was sealed there.
   */
  lemma SessionDelivers(p: Params, states: seq<Sys>, actions: seq<Action>, i: nat)
    requires IsRun(p, states, actions)
    requires i < |states[|actions|].completions| && states[|actions|].completions[i].genuine
    ensures var s := states[|actions|];
            var c := s.completions[i];
            && Agreed(p, s, c)
            && c.link.receiver.ctx.encap !in s.foreign && c.link.sender.ctx.encap !in s.foreign
            && ReadIn(s, c.link.receiver.ctx) <= SealedIn(s.world, c.link.receiver.ctx)
            && ReadIn(s, c.link.sender.ctx) <= SealedIn(s.world, c.link.sender.ctx)
  {
    RunInv(p, states, actions);
    Agreement.RunProvenance(p, states, actions);
    var s := states[|actions|];
    var c := s.completions[i];
    var run := s.hostRuns[c.hello.signer];
    assert Agreed(p, s, c);
    assert Verified(s, run);
    assert Own(s, run.encap) && Own(s, s.arkRuns[c.eph].encap);
  }

  /**
   The same from the host's side, whether or not the Ark ever completes: a run that
   acknowledged this Ark's hello has contexts of its own and the Ark's making, and what was
   opened in either is a prefix of what was sealed there.
   */
  lemma HostSessionDelivers(p: Params, states: seq<Sys>, actions: seq<Action>, k: Key)
    requires IsRun(p, states, actions)
    requires var s := states[|actions|]; k in s.hostRuns && s.hostRuns[k].identity == p.arkSigner
    ensures var s := states[|actions|];
            var run := s.hostRuns[k];
            && Verified(s, run)
            && var link := H.Established(run.keys, run.hello, run.encap);
               && link.sender.ctx.encap !in s.foreign && link.receiver.ctx.encap !in s.foreign
               && link.receiver.ctx == Context(run.keys.crypto, s.arkRuns[run.hello.crypto].encap, ArkToHost)
               && ReadIn(s, link.sender.ctx) <= SealedIn(s.world, link.sender.ctx)
               && ReadIn(s, link.receiver.ctx) <= SealedIn(s.world, link.receiver.ctx)
               && (s.host.Up? && s.run == k ==> SameContexts(s.host.link, link))
  {
    RunInv(p, states, actions);
    Agreement.RunProvenance(p, states, actions);
    var s := states[|actions|];
    var run := s.hostRuns[k];
    assert Verified(s, run);
    assert Own(s, run.encap) && Own(s, s.arkRuns[run.hello.crypto].encap);
  }

  // ------------------------------------------------------ dropped sessions

  /** The context belongs to no session that is live or could still come about. */
  ghost predicate Retired(s: Sys, ctx: Context) {
    && ctx.recipient in s.world.used
    && (s.ark.Live? ==> s.ark.link.receiver.ctx != ctx)
    && (s.ark.AwaitAck? && ctx.info == HostToArk ==> s.ark.eph != ctx.recipient)
    && (s.host.Up? ==> s.host.link.receiver.ctx != ctx)
    && (s.host.Waiting? && ctx.info == ArkToHost ==> s.host.keys.crypto != ctx.recipient)
  }

  lemma RetiredOverArk(p: Params, s: Sys, ev: Event, ctx: Context)
    requires Enabled(p, s, ArkTakes(ev)) && Retired(s, ctx)
    ensures Retired(Next(p, s, ArkTakes(ev)), ctx)
    ensures ReadIn(Next(p, s, ArkTakes(ev)), ctx) == ReadIn(s, ctx)
  {}

  lemma RetiredOverHost(p: Params, s: Sys, a: Action, ctx: Context)
    requires Enabled(p, s, a) && Retired(s, ctx) && (a.HostPolls? || a.HostTakes?)
    ensures Retired(Next(p, s, a), ctx)
    ensures ReadIn(Next(p, s, a), ctx) == ReadIn(s, ctx)
  {}

  lemma RetiredStays(p: Params, s: Sys, a: Action, ctx: Context)
    requires Enabled(p, s, a) && Retired(s, ctx)
    ensures Retired(Next(p, s, a), ctx)
    ensures ReadIn(Next(p, s, a), ctx) == ReadIn(s, ctx)
  {
    match a
    case ArkTakes(ev) => RetiredOverArk(p, s, ev, ctx);
    case HostPolls(_, _) => RetiredOverHost(p, s, a, ctx);
    case HostTakes(_) => RetiredOverHost(p, s, a, ctx);
    case _ =>
  }

  // A session that goes leaves its context retired.

  lemma ArkLosesRetires(s: Sys, s': Sys)
    requires s.ark.Live? && Reads(s, s.ark.link.receiver, HostToArk) && HostPlace(s)
    requires s'.host == s.host && s.world.used <= s'.world.used && (s'.ark.Idle? || s'.ark.AwaitHello?)
    ensures Retired(s', s.ark.link.receiver.ctx)
  {}

  lemma ArkDropsTaking(p: Params, s: Sys, ev: Event)
    requires Enabled(p, s, ArkTakes(ev)) && s.ark.Live? && !Next(p, s, ArkTakes(ev)).ark.Live?
    ensures var s' := Next(p, s, ArkTakes(ev));
            s'.host == s.host && s'.world == s.world && (s'.ark.Idle? || s'.ark.AwaitHello?)
  {}

  lemma ArkDropsSending(p: Params, s: Sys, a: Action)
    requires Enabled(p, s, a) && a.ArkSends? && s.ark.Live? && !Next(p, s, a).ark.Live?
    ensures var s' := Next(p, s, a); s'.host == s.host && s'.world.used == s.world.used && s'.ark.Idle?
  {}

  lemma ArkDroppingRetires(p: Params, s: Sys, a: Action)
    requires Inv(s) && Enabled(p, s, a) && s.ark.Live? && !Next(p, s, a).ark.Live?
    ensures Retired(Next(p, s, a), s.ark.link.receiver.ctx)
  {
    if a.ArkTakes? {
      ArkDropsTaking(p, s, a.ev);
    } else if a.ArkSends? {
      ArkDropsSending(p, s, a);
    } else {
      OthersKeepArk(p, s, a);
    }
    ArkLosesRetires(s, Next(p, s, a));
  }

  lemma OthersKeepArk(p: Params, s: Sys, a: Action)
    requires Enabled(p, s, a) && !a.ArkTakes? && !a.ArkSends? && s.ark.Live?
    ensures Next(p, s, a).ark == s.ark
  {}

  lemma HostLosesRetires(s: Sys, s': Sys)
    requires s.host.Up? && Reads(s, s.host.link.receiver, ArkToHost) && ArkPlace(s)
    requires s'.ark == s.ark && s.world.used <= s'.world.used
    requires s'.host.Down? || (s'.host.Waiting? && s'.host.keys.crypto !in s.world.used)
    ensures Retired(s', s.host.link.receiver.ctx)
  {}

  lemma HostDropsBeginning(p: Params, s: Sys, a: Action)
    requires Enabled(p, s, a) && a.HostBegins?
    ensures var s' := Next(p, s, a);
            && s'.ark == s.ark && s.world.used <= s'.world.used
            && (s'.host.Down? || (s'.host.Waiting? && s'.host.keys.crypto !in s.world.used))
  {}

  lemma HostDropsTaking(p: Params, s: Sys, a: Action)
    requires Enabled(p, s, a) && a.HostTakes? && s.host.Up? && !Next(p, s, a).host.Up?
    ensures var s' := Next(p, s, a); s'.ark == s.ark && s'.world == s.world && s'.host.Down?
  {}

  lemma HostDropsSending(p: Params, s: Sys, a: Action)
    requires Enabled(p, s, a) && a.HostSends? && s.host.Up? && !Next(p, s, a).host.Up?
    ensures var s' := Next(p, s, a); s'.ark == s.ark && s'.world.used == s.world.used && s'.host.Down?
  {}

  lemma OthersKeepHost(p: Params, s: Sys, a: Action)
    requires Enabled(p, s, a) && !a.HostBegins? && !a.HostTakes? && !a.HostSends? && s.host.Up?
    ensures var s' := Next(p, s, a);
            s'.host == s.host || (s'.ark == s.ark && s'.world == s.world && s'.host.Down?)
  {}

  lemma HostDroppingRetires(p: Params, s: Sys, a: Action)
    requires Inv(s) && Enabled(p, s, a) && s.host.Up? && !Next(p, s, a).host.Up?
    ensures Retired(Next(p, s, a), s.host.link.receiver.ctx)
  {
    if a.HostBegins? {
      HostDropsBeginning(p, s, a);
    } else if a.HostTakes? {
      HostDropsTaking(p, s, a);
    } else if a.HostSends? {
      HostDropsSending(p, s, a);
    } else {
      OthersKeepHost(p, s, a);
    }
    HostLosesRetires(s, Next(p, s, a));
  }

  /** Once a session is dropped, nothing is ever opened in its context again. */
  lemma {:induction false} DroppedNeverDelivers(p: Params, states: seq<Sys>, actions: seq<Action>, i: nat, ctx: Context)
    requires IsRun(p, states, actions)
    requires i <= |actions| && Retired(states[i], ctx)
    ensures Retired(states[|actions|], ctx)
    ensures ReadIn(states[|actions|], ctx) == ReadIn(states[i], ctx)
    decreases |actions|
  {
    if i < |actions| {
      var n := |actions| - 1;
      DroppedNeverDelivers(p, states[..n + 1], actions[..n], i, ctx);
      RetiredStays(p, states[n], actions[n], ctx);
    }
  }
}
