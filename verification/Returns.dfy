/** What the callers get, over whole runs: the messages opened that are messages, and nothing else. */
module Returns {
  import opened Bytes
  import opened Crypto
  import opened Delivery
  import opened Network
  import opened Packets
  import A = ArkMachine
  import H = HostMachine
  import HostContract
  import Wire

  function Decodable(suite: Suite, messages: seq<Bytes>): seq<Bytes> {
    if messages == [] then []
    else
      var n := |messages| - 1;
      Decodable(suite, messages[..n]) + (if suite.decodable(messages[n]) then [messages[n]] else [])
  }

  lemma DecodableMore(suite: Suite, messages: seq<Bytes>, msg: Bytes)
    ensures Decodable(suite, messages + [msg])
            == Decodable(suite, messages) + (if suite.decodable(msg) then [msg] else [])
  {
    assert (messages + [msg])[..|messages|] == messages;
  }

  /** What a call of the host returned in this step, unless it is through the session of another context. */
  function HostReturned(p: Params, s: Sys, a: Action, ctx: Context): seq<Bytes> {
    if !a.HostTakes? || (s.host.Up? && s.host.link.receiver.ctx != ctx) then []
    else match H.Receive(HostCfg(p), HostState(s), a.input).1
         case Ok(msg) => [msg]
         case Err(_) => []
  }

  /** The same for a call of the Ark, which returns what it opens if it is a message. */
  function ArkReturned(p: Params, s: Sys, a: Action, ctx: Context): seq<Bytes> {
    if !a.ArkTakes? || (s.ark.Live? && s.ark.link.receiver.ctx != ctx) then []
    else match A.Receive(ArkCfg(p), ArkState(s), a.ev).1.message
         case None => []
         case Some(msg) => if p.suite.decodable(msg) then [msg] else []
  }

  function Returned(p: Params, states: seq<Sys>, actions: seq<Action>, ctx: Context): seq<Bytes>
    requires |states| == |actions| + 1
  {
    if actions == [] then []
    else
      var n := |actions| - 1;
      var more := if ctx.info == ArkToHost then HostReturned(p, states[n], actions[n], ctx)
                  else ArkReturned(p, states[n], actions[n], ctx);
      Returned(p, states[..n + 1], actions[..n], ctx) + more
  }

  /** What was returned in a step is what was opened in it. */
  ghost predicate Matches(p: Params, s: Sys, s': Sys, ctx: Context, more: seq<Bytes>) {
    || (ReadIn(s', ctx) == ReadIn(s, ctx) && more == [])
    || exists msg :: && ReadIn(s', ctx) == ReadIn(s, ctx) + [msg]
                     && more == if p.suite.decodable(msg) then [msg] else []
  }

  lemma HostStepMatches(p: Params, s: Sys, a: Action, ctx: Context)
    requires Inv(s) && Enabled(p, s, a) && a.HostTakes? && ctx.info == ArkToHost
    ensures Matches(p, s, Next(p, s, a), ctx, HostReturned(p, s, a, ctx))
  {
    HostContract.ReadsExactly(HostCfg(p), HostState(s), a.input);
    var s' := Next(p, s, a);
    if s.host.Up? && s.host.link.receiver.ctx == ctx && s'.read != s.read {
      var msg := Open(p.suite, s.world, s.host.link, a.input.data).value.1;
      assert Wire.IsNextPacket(p.suite, s.world, s.host.link.receiver, a.input, msg);
      assert ReadIn(s', ctx) == ReadIn(s, ctx) + [msg];
    }
  }

  lemma ArkStepMatches(p: Params, s: Sys, a: Action, ctx: Context)
    requires Inv(s) && Enabled(p, s, a) && a.ArkTakes? && ctx.info == HostToArk
    ensures Matches(p, s, Next(p, s, a), ctx, ArkReturned(p, s, a, ctx))
  {
    var s' := Next(p, s, a);
    if s.ark.Live? && s.ark.link.receiver.ctx == ctx && s'.read != s.read {
      var msg := A.Receive(ArkCfg(p), ArkState(s), a.ev).1.message.value;
      assert ReadIn(s', ctx) == ReadIn(s, ctx) + [msg];
    }
  }

  /** A side reads in contexts of its own direction only. */
  lemma OthersMatch(p: Params, s: Sys, a: Action, ctx: Context)
    requires Inv(s) && Enabled(p, s, a)
    requires if ctx.info == ArkToHost then !a.HostTakes? else !a.ArkTakes?
    ensures ReadIn(Next(p, s, a), ctx) == ReadIn(s, ctx)
  {
    if a.ArkTakes? {
      assert ArkPlace(s);
    } else if a.HostTakes? {
      assert HostPlace(s);
    }
  }

  /**
   In every run over an arbitrary network, the messages a side's calls returned are, for each
   context, exactly those opened in it that are messages, in order.
   */
  lemma {:induction false} ReturnedAreRead(p: Params, states: seq<Sys>, actions: seq<Action>, ctx: Context)
    requires IsRun(p, states, actions)
    ensures Returned(p, states, actions, ctx) == Decodable(p.suite, ReadIn(states[|actions|], ctx))
    decreases |actions|
  {
    if actions != [] {
      var n := |actions| - 1;
      var s, a := states[n], actions[n];
      ReturnedAreRead(p, states[..n + 1], actions[..n], ctx);
      RunInv(p, states[..n + 1], actions[..n]);
      var before := Returned(p, states[..n + 1], actions[..n], ctx);
      assert before + [] == before;
      if ctx.info == ArkToHost && a.HostTakes? {
        HostStepMatches(p, s, a, ctx);
      } else if ctx.info == HostToArk && a.ArkTakes? {
        ArkStepMatches(p, s, a, ctx);
      } else {
        OthersMatch(p, s, a, ctx);
      }
      if ReadIn(states[n + 1], ctx) != ReadIn(s, ctx) {
        var msg := ReadIn(states[n + 1], ctx)[|ReadIn(s, ctx)|];
        DecodableMore(p.suite, ReadIn(s, ctx), msg);
      }
    }
  }
}
