/** Sending in a session both sides hold. */
module Sending {
  import opened Bytes
  import opened Crypto
  import opened Lockstep
  import opened Network
  import opened Transport
  import opened Wire
  import ArkContract
  import HostContract

  /**
   In a session both sides hold, a message within the limits whose write goes out whole is
   in flight behind the others, and both still hold the session.
   */
  lemma SendingKeepsSession(p: Params, f: Fifo, a: Action, f': Fifo)
    requires Lawful(p.suite, 16) && HoldSame(f.sys) && Step(p, f, a, f')
    requires (a.ArkSends? || a.HostSends?) && a.write == Whole && Bound(|a.msg| + 16) <= p.max
    requires (if a.ArkSends? then f.sys.ark.link.sender else f.sys.host.link.sender).seqno < p.suite.limit
    ensures HoldSame(f'.sys)
    ensures var Endpoint(ctx, n) := if a.ArkSends? then f.sys.ark.link.sender else f.sys.host.link.sender;
            var frame := OnWire(p.suite.sealData(ctx, n, a.msg), Whole);
            && SealedIn(f'.sys.world, ctx) == SealedIn(f.sys.world, ctx) + [a.msg]
            && f'.toHost == (if a.ArkSends? then f.toHost + frame else f.toHost)
            && f'.toArk == (if a.ArkSends? then f.toArk else f.toArk + frame)
            && (if a.ArkSends? then f'.sys.ark.link.sender else f'.sys.host.link.sender) == Endpoint(ctx, n + 1)
  {
    if a.ArkSends? {
      ArkContract.SendsExactly(ArkCfg(p), ArkState(f.sys), a.msg, a.write);
    } else {
      HostContract.SendsExactly(HostCfg(p), HostState(f.sys), a.msg, a.write);
    }
  }
}
