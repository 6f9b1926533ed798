/** What the host ever writes: every piece of it belongs to one packet. */
module HostStream {
  import opened Bytes
  import opened Crypto
  import opened Network
  import opened Packets
  import opened Transport
  import Cobs
  import H = HostMachine

  /** `i` is where a piece of the stream starts. */
  predicate Start(s: Bytes, i: nat)
    requires i <= |s|
  {
    i == 0 || s[i - 1] == 0
  }

  /** The stream is at a frame boundary. */
  predicate Ended(s: Bytes) {
    Start(s, |s|)
  }

  /** `piece` is all or the beginning of the frame of one of these packets. */
  ghost predicate OfOne(packets: set<Bytes>, piece: Bytes) {
    piece == [] || exists p :: p in packets && piece <= Cobs.Encode(p)
  }

  /** Every delimiter-free stretch from the start of a piece, complete or not, belongs to one packet. */
  ghost predicate Unmixed(packets: set<Bytes>, s: Bytes) {
    forall i, j :: 0 <= i <= j <= |s| && Start(s, i) && ZeroFree(s[i..j]) ==> OfOne(packets, s[i..j])
  }

  /** Chunks may follow each other unless an unfinished piece meets a byte other than the delimiter. */
  lemma Follows(packets: set<Bytes>, s: Bytes, c: Bytes)
    requires Unmixed(packets, s) && Unmixed(packets, c) && (Ended(s) || c == [] || c[0] == 0)
    ensures Unmixed(packets, s + c)
  {
    var t := s + c;
    forall i, j | 0 <= i <= j <= |t| && Start(t, i) && ZeroFree(t[i..j])
      ensures OfOne(packets, t[i..j])
    {
      var n := |s|;
      if j <= n {
        assert t[i..j] == s[i..j];
        assert i > 0 ==> t[i - 1] == s[i - 1];
      } else if i >= n {
        SliceOfBack(s, c, i, j);
        assert Start(c, i - n);
      } else {
        NoCrossing(s, c, i, j);
      }
    }
  }

  lemma SliceOfBack(s: Bytes, c: Bytes, i: nat, j: nat)
    requires |s| <= i <= j <= |s + c|
    ensures (s + c)[i..j] == c[i - |s|..j - |s|]
    ensures i > |s| ==> (s + c)[i - 1] == c[i - |s| - 1]
  {}

  /** A stretch across the seam contains a delimiter. */
  lemma NoCrossing(s: Bytes, c: Bytes, i: nat, j: nat)
    requires i < |s| < j <= |s + c| && (Ended(s) || c[0] == 0)
    ensures !ZeroFree((s + c)[i..j])
  {
    var n := |s|;
    var across := (s + c)[i..j];
    assert across[n - i] == c[0] && across[n - 1 - i] == s[n - 1];
  }

  lemma Grows(packets: set<Bytes>, more: set<Bytes>, s: Bytes)
    requires Unmixed(packets, s) && packets <= more
    ensures Unmixed(more, s)
  {}

  /** Whatever a write attempt leaves on the wire is the beginning of that packet's frame. */
  lemma EmittedUnmixed(max: nat, packet: Bytes, w: Write)
    ensures Unmixed({packet}, Emitted(max, packet, w))
    ensures SendOk(max, packet, w) ==> Ended(Emitted(max, packet, w))
  {
    var s, e := Emitted(max, packet, w), Cobs.Encode(packet);
    Cobs.EncodeZeroFree(packet);
    forall i, j | 0 <= i <= j <= |s| && Start(s, i) && ZeroFree(s[i..j])
      ensures OfOne({packet}, s[i..j])
    {
      if i < j {
        PrefixOfFrame(e, s, i, j);
      }
    }
  }

  lemma PrefixOfFrame(e: Bytes, s: Bytes, i: nat, j: nat)
    requires ZeroFree(e) && s <= e + [0] && i < j <= |s| && Start(s, i) && ZeroFree(s[i..j])
    ensures s[i..j] <= e
  {
    assert forall k :: 0 <= k < |s| && k < |e| ==> s[k] == e[k];
    assert s[i..j][j - 1 - i] == s[j - 1];
    assert j <= |e|;
    assert s[..j] == e[..j];
  }

  lemma DelimitersUnmixed(s: Bytes)
    requires s <= [0, 0]
    ensures Unmixed({}, s)
  {
    assert forall i, j :: 0 <= i < j <= |s| ==> s[i..j][0] == 0;
  }

  /** The packet a host's action hands to the framer, if any. */
  function Sent(p: Params, s: Sys, a: Action): set<Bytes>
    requires a.HostPolls? ==> s.host.Waiting?
  {
    match a
    case HostBegins(keys, _, _) => {p.suite.encodeHello(keys)}
    case HostPolls(verifier, ev) =>
      (match Judged(p, s, verifier, ev.input)
       case None => {}
       case Some((e, identity)) =>
         if e.payload.ArkHello? then {p.suite.sealEnvelope(H.Ack(s.host.keys, e.payload, identity, ev.encap))} else {})
    case HostSends(msg, _) =>
      if s.host.Up? then {p.suite.sealData(s.host.link.sender.ctx, s.host.link.sender.seqno, msg)} else {}
    case _ => {}
  }

  /** The bytes a host's action writes. */
  function Written(p: Params, s: Sys, a: Action): Bytes
    requires a.HostPolls? ==> s.host.Waiting?
  {
    match a
    case HostBegins(keys, reset, write) => H.Begin(HostCfg(p), s.world, keys, reset, write).out
    case HostPolls(verifier, ev) => H.Poll(HostCfg(p), HostState(s), verifier, ev).out
    case HostSends(msg, write) => H.Send(HostCfg(p), HostState(s), msg, write).out
    case _ => []
  }

  /** Everything the host wrote in a run, and every packet it tried to send. */
  ghost function Output(p: Params, states: seq<Sys>, actions: seq<Action>): (Bytes, set<Bytes>)
    requires IsRun(p, states, actions)
  {
    if actions == [] then ([], {})
    else
      var n := |actions| - 1;
      var (out, packets) := Output(p, states[..n + 1], actions[..n]);
      (out + Written(p, states[n], actions[n]), packets + Sent(p, states[n], actions[n]))
  }

  lemma BeginWrites(p: Params, s: Sys, a: Action)
    requires Enabled(p, s, a) && a.HostBegins?
    ensures var out := Written(p, s, a);
            && Unmixed(Sent(p, s, a), out) && (out == [] || out[0] == 0)
            && (!Next(p, s, a).host.Down? ==> Ended(out))
  {
    var packet := p.suite.encodeHello(a.keys);
    var sent := Sent(p, s, a);
    EmittedUnmixed(p.max, packet, a.write);
    if a.reset.Whole? {
      DelimitersUnmixed([0, 0]);
      Grows({}, sent, [0, 0]);
      Follows(sent, [0, 0], Emitted(p.max, packet, a.write));
      EndsLater([0, 0], Emitted(p.max, packet, a.write));
    } else {
      DelimitersUnmixed(Written(p, s, a));
      Grows({}, sent, Written(p, s, a));
    }
  }

  lemma EndsLater(s: Bytes, c: Bytes)
    ensures c != [] && Ended(c) ==> Ended(s + c)
    ensures c == [] && Ended(s) ==> Ended(s + c)
  {}

  lemma OthersWrite(p: Params, s: Sys, a: Action)
    requires Enabled(p, s, a) && !a.HostBegins?
    ensures Unmixed(Sent(p, s, a), Written(p, s, a))
    ensures s.host.Down? ==> Written(p, s, a) == [] && Next(p, s, a).host.Down?
    ensures !Next(p, s, a).host.Down? ==> Ended(Written(p, s, a))
  {
    DelimitersUnmixed([]);
    match a
    case HostPolls(verifier, ev) =>
      if Sent(p, s, a) != {} {
        var packet :| packet in Sent(p, s, a);
        EmittedUnmixed(p.max, packet, ev.write);
      }
    case HostSends(msg, write) =>
      if s.host.Up? {
        EmittedUnmixed(p.max, p.suite.sealData(s.host.link.sender.ctx, s.host.link.sender.seqno, msg), write);
      }
      Grows({}, Sent(p, s, a), []);
    case _ =>
  }

  /** One more action of the host. */
  lemma OutputGrows(p: Params, s: Sys, a: Action, out: Bytes, packets: set<Bytes>)
    requires Enabled(p, s, a) && Unmixed(packets, out) && (!s.host.Down? ==> Ended(out))
    ensures Unmixed(packets + Sent(p, s, a), out + Written(p, s, a))
    ensures !Next(p, s, a).host.Down? ==> Ended(out + Written(p, s, a))
  {
    var more := packets + Sent(p, s, a);
    if a.HostBegins? {
      BeginWrites(p, s, a);
    } else {
      OthersWrite(p, s, a);
    }
    Grows(packets, more, out);
    Grows(Sent(p, s, a), more, Written(p, s, a));
    Follows(more, out, Written(p, s, a));
    EndsLater(out, Written(p, s, a));
  }

  /**
   The host's output is well formed. In every run, each piece of it, complete or not, is
   all or the beginning of one packet's frame, so an interrupted frame never merges with
   a later one; and an unterminated frame exists only while the host has no session and
   waits for none.
   */
  lemma {:induction false} HostOutputUnmixed(p: Params, states: seq<Sys>, actions: seq<Action>)
    requires IsRun(p, states, actions)
    ensures var (out, packets) := Output(p, states, actions);
            Unmixed(packets, out) && (!states[|actions|].host.Down? ==> Ended(out))
    decreases |actions|
  {
    if actions == [] {
      DelimitersUnmixed([]);
    } else {
      var n := |actions| - 1;
      HostOutputUnmixed(p, states[..n + 1], actions[..n]);
      var (out, packets) := Output(p, states[..n + 1], actions[..n]);
      OutputGrows(p, states[n], actions[n], out, packets);
    }
  }

  /** After an unterminated frame, the next byte the host writes is a reset delimiter. */
  lemma UnfinishedMeetsReset(p: Params, states: seq<Sys>, actions: seq<Action>, a: Action)
    requires IsRun(p, states, actions) && Enabled(p, states[|actions|], a)
    requires !Ended(Output(p, states, actions).0)
    ensures Written(p, states[|actions|], a) == [] || (a.HostBegins? && Written(p, states[|actions|], a)[0] == 0)
  {
    HostOutputUnmixed(p, states, actions);
    if a.HostBegins? {
      BeginWrites(p, states[|actions|], a);
    } else {
      OthersWrite(p, states[|actions|], a);
    }
  }
}
