/** Handshake agreement over an arbitrary network. */
module Agreement {
  import opened Bytes
  import opened Crypto
  import opened Network
  import opened Turns
  import A = ArkMachine
  import H = HostMachine
  import Packets

  lemma InitProvenance(p: Params, s: Sys)
    requires Init(p, s)
    ensures Provenance(p, s)
  {}

  /** Steps that neither sign nor complete anything. */
  lemma QuietKeeps(p: Params, s: Sys, s': Sys)
    requires Provenance(p, s)
    requires s'.world.signed == s.world.signed && s'.world.honest == s.world.honest && s.world.used <= s'.world.used
    requires s'.hosts == s.hosts && s'.run == s.run && s'.arkRuns == s.arkRuns && s'.hostRuns == s.hostRuns
    requires s'.completions == s.completions
    requires ArkKnows(p, s') && HostKnows(s')
    ensures Provenance(p, s')
  {}

  /** The Ark answers a hello. */
  lemma ReplyKeeps(p: Params, s: Sys, ev: Event)
    requires Provenance(p, s) && Enabled(p, s, ArkTakes(ev))
    requires A.Answered(ArkCfg(p), ArkState(s), ev.input).Some?
    ensures Provenance(p, Next(p, s, ArkTakes(ev)))
  {
    var hello := A.Answered(ArkCfg(p), ArkState(s), ev.input).value;
    var s' := Next(p, s, ArkTakes(ev));
    if !p.suite.keyOk(hello.crypto) {
      QuietKeeps(p, s, s');
    } else {
      assert ev.eph !in s.arkRuns;
      assert A.Hello(ArkCfg(p), hello, ev) == HelloOf(p, ev.eph, s'.arkRuns[ev.eph]);
      OldRunsStand(p, s, s');
    }
  }

  /** New records do not disturb the old ones. */
  lemma OldRunsStand(p: Params, s: Sys, s': Sys)
    requires Provenance(p, s)
    requires forall k :: k in s.arkRuns ==> k in s'.arkRuns && s'.arkRuns[k] == s.arkRuns[k]
    requires forall k :: k in s.hostRuns ==> k in s'.hostRuns && s'.hostRuns[k] == s.hostRuns[k]
    ensures forall k :: k in s.hostRuns && s.hostRuns[k].identity == p.arkSigner ==> Verified(s', s'.hostRuns[k])
    ensures forall i :: 0 <= i < |s.completions| && s.completions[i].genuine ==> Agreed(p, s', s.completions[i])
    ensures forall i :: 0 <= i < |s.completions| ==> OfRun(s', s.completions[i])
  {}

  /** The acknowledgement an Ark accepts from a host run's key is the one that run signed for it. */
  lemma AckIsFromRun(p: Params, s: Sys, data: Bytes)
    requires Provenance(p, s) && s.ark.AwaitAck? && s.ark.hello.signer in s.hosts
    requires A.Complete(ArkCfg(p), s.world, s.ark.hello, s.ark.eph, s.ark.sender, data).Some?
    ensures Agreed(p, s, Completion(s.ark.hello, s.ark.eph,
              A.Complete(ArkCfg(p), s.world, s.ark.hello, s.ark.eph, s.ark.sender, data).value, true))
  {
    var e := Decrypt(p.suite, data, AckAuth(p.arkSigner, s.ark.eph), s.ark.eph).value;
    assert e in s.world.signed;
    var run := s.hostRuns[e.signer];
    assert e == AckOf(run);
    assert Verified(s, run);
  }

  /** The Ark completes a handshake. */
  lemma CompletionKeeps(p: Params, s: Sys, ev: Event)
    requires Provenance(p, s) && Enabled(p, s, ArkTakes(ev))
    requires s.ark.AwaitAck? && Next(p, s, ArkTakes(ev)).ark.Live?
    ensures Provenance(p, Next(p, s, ArkTakes(ev)))
  {
    var s' := Next(p, s, ArkTakes(ev));
    var c := s'.completions[|s.completions|];
    assert s'.completions == s.completions + [c];
    if c.genuine {
      AckIsFromRun(p, s, ev.input.data);
      assert Agreed(p, s, c);
    }
    OldRunsStand(p, s, s');
    forall i | 0 <= i < |s'.completions| && s'.completions[i].genuine
      ensures Agreed(p, s', s'.completions[i])
    {
      if i < |s.completions| {
        assert s'.completions[i] == s.completions[i];
      }
    }
  }

  lemma ArkTakesKeeps(p: Params, s: Sys, ev: Event)
    requires Provenance(p, s) && Enabled(p, s, ArkTakes(ev))
    ensures Provenance(p, Next(p, s, ArkTakes(ev)))
  {
    var s' := Next(p, s, ArkTakes(ev));
    if A.Answered(ArkCfg(p), ArkState(s), ev.input).Some? {
      ReplyKeeps(p, s, ev);
    } else if s.ark.AwaitAck? && s'.ark.Live? {
      CompletionKeeps(p, s, ev);
    } else {
      QuietKeeps(p, s, s');
    }
  }

  lemma HostBeginsFrame(p: Params, s: Sys, a: Action)
    requires KeysDrawn(p, s) && Enabled(p, s, a) && a.HostBegins?
    ensures var s' := Next(p, s, a);
            && s'.ark == s.ark && s'.arkRuns == s.arkRuns && s'.hostRuns == s.hostRuns
            && s'.completions == s.completions && s'.world.signed == s.world.signed
            && s.world.used <= s'.world.used && KeysDrawn(p, s') && HostKnows(s')
  {}

  lemma HostBeginsKeeps(p: Params, s: Sys, a: Action)
    requires Provenance(p, s) && Enabled(p, s, a) && a.HostBegins?
    ensures Provenance(p, Next(p, s, a))
  {
    HostBeginsFrame(p, s, a);
    OldRunsStand(p, s, Next(p, s, a));
  }

  /** The hello a host accepts from this Ark's identity is one the Ark made for that very run. */
  lemma HelloIsFromRun(p: Params, s: Sys, verifier: H.Verifier, input: Packets.Input)
    requires Provenance(p, s) && s.host.Waiting?
    requires Judged(p, s, verifier, input).Some? && Judged(p, s, verifier, input).value.1 == p.arkSigner
    ensures var e := Judged(p, s, verifier, input).value.0;
            forall encap :: Verified(s, HostRun(s.host.keys, p.arkSigner, e.payload, encap, verifier))
  {
    var e := Judged(p, s, verifier, input).value.0;
    assert e in s.world.signed;
    assert e == HelloOf(p, e.payload.crypto, s.arkRuns[e.payload.crypto]);
  }

  /** What changes when the host accepts a hello: its run is on record, with its acknowledgement. */
  lemma HostAnswersFrame(p: Params, s: Sys, verifier: H.Verifier, ev: Event)
    requires KeysDrawn(p, s) && HostKnows(s)
    requires Enabled(p, s, HostPolls(verifier, ev)) && Judged(p, s, verifier, ev.input).Some?
    ensures var s' := Next(p, s, HostPolls(verifier, ev));
            var (e, identity) := Judged(p, s, verifier, ev.input).value;
            var run := HostRun(s.host.keys, identity, e.payload, ev.encap, verifier);
            && Named(p, run) && e.payload.ArkHello? && s.run !in s.hostRuns && s.host.keys.signer == s.run
            && s'.ark == s.ark && s'.arkRuns == s.arkRuns && s'.completions == s.completions
            && s'.hostRuns == s.hostRuns[s.run := run] && s'.world.signed == s.world.signed + {AckOf(run)}
            && KeysDrawn(p, s') && HostKnows(s')
  {}

  /** A hello the host accepts makes this run of the host, and the run signs its acknowledgement. */
  lemma HostAnswersKeeps(p: Params, s: Sys, verifier: H.Verifier, ev: Event)
    requires Provenance(p, s) && Enabled(p, s, HostPolls(verifier, ev)) && Judged(p, s, verifier, ev.input).Some?
    ensures Provenance(p, Next(p, s, HostPolls(verifier, ev)))
  {
    var s' := Next(p, s, HostPolls(verifier, ev));
    var (e, identity) := Judged(p, s, verifier, ev.input).value;
    var run := HostRun(s.host.keys, identity, e.payload, ev.encap, verifier);
    HostAnswersFrame(p, s, verifier, ev);
    if identity == p.arkSigner {
      HelloIsFromRun(p, s, verifier, ev.input);
      assert Verified(s, run);
    }
    RunRecorded(p, s, s', run);
  }

  /** One more host run on record, with its acknowledgement. */
  lemma RunRecorded(p: Params, s: Sys, s': Sys, run: HostRun)
    requires Provenance(p, s) && s.run !in s.hostRuns && run.keys.signer == s.run && run.hello.ArkHello?
    requires run.identity == p.arkSigner ==> Verified(s, run)
    requires Named(p, run)
    requires s'.ark == s.ark && s'.arkRuns == s.arkRuns && s'.completions == s.completions
    requires s'.hostRuns == s.hostRuns[s.run := run] && s'.world.signed == s.world.signed + {AckOf(run)}
    requires KeysDrawn(p, s') && HostKnows(s')
    ensures Provenance(p, s')
  {
    OldRunsStand(p, s, s');
    assert run.identity == p.arkSigner ==> Verified(s', run);
  }

  lemma HostPollsKeeps(p: Params, s: Sys, verifier: H.Verifier, ev: Event)
    requires Provenance(p, s) && Enabled(p, s, HostPolls(verifier, ev))
    ensures Provenance(p, Next(p, s, HostPolls(verifier, ev)))
  {
    if Judged(p, s, verifier, ev.input).None? {
      QuietKeeps(p, s, Next(p, s, HostPolls(verifier, ev)));
    } else {
      HostAnswersKeeps(p, s, verifier, ev);
    }
  }

  lemma ArkQuietKeeps(p: Params, s: Sys, a: Action)
    requires Provenance(p, s) && Enabled(p, s, a) && (a.ArkSends? || a.ArkFails?)
    ensures Provenance(p, Next(p, s, a))
  {
    QuietKeeps(p, s, Next(p, s, a));
  }

  lemma HostSendsKeeps(p: Params, s: Sys, a: Action)
    requires Provenance(p, s) && Enabled(p, s, a) && a.HostSends?
    ensures Provenance(p, Next(p, s, a))
  {
    QuietKeeps(p, s, Next(p, s, a));
  }

  lemma HostTakesFrame(p: Params, s: Sys, a: Action)
    requires HostKnows(s) && Enabled(p, s, a) && a.HostTakes?
    ensures var s' := Next(p, s, a); s' == s.(host := s'.host, read := s'.read) && HostKnows(s')
  {}

  lemma HostTakesKeeps(p: Params, s: Sys, a: Action)
    requires Provenance(p, s) && Enabled(p, s, a) && a.HostTakes?
    ensures Provenance(p, Next(p, s, a))
  {
    HostTakesFrame(p, s, a);
    QuietKeeps(p, s, Next(p, s, a));
  }

  lemma HostFailsKeeps(p: Params, s: Sys)
    requires Provenance(p, s)
    ensures Provenance(p, Next(p, s, HostFails))
  {
    QuietKeeps(p, s, Next(p, s, HostFails));
  }

  lemma OutsiderKeeps(p: Params, s: Sys, a: Action)
    requires Provenance(p, s) && Enabled(p, s, a) && (a.OutsiderDraws? || a.OutsiderSeals?)
    ensures Provenance(p, Next(p, s, a))
  {
    QuietKeeps(p, s, Next(p, s, a));
  }

  lemma NextProvenance(p: Params, s: Sys, a: Action)
    requires Provenance(p, s) && Enabled(p, s, a)
    ensures Provenance(p, Next(p, s, a))
  {
    match a
    case ArkTakes(ev) => ArkTakesKeeps(p, s, ev);
    case HostBegins(_, _, _) => HostBeginsKeeps(p, s, a);
    case HostPolls(verifier, ev) => HostPollsKeeps(p, s, verifier, ev);
    case ArkSends(_, _) => ArkQuietKeeps(p, s, a);
    case ArkFails => ArkQuietKeeps(p, s, a);
    case HostTakes(_) => HostTakesKeeps(p, s, a);
    case HostSends(_, _) => HostSendsKeeps(p, s, a);
    case HostFails => HostFailsKeeps(p, s);
    case _ => OutsiderKeeps(p, s, a);
  }

  lemma {:induction false} RunProvenance(p: Params, states: seq<Sys>, actions: seq<Action>)
    requires IsRun(p, states, actions)
    ensures Provenance(p, states[|actions|])
    decreases |actions|
  {
    if actions == [] {
      InitProvenance(p, states[0]);
    } else {
      var n := |actions| - 1;
      RunProvenance(p, states[..n + 1], actions[..n]);
      NextProvenance(p, states[n], actions[n]);
    }
  }

  /**
   Agreement. In every run over a network anybody can write to, if the Ark completed a
   handshake on the hello of a genuine host run, then that run verified this Ark's
   identity, both have the same hello, and the contexts pair up in both directions.
   No two completions share a host run.
   */
  lemma HandshakeAgreement(p: Params, states: seq<Sys>, actions: seq<Action>, i: nat)
    requires IsRun(p, states, actions)
    requires i < |states[|actions|].completions| && states[|actions|].completions[i].genuine
    ensures var s := states[|actions|];
            var c := s.completions[i];
            && Agreed(p, s, c)
            && forall j :: 0 <= j < |s.completions| && j != i && s.completions[j].genuine ==>
                 s.completions[j].hello.signer != c.hello.signer
  {
    RunProvenance(p, states, actions);
    var s := states[|actions|];
    forall j | 0 <= j < |s.completions| && j != i && s.completions[j].genuine
      ensures s.completions[j].hello.signer != s.completions[i].hello.signer
    {
      assert Agreed(p, s, s.completions[i]) && Agreed(p, s, s.completions[j]);
      assert s.completions[i].eph != s.completions[j].eph;
    }
  }

  /**
   The host's side of it. In every run, a host run that acknowledged a hello under this
   Ark's identity acknowledged one this Ark made, with that ephemeral key and that
   encapsulation, for exactly this run's keys; and its session, if it has one, holds the
   contexts of the latest run.
   */
  lemma HostAgreement(p: Params, states: seq<Sys>, actions: seq<Action>, k: Key)
    requires IsRun(p, states, actions)
    requires var s := states[|actions|]; k in s.hostRuns && s.hostRuns[k].identity == p.arkSigner
    ensures var s := states[|actions|];
            && Verified(s, s.hostRuns[k]) && Named(p, s.hostRuns[k])
            && (s.host.Up? ==>
                  && s.run in s.hostRuns && s.hostRuns[s.run].hello.ArkHello?
                  && var run := s.hostRuns[s.run];
                     SameContexts(s.host.link, H.Established(run.keys, run.hello, run.encap)))
  {
    RunProvenance(p, states, actions);
  }
}
