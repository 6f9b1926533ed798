/** Facts about the byte strings in flight between two ends. */
module Channel {
  import opened Bytes
  import Cobs
  import opened Crypto
  import opened Packets
  import opened Splitter

  /** The frames of the messages sealed in a context from the `n`-th on. */
  function SealedFrames(suite: Suite, ctx: Context, msgs: seq<Bytes>, n: nat): Bytes
    decreases |msgs| - n
  {
    if n >= |msgs| then [] else Framed(suite.sealData(ctx, n, msgs[n])) + SealedFrames(suite, ctx, msgs, n + 1)
  }

  /** Every one of these messages went out in a frame the receiver keeps. */
  ghost predicate SealedFit(max: nat, suite: Suite, ctx: Context, msgs: seq<Bytes>) {
    forall i :: 0 <= i < |msgs| ==> i < suite.limit && Fits(max, suite.sealData(ctx, i, msgs[i]))
  }

  lemma {:induction false} DataGrows(suite: Suite, ctx: Context, msgs: seq<Bytes>, n: nat, msg: Bytes)
    requires n <= |msgs|
    ensures SealedFrames(suite, ctx, msgs + [msg], n)
            == SealedFrames(suite, ctx, msgs, n) + Framed(suite.sealData(ctx, |msgs|, msg))
    decreases |msgs| - n
  {
    var last := Framed(suite.sealData(ctx, |msgs|, msg));
    if n == |msgs| {
      assert SealedFrames(suite, ctx, msgs + [msg], n + 1) == [];
      assert last + [] == [] + last;
    } else {
      DataGrows(suite, ctx, msgs, n + 1, msg);
      Regroup(Framed(suite.sealData(ctx, n, msgs[n])), SealedFrames(suite, ctx, msgs, n + 1), last);
    }
  }

  lemma DataNext(max: nat, suite: Suite, ctx: Context, msgs: seq<Bytes>, n: nat)
    requires n < |msgs| && SealedFit(max, suite, ctx, msgs)
    ensures NextInput(max, SealedFrames(suite, ctx, msgs, n))
            == Some((Packet(suite.sealData(ctx, n, msgs[n])), SealedFrames(suite, ctx, msgs, n + 1)))
  {
    FramedIsNext(max, suite.sealData(ctx, n, msgs[n]), SealedFrames(suite, ctx, msgs, n + 1));
  }

  /** As many frames as messages, and nothing unfinished behind them. */
  lemma {:induction false} DataFrames(max: nat, suite: Suite, ctx: Context, msgs: seq<Bytes>, n: nat)
    requires n <= |msgs| && SealedFit(max, suite, ctx, msgs)
    ensures |Frames(max, SealedFrames(suite, ctx, msgs, n))| == |msgs| - n
    ensures Tail(SealedFrames(suite, ctx, msgs, n)) == []
    decreases |msgs| - n
  {
    if n < |msgs| {
      var packet, rest := suite.sealData(ctx, n, msgs[n]), SealedFrames(suite, ctx, msgs, n + 1);
      DataFrames(max, suite, ctx, msgs, n + 1);
      Cobs.EncodeZeroFree(packet);
      Cobs.EncodeLength(packet);
      FramesOfFirst(max, Framed(packet) + rest, Cobs.Encode(packet), rest);
      TailOfFirst(Framed(packet) + rest, Cobs.Encode(packet), rest);
    }
  }

  // ------------------------------------------------------------- freshness

  /** No part of these bytes, read as a frame, is a hello naming one of these keys. */
  ghost predicate NoHello(suite: Suite, s: Bytes, keys: HostHello) {
    forall i, j :: 0 <= i <= j <= |s| ==> !IsHello(suite, Interpret(s[i..j]), keys)
  }

  ghost predicate IsHello(suite: Suite, input: Input, keys: HostHello) {
    && input.Packet? && suite.decodeHello(input.data).Some?
    && Names(suite.decodeHello(input.data).value, keys)
  }

  predicate Names(hello: HostHello, keys: HostHello) {
    hello.signer == keys.signer || hello.crypto == keys.crypto
  }

  /** No part of these bytes, read as a frame, is an Ark's hello with this ephemeral key. */
  ghost predicate NoArkHello(suite: Suite, s: Bytes, eph: Key) {
    forall i, j :: 0 <= i <= j <= |s| ==> !IsArkHello(suite, Interpret(s[i..j]), eph)
  }

  ghost predicate IsArkHello(suite: Suite, input: Input, eph: Key) {
    && var data := if input.Packet? then input.data else [];
    && suite.readEnvelope(data).Some?
    && var e := suite.readEnvelope(data).value;
       e.payload.ArkHello? && e.payload.crypto == eph
  }

  lemma NoHelloLater(suite: Suite, s: Bytes, k: nat, keys: HostHello)
    requires k <= |s| && NoHello(suite, s, keys)
    ensures NoHello(suite, s[k..], keys)
  {
    forall i, j | 0 <= i <= j <= |s[k..]|
      ensures !IsHello(suite, Interpret(s[k..][i..j]), keys)
    {
      DropSlice(s, k, i, j);
      assert !IsHello(suite, Interpret(s[k + i..k + j]), keys);
    }
  }

  lemma NoArkHelloLater(suite: Suite, s: Bytes, k: nat, eph: Key)
    requires k <= |s| && NoArkHello(suite, s, eph)
    ensures NoArkHello(suite, s[k..], eph)
  {
    forall i, j | 0 <= i <= j <= |s[k..]|
      ensures !IsArkHello(suite, Interpret(s[k..][i..j]), eph)
    {
      DropSlice(s, k, i, j);
      assert !IsArkHello(suite, Interpret(s[k + i..k + j]), eph);
    }
  }

  // --------------------------------------------------------------- reading

  /** The next input comes from within `ahead`, and `later` is what remains of it. */
  ghost predicate FromAhead(ahead: Bytes, frame: Bytes, later: nat) {
    exists i, j :: 0 <= i <= j < later <= |ahead| + 1 && j + 1 == later && frame == ahead[i..j]
  }

  lemma AheadIsNoHello(suite: Suite, ahead: Bytes, frame: Bytes, later: nat, keys: HostHello)
    requires NoHello(suite, ahead, keys) && FromAhead(ahead, frame, later)
    ensures !IsHello(suite, Interpret(frame), keys)
  {}

  lemma AheadIsNoArkHello(suite: Suite, ahead: Bytes, frame: Bytes, later: nat, eph: Key)
    requires NoArkHello(suite, ahead, eph) && FromAhead(ahead, frame, later)
    ensures !IsArkHello(suite, Interpret(frame), eph)
  {}

  /** Reading a stream behind arbitrary bytes and a delimiter. */
  lemma AheadNext(max: nat, ahead: Bytes, t: Bytes) returns (cut: nat)
    requires NextFrame(max, ahead + ([0] + t)).Some?
    ensures var s := ahead + ([0] + t);
            || NextFrame(max, s) == NextFrame(max, t)
            || (FromAhead(ahead, NextFrame(max, s).value.0, cut)
                && NextFrame(max, s).value.1 == if cut <= |ahead| then ahead[cut..] + ([0] + t) else t)
  {
    var s := ahead + ([0] + t);
    Regroup(ahead, [0], t);
    NextFrameThrough(max, s, ahead, t);
    cut := 0;
    if NextFrame(max, s) != NextFrame(max, t) {
      var i, j :| 0 <= i <= j <= |ahead| && j < |s| && NextFrame(max, s) == Some((s[i..j], s[j + 1..]));
      SliceOfFront(ahead, [0] + t, i, j);
      cut := j + 1;
      if j < |ahead| {
        SuffixOfFront(ahead, [0] + t, j + 1);
      } else {
        SuffixOfFront(ahead, [0] + t, |ahead|);
        assert s[j + 1..] == s[j..][1..];
      }
    }
  }

  lemma SliceOfFront(a: Bytes, b: Bytes, i: nat, j: nat)
    requires i <= j <= |a|
    ensures (a + b)[i..j] == a[i..j]
  {}

  lemma SuffixOfFront(a: Bytes, b: Bytes, i: nat)
    requires i <= |a|
    ensures (a + b)[i..] == a[i..] + b
  {}

  /** Reading a stream whose last frame is `last`, behind arbitrary bytes. */
  lemma {:induction false} QueueNext(max: nat, s: Bytes, ahead: Bytes, last: Bytes) returns (cut: nat)
    requires s == ahead + (last + [0]) && ZeroFree(last) && NextFrame(max, s).Some?
    ensures var (frame, rest) := NextFrame(max, s).value;
            rest == [] || (cut <= |ahead| && rest == ahead[cut..] + (last + [0]) && FromAhead(ahead, frame, cut))
    decreases |ahead|
  {
    var piece, rest := UnconsQueue(s, ahead, last);
    NextOfFirst(max, s, piece, rest);
    var i := FirstZero(ahead);
    cut := 0;
    if i < |ahead| && |piece| <= max {
      cut := i + 1;
      assert piece == ahead[0..i];
      assert FromAhead(ahead, piece, cut);
    } else if i < |ahead| {
      var later := QueueNext(max, rest, ahead[i + 1..], last);
      var (frame, tail) := NextFrame(max, rest).value;
      if tail != [] {
        FromLater(ahead, i + 1, frame, later);
        cut := i + 1 + later;
      }
    }
  }

  lemma FromLater(ahead: Bytes, k: nat, frame: Bytes, later: nat)
    requires k <= |ahead| && FromAhead(ahead[k..], frame, later) && later <= |ahead[k..]|
    ensures FromAhead(ahead, frame, k + later) && ahead[k..][later..] == ahead[k + later..]
  {
    var i, j :| 0 <= i <= j < later <= |ahead[k..]| + 1 && j + 1 == later && frame == ahead[k..][i..j];
    DropSlice(ahead, k, i, j);
    assert frame == ahead[k + i..k + j];
  }

  /** First piece of bytes followed by a frame. */
  lemma UnconsQueue(s: Bytes, ahead: Bytes, last: Bytes) returns (piece: Bytes, rest: Bytes)
    requires s == ahead + (last + [0]) && ZeroFree(last)
    ensures s == piece + [0] + rest && ZeroFree(piece)
    ensures var i := FirstZero(ahead);
            if i < |ahead| then piece == ahead[..i] && rest == ahead[i + 1..] + (last + [0])
            else piece == ahead + last && rest == []
  {
    var i := FirstZero(ahead);
    if i < |ahead| {
      piece, rest := ahead[..i], ahead[i + 1..] + (last + [0]);
      assert ahead == ahead[..i] + [0] + ahead[i + 1..];
    } else {
      FirstZeroNone(ahead);
      piece, rest := ahead + last, [];
    }
  }

  // -------------------------------------------------------- failed reads

  /** Behind arbitrary bytes and a delimiter, a failed read leaves the rest alone. */
  lemma InterruptedThrough(max: nat, ahead: Bytes, t: Bytes, after: Bytes) returns (cut: nat)
    requires Interrupted(max, ahead + ([0] + t), after) && FirstFits(max, t)
    ensures after == t || (cut <= |ahead| && after == ahead[cut..] + ([0] + t))
  {
    var pre, junk :| Cut(max, ahead + ([0] + t), pre, junk, after);
    cut := CutThrough(max, ahead, t, pre, junk, after);
  }

  lemma {:induction false} CutThrough(max: nat, ahead: Bytes, t: Bytes, pre: Bytes, junk: Bytes, after: Bytes)
    returns (cut: nat)
    requires Cut(max, ahead + ([0] + t), pre, junk, after) && FirstFits(max, t)
    ensures after == t || (cut <= |ahead| && after == ahead[cut..] + ([0] + t))
    decreases |pre|
  {
    if pre == [] {
      assert [] + junk + after == junk + after;
      StaysAhead(ahead, t, junk, after);
      cut := |junk|;
    } else {
      var piece, rest, s := CutFirst(max, ahead + ([0] + t), pre, junk, after);
      PieceStaysAhead(ahead, t, piece, s);
      cut := 0;
      if |piece| == |ahead| {
        NothingCut(max, t, rest, junk, after);
      } else {
        var later := CutThrough(max, ahead[|piece| + 1..], t, rest, junk, after);
        cut := LaterCut(ahead, |piece| + 1, later, t, after);
      }
    }
  }

  /** The first of the frames that are gone. */
  lemma CutFirst(max: nat, before: Bytes, pre: Bytes, junk: Bytes, after: Bytes)
    returns (piece: Bytes, rest: Bytes, s: Bytes)
    requires Cut(max, before, pre, junk, after) && pre != []
    ensures before == piece + [0] + s && ZeroFree(piece)
    ensures Cut(max, s, rest, junk, after) && |rest| < |pre|
  {
    piece, rest := Uncons(pre);
    SkippedOfFirst(max, pre, piece, rest);
    s := rest + junk + after;
    Chain(piece, rest, junk, after);
  }

  lemma LaterCut(ahead: Bytes, k: nat, cut: nat, t: Bytes, after: Bytes) returns (cut': nat)
    requires k <= |ahead|
    requires after == t || (cut <= |ahead[k..]| && after == ahead[k..][cut..] + ([0] + t))
    ensures after == t || (cut' <= |ahead| && after == ahead[cut'..] + ([0] + t))
  {
    cut' := k + cut;
    if after != t {
      DropSlice(ahead, k, cut, |ahead[k..]|);
    }
  }

  lemma Chain(piece: Bytes, rest: Bytes, junk: Bytes, after: Bytes)
    ensures (piece + [0] + rest) + junk + after == piece + [0] + (rest + junk + after)
  {}

  lemma StaysAhead(ahead: Bytes, t: Bytes, junk: Bytes, after: Bytes)
    requires ahead + ([0] + t) == junk + after && ZeroFree(junk)
    ensures |junk| <= |ahead| && after == ahead[|junk|..] + ([0] + t)
  {
    var s := junk + after;
    assert s[|ahead|] == 0;
    assert forall k :: 0 <= k < |junk| ==> s[k] == junk[k];
    assert after == s[|junk|..];
  }

  lemma PieceStaysAhead(ahead: Bytes, t: Bytes, piece: Bytes, s: Bytes)
    requires ahead + ([0] + t) == piece + [0] + s && ZeroFree(piece)
    ensures |piece| <= |ahead|
    ensures if |piece| == |ahead| then s == t else s == ahead[|piece| + 1..] + ([0] + t)
  {
    var all := ahead + ([0] + t);
    assert all[|ahead|] == 0;
    assert forall k :: 0 <= k < |piece| ==> all[k] == piece[k];
    assert s == all[|piece| + 1..];
  }
}
