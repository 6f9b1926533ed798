/**
 The pure meaning of the framer: cut the stream at zeros and drop every piece
 longer than the frame limit.
 */
module Splitter {
  import opened Bytes

  /** First acceptable frame of the stream, with what follows its delimiter. */
  function NextFrame(max: nat, s: Bytes): Option<(Bytes, Bytes)>
    decreases |s|
  {
    var i := FirstZero(s);
    if i == |s| then None
    else if i <= max then Some((s[..i], s[i + 1..]))
    else NextFrame(max, s[i + 1..])
  }

  /** All acceptable frames of the stream. */
  function Frames(max: nat, s: Bytes): seq<Bytes>
    decreases |s|
  {
    var i := FirstZero(s);
    if i == |s| then []
    else (if i <= max then [s[..i]] else []) + Frames(max, s[i + 1..])
  }

  /** Bytes after the last delimiter. */
  function Tail(s: Bytes): (t: Bytes)
    ensures ZeroFree(t)
    decreases |s|
  {
    var i := FirstZero(s);
    if i == |s| then assert s[..i] == s; s else Tail(s[i + 1..])
  }

  /** Lengths of the oversized frames skipped before the next acceptable one. */
  function Skipped(max: nat, s: Bytes): seq<nat>
    decreases |s|
  {
    var i := FirstZero(s);
    if i == |s| || i <= max then []
    else [i] + Skipped(max, s[i + 1..])
  }

  /** `s` consists of complete frames, every one of them oversized. */
  predicate Oversized(max: nat, s: Bytes)
    decreases |s|
  {
    s == [] ||
    var i := FirstZero(s);
    max < i < |s| && Oversized(max, s[i + 1..])
  }

  /**
   What a failed read leaves of the unconsumed stream: complete oversized frames
   are gone for good, and so are the first `|junk|` bytes of one that was being
   discarded when the read failed.
   */
  ghost predicate Interrupted(max: nat, before: Bytes, after: Bytes) {
    exists pre: Bytes, junk: Bytes :: Cut(max, before, pre, junk, after)
  }

  ghost predicate Cut(max: nat, before: Bytes, pre: Bytes, junk: Bytes, after: Bytes) {
    && before == pre + junk + after
    && Oversized(max, pre)
    && ZeroFree(junk)
    && (junk == [] || |junk| > max)
  }

  /** The same, with the sizes of the complete oversized frames that are gone. */
  ghost predicate Lost(max: nat, before: Bytes, junk: Bytes, after: Bytes, skipped: seq<nat>) {
    exists pre: Bytes :: Cut(max, before, pre, junk, after) && skipped == Skipped(max, pre)
  }

  lemma LostInterrupts(max: nat, before: Bytes, junk: Bytes, after: Bytes, skipped: seq<nat>)
    requires Lost(max, before, junk, after, skipped)
    ensures Interrupted(max, before, after)
  {}

  lemma CutLoses(max: nat, before: Bytes, pre: Bytes, junk: Bytes, after: Bytes)
    requires Cut(max, before, pre, junk, after)
    ensures Lost(max, before, junk, after, Skipped(max, pre))
  {}

  function Sum(sizes: seq<nat>): nat {
    if sizes == [] then 0 else Sum(sizes[..|sizes| - 1]) + sizes[|sizes| - 1]
  }

  lemma SumGrows(sizes: seq<nat>, size: nat)
    ensures Sum(sizes + [size]) == Sum(sizes) + size
  {}

  /** Only frames above the limit are ever skipped. */
  lemma {:induction false} SkippedAreOversized(max: nat, s: Bytes)
    ensures forall n :: n in Skipped(max, s) ==> n > max
    decreases |s|
  {
    var i := FirstZero(s);
    if max < i < |s| {
      SkippedAreOversized(max, s[i + 1..]);
    }
  }

  lemma CutNothing(max: nat, s: Bytes)
    ensures Cut(max, s, [], [], s)
    ensures Skipped(max, []) == []
  {}

  /** How many delimiters the stream holds. */
  function Zeros(s: Bytes): nat
    decreases |s|
  {
    var i := FirstZero(s);
    if i == |s| then 0 else 1 + Zeros(s[i + 1..])
  }

  /** Every delimiter in front of the next frame belongs to a skipped one. */
  lemma {:induction false} ZerosCounted(max: nat, s: Bytes)
    ensures Zeros(s) == |Skipped(max, s)| + match NextFrame(max, s)
                                            case None => 0
                                            case Some((_, rest)) => 1 + Zeros(rest)
    decreases |s|
  {
    var i := FirstZero(s);
    if max < i < |s| {
      ZerosCounted(max, s[i + 1..]);
    }
  }

  /** The next frame of `before` is `piece`, followed by `rest`; `skipped` went before it. */
  ghost predicate Found(max: nat, before: Bytes, piece: Bytes, rest: Bytes, skipped: seq<nat>) {
    NextFrame(max, before) == Some((piece, rest)) && Skipped(max, before) == skipped
  }

  /** `before` ends without another frame; `kept` is what the scanner holds on to. */
  ghost predicate Ended(max: nat, before: Bytes, kept: Bytes, skipped: seq<nat>) {
    && NextFrame(max, before) == None && Skipped(max, before) == skipped
    && kept == if |Tail(before)| <= max then Tail(before) else []
  }

  // ---------------------------------------------------------------- skipping

  // How each reading treats the first piece of a stream.

  lemma FirstPiece(s: Bytes, piece: Bytes, rest: Bytes)
    requires s == piece + [0] + rest && ZeroFree(piece)
    ensures FirstZero(s) == |piece| < |s| && s[..|piece|] == piece && s[|piece| + 1..] == rest
  {
    FirstZeroAt(piece, rest);
  }

  lemma NextOfFirst(max: nat, s: Bytes, piece: Bytes, rest: Bytes)
    requires s == piece + [0] + rest && ZeroFree(piece)
    ensures NextFrame(max, s) == (if |piece| <= max then Some((piece, rest)) else NextFrame(max, rest))
  {
    FirstPiece(s, piece, rest);
  }

  lemma FramesOfFirst(max: nat, s: Bytes, piece: Bytes, rest: Bytes)
    requires s == piece + [0] + rest && ZeroFree(piece)
    ensures Frames(max, s) == (if |piece| <= max then [piece] else []) + Frames(max, rest)
  {
    FirstPiece(s, piece, rest);
  }

  lemma SkippedOfFirst(max: nat, s: Bytes, piece: Bytes, rest: Bytes)
    requires s == piece + [0] + rest && ZeroFree(piece)
    ensures Skipped(max, s) == (if |piece| <= max then [] else [|piece|] + Skipped(max, rest))
    ensures Oversized(max, s) == (|piece| > max && Oversized(max, rest))
  {
    FirstPiece(s, piece, rest);
  }

  lemma TailOfFirst(s: Bytes, piece: Bytes, rest: Bytes)
    requires s == piece + [0] + rest && ZeroFree(piece)
    ensures Tail(s) == Tail(rest)
  {
    FirstPiece(s, piece, rest);
  }

  /** Every stream with a delimiter has a first piece. */
  lemma Uncons(s: Bytes) returns (piece: Bytes, rest: Bytes)
    requires FirstZero(s) < |s|
    ensures s == piece + [0] + rest && ZeroFree(piece) && |piece| == FirstZero(s)
  {
    var i := FirstZero(s);
    piece, rest := s[..i], s[i + 1..];
    assert s == s[..i] + [s[i]] + s[i + 1..];
  }

  /** The same piece stays first when more bytes follow. */
  lemma UnconsAppend(pre: Bytes, s: Bytes) returns (piece: Bytes, rest: Bytes, all: Bytes)
    requires FirstZero(pre) < |pre|
    ensures pre == piece + [0] + rest && ZeroFree(piece) && |piece| == FirstZero(pre)
    ensures all == rest + s && pre + s == piece + [0] + all
  {
    piece, rest := Uncons(pre);
    all := rest + s;
  }

  /** Oversized frames in front change neither the next frame nor those after it. */
  lemma {:induction false} OversizedTransparent(max: nat, pre: Bytes, s: Bytes, all: Bytes)
    requires Oversized(max, pre) && all == pre + s
    ensures NextFrame(max, all) == NextFrame(max, s)
    ensures Frames(max, all) == Frames(max, s)
    decreases |pre|
  {
    if pre == [] {
      assert all == s;
    } else {
      var piece, rest, all' := UnconsAppend(pre, s);
      SkippedOfFirst(max, pre, piece, rest);
      NextOfFirst(max, all, piece, all');
      FramesOfFirst(max, all, piece, all');
      OversizedTransparent(max, rest, s, all');
    }
  }

  lemma {:induction false} OversizedReported(max: nat, pre: Bytes, s: Bytes, all: Bytes)
    requires Oversized(max, pre) && all == pre + s && Skipped(max, s) == []
    ensures Skipped(max, all) == Skipped(max, pre)
    decreases |pre|
  {
    if pre == [] {
      assert all == s;
    } else {
      var piece, rest, all' := UnconsAppend(pre, s);
      SkippedOfFirst(max, pre, piece, rest);
      SkippedOfFirst(max, all, piece, all');
      OversizedReported(max, rest, s, all');
    }
  }

  lemma Regroup<T>(a: seq<T>, b: seq<T>, c: seq<T>)
    ensures a + (b + c) == a + b + c
  {}

  lemma {:induction false} OversizedKeepsTail(max: nat, pre: Bytes, s: Bytes, all: Bytes)
    requires Oversized(max, pre) && all == pre + s
    ensures Tail(all) == Tail(s)
    decreases |pre|
  {
    if pre == [] {
      assert all == s;
    } else {
      var piece, rest, all' := UnconsAppend(pre, s);
      SkippedOfFirst(max, pre, piece, rest);
      TailOfFirst(all, piece, all');
      OversizedKeepsTail(max, rest, s, all');
    }
  }

  /** Appending one more complete oversized frame. */
  lemma {:induction false} OversizedExtend(max: nat, pre: Bytes, piece: Bytes, all: Bytes)
    requires Oversized(max, pre) && ZeroFree(piece) && |piece| > max
    requires all == pre + (piece + [0])
    ensures Oversized(max, all)
    ensures Skipped(max, all) == Skipped(max, pre) + [|piece|]
    decreases |pre|
  {
    if pre == [] {
      assert all == piece + [0] + [];
      SkippedOfFirst(max, all, piece, []);
    } else {
      var first, rest, all' := UnconsAppend(pre, piece + [0]);
      SkippedOfFirst(max, pre, first, rest);
      SkippedOfFirst(max, all, first, all');
      OversizedExtend(max, rest, piece, all');
      Regroup([|first|], Skipped(max, rest), [|piece|]);
    }
  }

  // ------------------------------------------------ the independent reading

  /** The stream made of the given frames, each with its delimiter. */
  function Join(pieces: seq<Bytes>): Bytes {
    if pieces == [] then [] else pieces[0] + [0] + Join(pieces[1..])
  }

  function Fitting(max: nat, pieces: seq<Bytes>): seq<Bytes> {
    if pieces == [] then []
    else (if |pieces[0]| <= max then [pieces[0]] else []) + Fitting(max, pieces[1..])
  }

  /** Every zero-free piece sequence is recovered exactly, oversized ones dropped. */
  lemma {:induction false} FramesOfJoin(max: nat, pieces: seq<Bytes>, tail: Bytes)
    requires forall k :: 0 <= k < |pieces| ==> ZeroFree(pieces[k])
    requires ZeroFree(tail)
    ensures Frames(max, Join(pieces) + tail) == Fitting(max, pieces)
    ensures Tail(Join(pieces) + tail) == tail
  {
    if pieces == [] {
      assert Join(pieces) + tail == tail;
      FirstZeroNone(tail);
    } else {
      var post := Join(pieces[1..]) + tail;
      FramesOfFirst(max, Join(pieces) + tail, pieces[0], post);
      TailOfFirst(Join(pieces) + tail, pieces[0], post);
      FramesOfJoin(max, pieces[1..], tail);
    }
  }

  /** Sizes of the pieces above the limit in front of the first within it. */
  function Leading(max: nat, pieces: seq<Bytes>): seq<nat> {
    if pieces == [] || |pieces[0]| <= max then [] else [|pieces[0]|] + Leading(max, pieces[1..])
  }

  /** What is reported in front of a frame are the true sizes of the oversized pieces there. */
  lemma {:induction false} SkippedOfJoin(max: nat, pieces: seq<Bytes>, tail: Bytes)
    requires forall k :: 0 <= k < |pieces| ==> ZeroFree(pieces[k])
    requires ZeroFree(tail)
    ensures Skipped(max, Join(pieces) + tail) == Leading(max, pieces)
  {
    if pieces == [] {
      assert Join(pieces) + tail == tail;
      FirstZeroNone(tail);
    } else {
      var post := Join(pieces[1..]) + tail;
      assert Join(pieces) + tail == pieces[0] + [0] + post;
      SkippedOfFirst(max, Join(pieces) + tail, pieces[0], post);
      SkippedOfJoin(max, pieces[1..], tail);
    }
  }

  /** And every stream is such a piece sequence followed by an unterminated tail. */
  lemma {:induction false} EveryStreamIsJoined(s: Bytes) returns (pieces: seq<Bytes>)
    ensures forall k :: 0 <= k < |pieces| ==> ZeroFree(pieces[k])
    ensures s == Join(pieces) + Tail(s)
    decreases |s|
  {
    if FirstZero(s) == |s| {
      pieces := [];
    } else {
      var piece, rest := Uncons(s);
      TailOfFirst(s, piece, rest);
      var more := EveryStreamIsJoined(rest);
      pieces := [piece] + more;
      assert pieces[1..] == more;
      Regroup(piece + [0], Join(more), Tail(rest));
    }
  }

  /** Frames are what repeated `NextFrame` calls return. */
  lemma {:induction false} FramesUnfold(max: nat, s: Bytes)
    ensures match NextFrame(max, s)
            case None => Frames(max, s) == []
            case Some((f, rest)) =>
              |rest| < |s| && |f| <= max && ZeroFree(f) && Frames(max, s) == [f] + Frames(max, rest)
    decreases |s|
  {
    var i := FirstZero(s);
    if i < |s| && i > max {
      FramesUnfold(max, s[i + 1..]);
    }
  }

  // --------------------------------------------------------- failed reads

  /** After an interrupted discard, the rest of the discarded frame passes for a frame. */
  lemma InterruptedDiscard(max: nat, before: Bytes, pre: Bytes, junk: Bytes, after: Bytes)
    requires Cut(max, before, pre, junk, after) && junk != []
    ensures var i := FirstZero(after);
            Frames(max, after) == (if i < |after| && i <= max then [after[..i]] else []) + Frames(max, before)
  {
    var all := junk + after;
    Regroup(pre, junk, after);
    OversizedTransparent(max, pre, all, before);
    DiscardedFrames(max, junk, after);
  }

  lemma DiscardedFrames(max: nat, junk: Bytes, after: Bytes)
    requires ZeroFree(junk) && |junk| > max
    ensures var i := FirstZero(after);
            Frames(max, after) == (if i < |after| && i <= max then [after[..i]] else []) + Frames(max, junk + after)
  {
    if FirstZero(after) == |after| {
      FirstZeroNone(after);
      FirstZeroNone(junk + after);
    } else {
      var piece, rest, whole := Widen(junk, after);
      FramesOfFirst(max, after, piece, rest);
      FramesOfFirst(max, junk + after, whole, rest);
    }
  }

  /** Discarded bytes in front lengthen the first piece and change nothing else. */
  lemma Widen(junk: Bytes, after: Bytes) returns (piece: Bytes, rest: Bytes, whole: Bytes)
    requires ZeroFree(junk) && FirstZero(after) < |after|
    ensures after == piece + [0] + rest && ZeroFree(piece) && piece == after[..FirstZero(after)]
    ensures whole == junk + piece && ZeroFree(whole) && junk + after == whole + [0] + rest
  {
    piece, rest := Uncons(after);
    whole := junk + piece;
    Regroup(junk, piece + [0], rest);
    Regroup(junk, piece, [0]);
  }

  /**
   Exactly when a failed read changes what later calls return. It never does
   outside discard mode (`junk == []`). Inside it, the rest of the discarded frame
   is taken for a frame of its own, which goes unnoticed only if that rest never
   ends or is itself oversized.
   */
  lemma InterruptionHarmless(max: nat, before: Bytes, pre: Bytes, junk: Bytes, after: Bytes)
    requires Cut(max, before, pre, junk, after)
    ensures Frames(max, before) == Frames(max, after)
            <==> junk == [] || FirstZero(after) == |after| || FirstZero(after) > max
  {
    if junk == [] {
      OversizedTransparent(max, pre, after, before);
    } else {
      InterruptedDiscard(max, before, pre, junk, after);
      assert |Frames(max, after)| != |Frames(max, before)| || Frames(max, after) == [] + Frames(max, before);
    }
  }

  /**
   The failing family has a member for every limit: a read failing just before the
   delimiter of a discarded frame leaves an empty frame, a session reset nobody sent.
   */
  lemma InterruptedDiscardForgesReset(max: nat)
    ensures var junk: Bytes := seq(max + 1, _ => 1);
            && Cut(max, junk + [0], [], junk, [0])
            && Frames(max, junk + [0]) == []
            && Frames(max, [0]) == [[]]
  {}

  // ------------------------------------------- the scanner's view of a stream

  /** A frame was found while nothing is being discarded. */
  lemma CutTake(max: nat, before: Bytes, pre: Bytes, piece: Bytes, rest: Bytes)
    requires Cut(max, before, pre, [], piece + [0] + rest) && ZeroFree(piece) && |piece| <= max
    ensures NextFrame(max, before) == Some((piece, rest))
    ensures Skipped(max, before) == Skipped(max, pre)
  {
    var s := piece + [0] + rest;
    assert pre + [] + s == pre + s;
    OversizedTransparent(max, pre, s, before);
    NextOfFirst(max, s, piece, rest);
    SkippedOfFirst(max, s, piece, rest);
    OversizedReported(max, pre, s, before);
  }

  /** The end of the frame being discarded was found. */
  lemma CutDrop(max: nat, before: Bytes, pre: Bytes, junk: Bytes, piece: Bytes, rest: Bytes)
    requires Cut(max, before, pre, junk, piece + [0] + rest) && junk != [] && ZeroFree(piece)
    ensures var pre' := pre + ((junk + piece) + [0]);
            Cut(max, before, pre', [], rest) && Skipped(max, pre') == Skipped(max, pre) + [|junk| + |piece|]
  {
    var last := (junk + piece) + [0];
    OversizedExtend(max, pre, junk + piece, pre + last);
    calc {
      before;
      pre + junk + (piece + [0] + rest);
      { Regroup(pre, junk, piece + [0] + rest); Regroup(junk, piece + [0], rest); Regroup(junk, piece, [0]); }
      pre + (last + rest);
      { Regroup(pre, last, rest); }
      pre + last + rest;
    }
    assert pre + last + rest == pre + last + [] + rest;
  }

  /** A delimiter was found: a frame, or the end of the one being discarded. */
  lemma CutStep(max: nat, before: Bytes, pre: Bytes, junk: Bytes, all: Bytes, piece: Bytes, rest: Bytes)
    returns (pre': Bytes)
    requires Cut(max, before, pre, junk, all) && all == piece + [0] + rest && ZeroFree(piece) && |piece| <= max
    ensures if junk == [] then Found(max, before, piece, rest, Skipped(max, pre))
            else Cut(max, before, pre', [], rest) && Skipped(max, pre') == Skipped(max, pre) + [|junk| + |piece|]
  {
    pre' := pre + ((junk + piece) + [0]);
    if junk == [] {
      CutTake(max, before, pre, piece, rest);
    } else {
      CutDrop(max, before, pre, junk, piece, rest);
    }
  }

  /** Delimiter-free bytes were thrown away. */
  lemma CutGrow(max: nat, before: Bytes, pre: Bytes, junk: Bytes, more: Bytes, rest: Bytes)
    requires Cut(max, before, pre, junk, more + rest) && ZeroFree(more) && |junk| + |more| > max
    ensures Cut(max, before, pre, junk + more, rest)
  {}

  /** The stream ended. */
  lemma CutEnd(max: nat, before: Bytes, pre: Bytes, junk: Bytes, after: Bytes)
    requires Cut(max, before, pre, junk, after) && ZeroFree(after)
    ensures NextFrame(max, before) == None && Tail(before) == junk + after
    ensures Skipped(max, before) == Skipped(max, pre)
  {
    var s := junk + after;
    Regroup(pre, junk, after);
    FirstZeroNone(s);
    OversizedTransparent(max, pre, s, before);
    OversizedReported(max, pre, s, before);
    OversizedKeepsTail(max, pre, s, before);
  }

  /** The first frame of the stream, if it ends at all, is not oversized. */
  predicate FirstFits(max: nat, s: Bytes) {
    |s| <= max || (FirstZero(s) < |s| && FirstZero(s) <= max)
  }

  /** Nothing is discarded in front of a frame that fits. */
  lemma NothingCut(max: nat, s: Bytes, pre: Bytes, junk: Bytes, after: Bytes)
    requires Cut(max, s, pre, junk, after) && FirstFits(max, s)
    ensures pre == [] && junk == [] && after == s
  {}

  /** A failed read loses nothing when the first frame is not oversized. */
  lemma InterruptedKeeps(max: nat, s: Bytes, after: Bytes)
    requires Interrupted(max, s, after) && FirstFits(max, s)
    ensures after == s
  {}

  /** No frame of the stream is oversized, the unfinished one included. */
  predicate AllFitting(max: nat, s: Bytes)
    decreases |s|
  {
    FirstFits(max, s) && (FirstZero(s) < |s| ==> AllFitting(max, s[FirstZero(s) + 1..]))
  }

  lemma NextFits(max: nat, s: Bytes)
    requires AllFitting(max, s) && NextFrame(max, s).Some?
    ensures AllFitting(max, NextFrame(max, s).value.1)
  {}

  lemma FittingOfFirst(max: nat, s: Bytes, piece: Bytes, rest: Bytes)
    requires s == piece + [0] + rest && ZeroFree(piece) && |piece| <= max && AllFitting(max, rest)
    ensures AllFitting(max, s)
  {
    FirstPiece(s, piece, rest);
  }

  // ------------------------------------------------- splitting at a known cut

  /** The next frame of `s` is `s[i..j]`, a slice of its first `bound` bytes. */
  ghost predicate NextIsSlice(max: nat, s: Bytes, bound: nat) {
    exists i, j :: 0 <= i <= j <= bound && j < |s| && NextFrame(max, s) == Some((s[i..j], s[j + 1..]))
  }

  /**
   Whatever `ahead` holds, the splitter never looks across the delimiter after it:
   the next frame is a slice of `ahead`, or it is the next frame of what follows.
   */
  lemma {:induction false} NextFrameThrough(max: nat, s: Bytes, ahead: Bytes, t: Bytes)
    requires s == ahead + [0] + t
    ensures NextFrame(max, s) == NextFrame(max, t) || NextIsSlice(max, s, |ahead|)
    decreases |ahead|
  {
    var i := FirstZero(s);
    assert s[|ahead|] == 0;
    var piece, rest := Uncons(s);
    NextOfFirst(max, s, piece, rest);
    assert piece == s[0..i] && rest == s[i + 1..];
    if i == |ahead| {
      assert rest == t;
    } else if i > max {
      var ahead' := ahead[i + 1..];
      assert rest == ahead' + [0] + t;
      NextFrameThrough(max, rest, ahead', t);
      if NextIsSlice(max, rest, |ahead'|) {
        SliceLater(max, s, rest, i + 1, |ahead'|);
      }
    }
  }

  lemma SliceLater(max: nat, s: Bytes, rest: Bytes, k: nat, bound: nat)
    requires k <= |s| && rest == s[k..] && NextFrame(max, s) == NextFrame(max, rest)
    requires NextIsSlice(max, rest, bound)
    ensures NextIsSlice(max, s, k + bound)
  {
    var i, j :| 0 <= i <= j <= bound && j < |rest| && NextFrame(max, rest) == Some((rest[i..j], rest[j + 1..]));
    DropSlice(s, k, i, j);
    DropSlice(s, k, j + 1, |rest|);
    assert NextFrame(max, s) == Some((s[k + i..k + j], s[k + j + 1..]));
  }

  lemma DropSlice(s: Bytes, k: nat, i: nat, j: nat)
    requires k <= |s| && i <= j <= |s| - k
    ensures s[k..][i..j] == s[k + i..k + j] && s[k..][i..] == s[k + i..]
  {}
}
