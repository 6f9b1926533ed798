/** What reading a stream to its end gives when reads fail in between. */
module Restarts {
  import opened Bytes
  import opened Splitter

  /**
   One thing that happens to whoever reads frames: a frame comes, or a read fails, with
   `junk` of a discarded frame forgotten and `after` still to come.
   */
  datatype Entry = Frame(bytes: Bytes) | Restart(junk: Bytes, after: Bytes)

  /** It takes the reader from `before` to `rest`. */
  ghost predicate Leads(max: nat, before: Bytes, entry: Entry, rest: Bytes) {
    match entry
    case Frame(bytes) => NextFrame(max, before) == Some((bytes, rest))
    case Restart(junk, after) => rest == after && exists pre: Bytes :: Cut(max, before, pre, junk, after)
  }

  /** These things happened, one after the other: the splitter, restarted at every failure. */
  ghost predicate Replays(max: nat, s: Bytes, log: seq<Entry>, rest: Bytes) {
    if log == [] then rest == s
    else
      var n := |log| - 1;
      exists mid :: Replays(max, s, log[..n], mid) && Leads(max, mid, log[n], rest)
  }

  function Given(log: seq<Entry>): seq<Bytes> {
    if log == [] then []
    else
      var n := |log| - 1;
      Given(log[..n]) + (if log[n].Frame? then [log[n].bytes] else [])
  }

  /** The restart passes the rest of a discarded frame for a frame. */
  predicate Forges(max: nat, entry: Entry) {
    && entry.Restart? && entry.junk != []
    && FirstZero(entry.after) < |entry.after| && FirstZero(entry.after) <= max
  }

  /** How many frames came up that the stream does not hold. */
  function Forged(max: nat, log: seq<Entry>): nat {
    if log == [] then 0
    else
      var n := |log| - 1;
      Forged(max, log[..n]) + (if Forges(max, log[n]) then 1 else 0)
  }

  /** No failure hit the discarding of a frame. */
  predicate Clean(log: seq<Entry>) {
    forall i :: 0 <= i < |log| && log[i].Restart? ==> log[i].junk == []
  }

  lemma CleanMore(log: seq<Entry>, entry: Entry)
    requires Clean(log) && (entry.Restart? ==> entry.junk == [])
    ensures Clean(log + [entry])
  {}

  lemma ReplaysMore(max: nat, s: Bytes, log: seq<Entry>, mid: Bytes, entry: Entry, rest: Bytes)
    requires Replays(max, s, log, mid) && Leads(max, mid, entry, rest)
    ensures Replays(max, s, log + [entry], rest)
    ensures Given(log + [entry]) == Given(log) + (if entry.Frame? then [entry.bytes] else [])
  {
    assert (log + [entry])[..|log|] == log;
  }

  /** What one entry does to the frames that are to come. */
  lemma LeadsFrames(max: nat, before: Bytes, entry: Entry, rest: Bytes)
    requires Leads(max, before, entry, rest)
    ensures match entry
            case Frame(bytes) => Frames(max, before) == [bytes] + Frames(max, rest)
            case Restart(_, after) =>
              Frames(max, rest)
              == (if Forges(max, entry) then [after[..FirstZero(after)]] else []) + Frames(max, before)
  {
    FramesUnfold(max, before);
    if entry.Restart? {
      var pre: Bytes :| Cut(max, before, pre, entry.junk, entry.after);
      if entry.junk == [] {
        OversizedTransparent(max, pre, entry.after, before);
      } else {
        InterruptedDiscard(max, before, pre, entry.junk, entry.after);
      }
      assert [] + Frames(max, before) == Frames(max, before);
    }
  }

  lemma LeadsZeros(max: nat, before: Bytes, pre: Bytes, junk: Bytes, after: Bytes)
    requires Cut(max, before, pre, junk, after)
    ensures Zeros(before) == |Skipped(max, pre)| + Zeros(after)
  {
    Regroup(pre, junk, after);
    ZerosBehind(max, pre, junk + after, before);
    if FirstZero(after) == |after| {
      FirstZeroNone(after);
      FirstZeroNone(junk + after);
    } else {
      var piece, rest, whole := Widen(junk, after);
      FirstPiece(after, piece, rest);
      FirstPiece(junk + after, whole, rest);
    }
  }

  lemma {:induction false} ZerosBehind(max: nat, pre: Bytes, s: Bytes, all: Bytes)
    requires Oversized(max, pre) && all == pre + s
    ensures Zeros(all) == |Skipped(max, pre)| + Zeros(s)
    decreases |pre|
  {
    if pre == [] {
      assert all == s;
    } else {
      var piece, rest, all' := UnconsAppend(pre, s);
      SkippedOfFirst(max, pre, piece, rest);
      FirstPiece(all, piece, all');
      ZerosBehind(max, rest, s, all');
    }
  }

  /** `given` are the stream's frames up to `rest`, and `forged` ones besides. */
  predicate Matches(max: nat, s: Bytes, given: seq<Bytes>, forged: nat, rest: Bytes) {
    && |given| + |Frames(max, rest)| == |Frames(max, s)| + forged
    && (forged == 0 ==> given + Frames(max, rest) == Frames(max, s))
  }

  lemma MatchesMore(max: nat, s: Bytes, given: seq<Bytes>, forged: nat, mid: Bytes, entry: Entry, rest: Bytes)
    requires Matches(max, s, given, forged, mid) && Leads(max, mid, entry, rest)
    ensures Matches(max, s, given + (if entry.Frame? then [entry.bytes] else []),
                    forged + (if Forges(max, entry) then 1 else 0), rest)
  {
    LeadsFrames(max, mid, entry, rest);
    if entry.Frame? {
      Regroup(given, [entry.bytes], Frames(max, rest));
    } else {
      assert given + [] == given && [] + Frames(max, mid) == Frames(max, mid);
    }
  }

  /** As many frames more than the stream holds as were forged, and in their places otherwise. */
  lemma {:induction false} ReplayedFrames(max: nat, s: Bytes, log: seq<Entry>, rest: Bytes)
    requires Replays(max, s, log, rest)
    ensures Matches(max, s, Given(log), Forged(max, log), rest)
    decreases |log|
  {
    if log == [] {
      assert [] + Frames(max, s) == Frames(max, s);
    } else {
      var init, last := log[..|log| - 1], log[|log| - 1];
      var mid :| Replays(max, s, init, mid) && Leads(max, mid, last, rest);
      ReplayedFrames(max, s, init, mid);
      MatchesMore(max, s, Given(init), Forged(max, init), mid, last, rest);
    }
  }

  /**
   Exactly when failing reads make no difference to a stream read to its end: when none of
   them cuts the discarding of a frame whose rest ends within the limit.
   */
  lemma RestartsHarmless(max: nat, s: Bytes, log: seq<Entry>, rest: Bytes)
    requires Replays(max, s, log, rest) && NextFrame(max, rest) == None
    ensures Given(log) == Frames(max, s) <==> Forged(max, log) == 0
  {
    ReplayedFrames(max, s, log, rest);
    FramesUnfold(max, rest);
    assert Given(log) + [] == Given(log);
  }

  lemma {:induction false} CleanIsHarmless(max: nat, s: Bytes, log: seq<Entry>, rest: Bytes)
    requires Replays(max, s, log, rest) && Clean(log)
    ensures Forged(max, log) == 0 && Tail(rest) == Tail(s)
    decreases |log|
  {
    if log != [] {
      var init, last := log[..|log| - 1], log[|log| - 1];
      var mid :| Replays(max, s, init, mid) && Leads(max, mid, last, rest);
      assert forall i :: 0 <= i < |init| ==> init[i] == log[i];
      CleanIsHarmless(max, s, init, mid);
      if last.Frame? {
        TailAfter(max, mid);
      } else {
        var pre: Bytes :| Cut(max, mid, pre, last.junk, last.after);
        OversizedKeepsTail(max, pre, rest, mid);
      }
    }
  }

  lemma {:induction false} TailAfter(max: nat, s: Bytes)
    requires NextFrame(max, s).Some?
    ensures Tail(s) == Tail(NextFrame(max, s).value.1)
    decreases |s|
  {
    var i := FirstZero(s);
    if i > max {
      TailAfter(max, s[i + 1..]);
    }
  }
}
