/** The framer's two ends back to back. */
module Pipeline {
  import opened Bytes
  import Cobs
  import opened Errors
  import opened Packets
  import opened Restarts
  import opened Splitter
  import opened Transport
  import F = Framing

  /** A call on the sending side. */
  datatype Op = SendReset | SendPacket(packet: Bytes)

  function WireOf(max: nat, op: Op): Bytes {
    match op
    case SendReset => [0, 0]
    case SendPacket(p) => Emitted(max, p, Whole)
  }

  /** What the receiving side should make of one call; a packet that was refused is not sent. */
  function MeaningOf(max: nat, op: Op): seq<Input> {
    match op
    case SendReset => [Reset, Reset]
    case SendPacket(p) => if Fits(max, p) then [Packet(p)] else []
  }

  function Wire(max: nat, ops: seq<Op>): Bytes {
    if ops == [] then [] else Wire(max, ops[..|ops| - 1]) + WireOf(max, ops[|ops| - 1])
  }

  function Meaning(max: nat, ops: seq<Op>): seq<Input> {
    if ops == [] then [] else Meaning(max, ops[..|ops| - 1]) + MeaningOf(max, ops[|ops| - 1])
  }

  lemma OneOp(max: nat, op: Op, rest: Bytes)
    ensures Take(max, WireOf(max, op) + rest, |MeaningOf(max, op)|) == Some((MeaningOf(max, op), rest))
  {
    var s := WireOf(max, op) + rest;
    match op {
      case SendReset =>
        assert s == [0] + ([0] + rest);
        ZeroIsReset(max, [0] + rest);
        ZeroIsReset(max, rest);
        TakeOne(max, s);
        TakeOne(max, [0] + rest);
        TakeThen(max, s, [Reset], [0] + rest, [Reset], rest);
        assert [Reset] + [Reset] == [Reset, Reset];
      case SendPacket(p) =>
        if Fits(max, p) {
          FramedIsNext(max, p, rest);
          TakeOne(max, s);
        } else {
          assert s == rest;
        }
    }
  }

  /** Whatever was sent is received, in order, whatever comes after it. */
  lemma {:induction false} SentIsReceived(max: nat, ops: seq<Op>, rest: Bytes)
    ensures Take(max, Wire(max, ops) + rest, |Meaning(max, ops)|) == Some((Meaning(max, ops), rest))
    decreases |ops|
  {
    if ops == [] {
      assert Wire(max, ops) + rest == rest;
    } else {
      var init, last := ops[..|ops| - 1], ops[|ops| - 1];
      var mid := WireOf(max, last) + rest;
      SentIsReceived(max, init, mid);
      OneOp(max, last, rest);
      Regroup(Wire(max, init), WireOf(max, last), rest);
      TakeThen(max, Wire(max, ops) + rest, Meaning(max, init), mid, MeaningOf(max, last), rest);
    }
  }

  /** The inputs these frames amount to. */
  function Interpreted(frames: seq<Bytes>): (inputs: seq<Input>)
    ensures |inputs| == |frames|
  {
    seq(|frames|, i requires 0 <= i < |frames| => Interpret(frames[i]))
  }

  lemma InterpretedCons(frame: Bytes, frames: seq<Bytes>)
    ensures Interpreted([frame] + frames) == [Interpret(frame)] + Interpreted(frames)
  {}

  lemma {:induction false} TakesAllFrames(max: nat, s: Bytes, n: nat)
    requires var all := Take(max, s, n); all.Some? && NextInput(max, all.value.1) == None
    ensures Take(max, s, n).value.0 == Interpreted(Frames(max, s))
    decreases n
  {
    FramesUnfold(max, s);
    if n > 0 {
      TakeFront(max, s, n);
      var inputs := Take(max, s, n).value.0;
      var (frame, rest) := NextFrame(max, s).value;
      TakesAllFrames(max, rest, n - 1);
      InterpretedCons(frame, Frames(max, rest));
      assert inputs == [inputs[0]] + inputs[1..];
    }
  }

  function Total(frames: seq<Bytes>): nat {
    if frames == [] then 0 else Total(frames[..|frames| - 1]) + |frames[|frames| - 1]|
  }

  /** The books since `start`, when `frames` came of the stream `s` and `later` is still to come. */
  ghost predicate Accounted(start: F.Tally, s: Bytes, frames: seq<Bytes>, now: F.Tally, later: Bytes) {
    && now.delimiters + Zeros(later) == start.delimiters + Zeros(s)
    && now.returned == start.returned + Total(frames) && now.total == start.total
  }

  lemma FaultRestarts(framing: F.Framing, before: Bytes, start: F.Tally) returns (entry: Entry)
    requires framing.Stuck(before, start, RecvFailed)
    ensures framing.Valid() && entry.Restart? && Leads(framing.max, before, entry, framing.Rest())
    ensures |framing.Rest()| <= |before| && Accounted(start, before, [], framing.Count(), framing.Rest())
    ensures AllFitting(framing.max, before) ==> entry.junk == [] && framing.Rest() == before
  {
    var junk, skipped :| framing.GaveUp(before, start, RecvFailed, junk, skipped);
    var pre :| Cut(framing.max, before, pre, junk, framing.Rest()) && skipped == Skipped(framing.max, pre);
    entry := Restart(junk, framing.Rest());
    CutAccounted(framing.max, before, pre, junk, framing.Rest());
  }

  lemma CutAccounted(max: nat, before: Bytes, pre: Bytes, junk: Bytes, after: Bytes)
    requires Cut(max, before, pre, junk, after)
    ensures Zeros(before) == |Skipped(max, pre)| + Zeros(after) && |after| <= |before|
    ensures AllFitting(max, before) ==> junk == [] && after == before
  {
    LeadsZeros(max, before, pre, junk, after);
    if AllFitting(max, before) {
      NothingCut(max, before, pre, junk, after);
    }
  }

  lemma EndAccounted(framing: F.Framing, before: Bytes, start: F.Tally)
    requires framing.Stuck(before, start, Terminated)
    ensures framing.Valid() && framing.reader.stream == [] && NextFrame(framing.max, before) == None
    ensures framing.Count().delimiters == start.delimiters + Zeros(before)
    ensures framing.Count().returned == start.returned && framing.Count().total == start.total
    ensures framing.Pending() == if |Tail(before)| <= framing.max then Tail(before) else []
  {
    ZerosCounted(framing.max, before);
  }

  /** What one call gives whoever reads to the end. */
  datatype Fetched = Got(input: Input) | Retry | Over

  method Fetch(framing: F.Framing) returns (next: Fetched, ghost entry: Entry)
    requires framing.Valid()
    modifies framing, framing.reader, framing.readerBuffer, framing.decobsBuffer
    ensures framing.Valid()
    ensures !next.Over? ==>
              && Leads(framing.max, old(framing.Rest()), entry, framing.Rest())
              && Accounted(old(framing.Count()), old(framing.Rest()), if entry.Frame? then [entry.bytes] else [],
                           framing.Count(), framing.Rest())
    ensures match next
            case Got(input) =>
              entry.Frame? && input == Interpret(entry.bytes) && |framing.Rest()| < |old(framing.Rest())|
            case Retry =>
              && entry.Restart? && |framing.Rest()| <= |old(framing.Rest())|
              && |framing.reader.schedule| < |old(framing.reader.schedule)|
            case Over =>
              && NextFrame(framing.max, old(framing.Rest())) == None && framing.reader.stream == []
              && framing.Count().delimiters == old(framing.Count()).delimiters + Zeros(old(framing.Rest()))
              && framing.Count().returned == old(framing.Count()).returned
              && framing.Count().total == old(framing.Count()).total
              && var tail := Tail(old(framing.Rest())); framing.Pending() == if |tail| <= framing.max then tail else []
    ensures Untroubled(framing.max, old(framing.Rest()), old(framing.reader.schedule)) ==>
              next.Over? || Untroubled(framing.max, framing.Rest(), framing.reader.schedule)
    ensures Untroubled(framing.max, old(framing.Rest()), old(framing.reader.schedule)) && next.Retry? ==>
              entry.junk == []
  {
    ghost var max, rest, now := framing.max, framing.Rest(), framing.Count();
    F.ReadsLeave(max, framing.Pending(), false, framing.reader.stream, framing.reader.schedule);
    NextInputShrinks(max, rest);
    var r := framing.NextPacket();
    var input := F.Arrived(r, framing.decobsBuffer[..]);
    if input.Some? {
      entry := Frame(NextFrame(max, rest).value.0);
      ZerosCounted(max, rest);
      assert Total([entry.bytes]) == |entry.bytes|;
      if AllFitting(max, rest) {
        NextFits(max, rest);
      }
      return Got(input.value), entry;
    }
    if r.error.RecvFailed? {
      entry := FaultRestarts(framing, rest, now);
      return Retry, entry;
    }
    EndAccounted(framing, rest, now);
    return Over, Frame([]);
  }

  /** Nothing can go wrong: no read fails, or no frame is oversized. */
  predicate Untroubled(max: nat, s: Bytes, schedule: seq<Chunk>) {
    Fault !in schedule || AllFitting(max, s)
  }

  /**
   Receives until the stream ends, trying again whenever a read fails. What comes is what
   the splitter gives, restarted at every failure; every delimiter is consumed, and what is
   left in the end is the unfinished frame.
   */
  method Drain(framing: F.Framing) returns (inputs: seq<Input>, ghost log: seq<Entry>, ghost last: Bytes)
    requires framing.Valid()
    modifies framing, framing.reader, framing.readerBuffer, framing.decobsBuffer
    ensures framing.Valid() && framing.reader.stream == []
    ensures Replays(framing.max, old(framing.Rest()), log, last) && NextFrame(framing.max, last) == None
    ensures inputs == Interpreted(Given(log))
    ensures framing.received == old(framing.received + |framing.reader.stream|)
    ensures framing.delimiters == old(framing.delimiters) + Zeros(old(framing.Rest()))
    ensures framing.returned == old(framing.returned) + Total(Given(log))
    ensures framing.Pending() == if |Tail(last)| <= framing.max then Tail(last) else []
    ensures Untroubled(framing.max, old(framing.Rest()), old(framing.reader.schedule)) ==> Clean(log)
  {
    inputs, log := [], [];
    ghost var max, start, count := framing.max, framing.Rest(), framing.Count();
    ghost var untroubled := Untroubled(max, start, framing.reader.schedule);
    while true
      invariant framing.Valid() && Logged(max, start, count, log, inputs, framing.Count(), framing.Rest())
      invariant untroubled ==> Untroubled(max, framing.Rest(), framing.reader.schedule) && Clean(log)
      decreases |framing.Rest()|, |framing.reader.schedule|
    {
      last := framing.Rest();
      ghost var was := framing.Count();
      var next;
      ghost var entry;
      next, entry := Fetch(framing);
      if next.Over? {
        LogEnds(max, start, count, log, inputs, was, last, framing.Count());
        return;
      }
      LogsMore(max, start, count, log, inputs, was, last, entry, framing.Count(), framing.Rest());
      if untroubled {
        CleanMore(log, entry);
      }
      log := log + [entry];
      inputs := inputs + (if next.Got? then [next.input] else []);
    }
  }

  /** The log so far explains the inputs, the books and what is still to come. */
  ghost predicate Logged(max: nat, s: Bytes, start: F.Tally, log: seq<Entry>, inputs: seq<Input>, now: F.Tally,
                         rest: Bytes)
  {
    Replays(max, s, log, rest) && inputs == Interpreted(Given(log)) && Accounted(start, s, Given(log), now, rest)
  }

  lemma LogEnds(max: nat, s: Bytes, start: F.Tally, log: seq<Entry>, inputs: seq<Input>, was: F.Tally, last: Bytes,
                now: F.Tally)
    requires Logged(max, s, start, log, inputs, was, last)
    requires now.delimiters == was.delimiters + Zeros(last) && now.returned == was.returned && now.total == was.total
    ensures now.delimiters == start.delimiters + Zeros(s) && now.returned == start.returned + Total(Given(log))
    ensures now.total == start.total
  {}

  lemma LogsMore(max: nat, s: Bytes, start: F.Tally, log: seq<Entry>, inputs: seq<Input>, was: F.Tally, mid: Bytes,
                 entry: Entry, now: F.Tally, rest: Bytes)
    requires Logged(max, s, start, log, inputs, was, mid) && Leads(max, mid, entry, rest)
    requires Accounted(was, mid, if entry.Frame? then [entry.bytes] else [], now, rest)
    ensures var more := if entry.Frame? then [Interpret(entry.bytes)] else [];
            Logged(max, s, start, log + [entry], inputs + more, now, rest)
  {
    ReplaysMore(max, s, log, mid, entry, rest);
    BooksMore(start, s, Given(log), was, mid, entry, now, rest);
    InterpretedMore(Given(log), entry);
  }

  lemma BooksMore(start: F.Tally, s: Bytes, frames: seq<Bytes>, was: F.Tally, mid: Bytes, entry: Entry, now: F.Tally,
                  rest: Bytes)
    requires Accounted(start, s, frames, was, mid)
    requires Accounted(was, mid, if entry.Frame? then [entry.bytes] else [], now, rest)
    ensures Accounted(start, s, frames + (if entry.Frame? then [entry.bytes] else []), now, rest)
  {
    TotalMore(frames, entry);
  }

  lemma InterpretedMore(frames: seq<Bytes>, entry: Entry)
    ensures Interpreted(frames + (if entry.Frame? then [entry.bytes] else []))
            == Interpreted(frames) + (if entry.Frame? then [Interpret(entry.bytes)] else [])
  {}

  lemma TotalMore(frames: seq<Bytes>, entry: Entry)
    ensures var more := if entry.Frame? then [entry.bytes] else [];
            Total(frames + more) == Total(frames) + Total(more)
  {
    if entry.Frame? {
      assert (frames + [entry.bytes])[..|frames|] == frames;
      assert Total([entry.bytes]) == |entry.bytes|;
    } else {
      assert frames + [] == frames;
    }
  }

  /**
   The framer over all the calls that read a stream to its end, however it is fragmented and
   whatever reads fail. Each byte is received once, looked at once and moved at most once,
   and each is part of a frame handed out, a delimiter, thrown away, or part of the
   unfinished frame. The frames are those of the stream exactly if no failure forged one.
   */
  method ReadWhole(max: nat, stream: Bytes, schedule: seq<Chunk>)
    returns (inputs: seq<Input>, framing: F.Framing, ghost log: seq<Entry>, ghost last: Bytes)
    ensures framing.Valid() && framing.max == max
    ensures Replays(max, stream, log, last) && NextFrame(max, last) == None && inputs == Interpreted(Given(log))
    ensures framing.moved <= framing.scanned <= framing.received == |stream|
    ensures framing.delimiters == Zeros(stream) && framing.returned == Total(Given(log))
    ensures |stream| == framing.returned + framing.delimiters + framing.discarded + |framing.Pending()|
    ensures framing.Pending() == if |Tail(last)| <= max then Tail(last) else []
    ensures Given(log) == Frames(max, stream) <==> Forged(max, log) == 0
    ensures Untroubled(max, stream, schedule) ==>
              Clean(log) && inputs == Interpreted(Frames(max, stream)) && Tail(last) == Tail(stream)
  {
    var reader := new Reader(stream, schedule);
    var writer := new Writer([]);
    framing := new F.Framing(max, reader, writer);
    assert framing.Rest() == stream;
    inputs, log, last := Drain(framing);
    RestartsHarmless(max, stream, log, last);
    if Clean(log) {
      CleanIsHarmless(max, stream, log, last);
    }
  }

  /**
   The framer at work on an interrupted discard, for every limit: the read fails in front
   of the delimiter of an oversized frame, and the next call reports a session reset that
   nobody sent.
   */
  method ForgedReset(max: nat) returns (first: Result<Option<nat>, Error>, second: Result<Option<nat>, Error>)
    ensures first == Err(RecvFailed) && second == Ok(None)
  {
    var junk: Bytes := seq(max + 1, _ => 1);
    var reader := new Reader(junk + [0], [UpTo(max + 1), Fault]);
    var writer := new Writer([]);
    var framing := new F.Framing(max, reader, writer);
    FailsBeforeDelimiter(max, junk);
    ghost var count := framing.Count();
    assert framing.Rest() == junk + [0];
    first := framing.NextPacket();
    AllButDelimiterLost(framing, junk, count);
    second := TakeReset(framing);
  }

  method TakeReset(framing: F.Framing) returns (r: Result<Option<nat>, Error>)
    requires framing.Valid() && framing.Rest() == [0] && Fault !in framing.reader.schedule
    modifies framing, framing.reader, framing.readerBuffer, framing.decobsBuffer
    ensures r == Ok(None)
  {
    F.ReadsLeave(framing.max, framing.Pending(), false, framing.reader.stream, framing.reader.schedule);
    ZeroIsReset(framing.max, []);
    assert framing.Rest() == [0] + [];
    r := framing.NextPacket();
    ghost var arrived := F.Arrived(r, framing.decobsBuffer[..]);
    assert arrived.Some? && arrived.value == Reset;
  }

  lemma FailsBeforeDelimiter(max: nat, junk: Bytes)
    requires ZeroFree(junk) && |junk| == max + 1
    ensures F.ReadsUntil(max, [], false, junk + [0], [UpTo(max + 1), Fault]) == (F.Broken, [0], [])
  {
    var stream, schedule := junk + [0], [UpTo(max + 1), Fault];
    var none: Bytes := [];
    FirstZeroNone(junk);
    FirstZeroNone(none);
    assert stream[..max + 1] == junk && none + junk == junk && stream[max + 1..] == [0];
    assert Shorter(schedule) == [Fault] && Shorter([Fault]) == [];
    assert Handed(stream, schedule, max + 1) == Data(max + 1);
    assert F.ReadsOn(max, none, true, [0], [Fault]) == (F.Broken, [0], []);
    assert F.ReadsUntil(max, junk, false, [0], [Fault]) == (F.Broken, [0], []);
  }

  lemma AllButDelimiterLost(framing: F.Framing, junk: Bytes, start: F.Tally)
    requires framing.Stuck(junk + [0], start, RecvFailed) && framing.reader.stream == [0]
    requires |junk| == framing.max + 1
    ensures framing.Valid() && framing.Rest() == [0]
  {
    var j, skipped :| framing.GaveUp(junk + [0], start, RecvFailed, j, skipped);
    var pre :| Cut(framing.max, junk + [0], pre, j, framing.Rest()) && skipped == Skipped(framing.max, pre);
    assert |pre| + |j| + |framing.Pending()| == |junk|;
  }

  /** Sends every packet and reset over a transport that works. */
  method SendAll(framing: F.Framing, ops: seq<Op>)
    requires framing.Valid() && framing.writer.schedule == []
    modifies framing.writer, framing.encobsBuffer
    ensures framing.writer.sent == old(framing.writer.sent) + Wire(framing.max, ops)
  {
    ghost var max := framing.max;
    for i := 0 to |ops|
      invariant framing.Valid() && framing.writer.schedule == []
      invariant framing.writer.sent == old(framing.writer.sent) + Wire(max, ops[..i])
    {
      assert ops[..i + 1][..i] == ops[..i];
      match ops[i] {
        case SendReset => var _ := framing.SendReset();
        case SendPacket(p) => var _ := framing.SendPacket(p);
      }
      Regroup(old(framing.writer.sent), Wire(max, ops[..i]), WireOf(max, ops[i]));
    }
    assert ops[..|ops|] == ops;
  }

  /** No frame the sending side writes is oversized. */
  lemma WireOfFits(max: nat, op: Op, rest: Bytes)
    requires AllFitting(max, rest)
    ensures AllFitting(max, WireOf(max, op) + rest)
  {
    match op {
      case SendReset =>
        FittingOfFirst(max, [0] + rest, [], rest);
        FittingOfFirst(max, [0] + ([0] + rest), [], [0] + rest);
        assert [0, 0] + rest == [0] + ([0] + rest);
      case SendPacket(p) =>
        if Fits(max, p) {
          Cobs.EncodeZeroFree(p);
          Cobs.EncodeLength(p);
          FittingOfFirst(max, Framed(p) + rest, Cobs.Encode(p), rest);
        } else {
          assert WireOf(max, op) + rest == rest;
        }
    }
  }

  lemma {:induction false} WireFits(max: nat, ops: seq<Op>, rest: Bytes)
    requires AllFitting(max, rest)
    ensures AllFitting(max, Wire(max, ops) + rest)
    decreases |ops|
  {
    if ops == [] {
      assert Wire(max, ops) + rest == rest;
    } else {
      var init, last := ops[..|ops| - 1], ops[|ops| - 1];
      WireOfFits(max, last, rest);
      WireFits(max, init, WireOf(max, last) + rest);
      Regroup(Wire(max, init), WireOf(max, last), rest);
    }
  }

  /**
   End to end. For every list of calls, every fragmentation and every pattern of failing
   reads, what was sent is exactly what is received.
   */
  method RoundTrip(max: nat, ops: seq<Op>, schedule: seq<Chunk>) returns (inputs: seq<Input>)
    ensures inputs == Meaning(max, ops)
  {
    var idle := new Reader([], []);
    var sink := new Writer([]);
    var sender := new F.Framing(max, idle, sink);
    SendAll(sender, ops);
    assert sink.sent == [] + Wire(max, ops) == Wire(max, ops);
    var receiver;
    ghost var log, last;
    inputs, receiver, log, last := ReadWhole(max, sink.sent, schedule);
    WireRead(max, ops);
  }

  /** What was sent, read to the end, is what was meant. */
  lemma WireRead(max: nat, ops: seq<Op>)
    ensures AllFitting(max, Wire(max, ops)) && Interpreted(Frames(max, Wire(max, ops))) == Meaning(max, ops)
  {
    var none: Bytes := [];
    var wire := Wire(max, ops);
    FirstZeroNone(none);
    assert wire + none == wire;
    WireFits(max, ops, none);
    SentIsReceived(max, ops, none);
    TakesAllFrames(max, wire, |Meaning(max, ops)|);
  }
}
