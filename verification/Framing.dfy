/** The framer: a resumable delimiter scanner over a fixed buffer, and the sending path. */
module Framing {
  import opened Bytes
  import Cobs
  import opened Errors
  import Packets
  import Splitter
  import opened Transport

  /** Half-open range of the receive buffer. */
  datatype Range = Range(start: nat, end: nat)

  /** The input a call to `NextPacket` amounts to, unless it failed. */
  function Arrived(r: Result<Option<nat>, Error>, decoded: Bytes): Option<Packets.Input> {
    match r
    case Ok(None) => Some(Packets.Reset)
    case Ok(Some(size)) => if size <= |decoded| then Some(Packets.Packet(decoded[..size])) else None
    case Err(FrameDecodingFailed) => Some(Packets.Garbled)
    case Err(_) => None
  }

  /** How far a call that looks for a frame reads. */
  datatype Stop = Found | End | Broken

  /**
   Where a call stops, with the bytes and the schedule left to the reader, when `kept`
   is in the buffer and a frame is being discarded or not.
   */
  function ReadsUntil(max: nat, kept: Bytes, discarding: bool, stream: Bytes, schedule: seq<Chunk>)
    : (Stop, Bytes, seq<Chunk>)
    decreases |stream|, |kept|, 1
  {
    var i := FirstZero(kept);
    if i < |kept| then
      if discarding then ReadsUntil(max, kept[i + 1..], false, stream, schedule) else (Found, stream, schedule)
    else if discarding || |kept| > max then ReadsOn(max, [], true, stream, schedule)
    else ReadsOn(max, kept, false, stream, schedule)
  }

  /** The same when a read comes next. */
  function ReadsOn(max: nat, room: Bytes, discarding: bool, stream: Bytes, schedule: seq<Chunk>)
    : (Stop, Bytes, seq<Chunk>)
    requires |room| <= max
    decreases |stream|, |room|, 0
  {
    match Handed(stream, schedule, max + 1 - |room|)
    case Failed => (Broken, stream, Shorter(schedule))
    case Data(n) =>
      if n == 0 then (End, stream, Shorter(schedule))
      else ReadsUntil(max, room + stream[..n], discarding, stream[n..], Shorter(schedule))
  }

  /** The framer's counts at some time, with all bytes the transport ever gives. */
  datatype Tally = Tally(warnings: seq<nat>, total: nat, delimiters: nat, discarded: nat, returned: nat)

  /** No call takes more of the schedule than there is, and none fails without a fault in it. */
  lemma {:induction false} ReadsLeave(max: nat, kept: Bytes, discarding: bool, stream: Bytes, schedule: seq<Chunk>)
    ensures var (stop, _, later) := ReadsUntil(max, kept, discarding, stream, schedule);
            && |later| + (if stop == Broken then 1 else 0) <= |schedule|
            && (Fault !in schedule ==> Fault !in later && stop != Broken)
    decreases |stream|, |kept|
  {
    var i := FirstZero(kept);
    if i < |kept| {
      if discarding {
        ReadsLeave(max, kept[i + 1..], false, stream, schedule);
      }
    } else {
      var over := discarding || |kept| > max;
      var room := if over then [] else kept;
      var read := Handed(stream, schedule, max + 1 - |room|);
      if read.Data? && read.size > 0 {
        ReadsLeave(max, room + stream[..read.size], over, stream[read.size..], Shorter(schedule));
      }
    }
  }

  function StopOf<T>(r: Result<T, Error>): Stop {
    match r
    case Ok(_) => Found
    case Err(RecvFailed) => Broken
    case Err(_) => End
  }

  class Framing {
    const max: nat
    const reader: Reader
    const writer: Writer

    const readerBuffer: array<Byte> // What was received and is still to be handed out, and a spare slot
    var readerFilled: nat // How much of readerBuffer is in use
    var readerOffset: nat // Where the next frame begins
    var readerSearch: nat // Up to here the next frame is known to be free of delimiters

    const decobsBuffer: array<Byte> // The packet decoded most recently
    const encobsBuffer: array<Byte> // The frame going out, its delimiter included

    var warnings: seq<nat> // Sizes of the oversized frames reported so far

    ghost var received: nat // Bytes read from the transport
    ghost var scanned: nat // Bytes looked at by the delimiter search
    ghost var moved: nat // Bytes copied by compaction
    ghost var returned: nat // Bytes handed out as frames
    ghost var delimiters: nat // Delimiters consumed
    ghost var discarded: nat // Bytes thrown away

    ghost predicate Shape()
      reads this, readerBuffer
    {
      && readerBuffer.Length == max + 1 && encobsBuffer.Length == max + 1 && decobsBuffer.Length == max
      && readerBuffer != encobsBuffer && readerBuffer != decobsBuffer && encobsBuffer != decobsBuffer
      && readerOffset <= readerSearch <= readerFilled <= max + 1
      && ZeroFree(readerBuffer[readerOffset..readerSearch])
    }

    /** The counts add up when the buffer has been looked at up to `looked`. */
    ghost predicate Books(looked: nat)
      reads this
    {
      && readerOffset <= looked <= readerFilled
      // every received byte is returned, a delimiter, thrown away or pending, ...
      && received == returned + delimiters + discarded + (readerFilled - readerOffset)
      // ... it is looked at once, and no byte is moved that was not looked at before
      && scanned + (readerFilled - looked) == received
      && moved + (if readerOffset > 0 then looked - readerOffset else 0) <= scanned
    }

    ghost predicate Valid()
      reads this, readerBuffer
    {
      Shape() && Books(readerSearch)
    }

    /** Received bytes not handed out yet. */
    ghost function Pending(): Bytes
      requires Shape()
      reads this, readerBuffer
    {
      readerBuffer[readerOffset..readerFilled]
    }

    /** Everything still to be consumed: the buffered bytes and the unread stream. */
    ghost function Rest(): Bytes
      requires Shape()
      reads this, readerBuffer, reader
    {
      Pending() + reader.stream
    }

    ghost function Repr(): set<object> {
      {this, reader, writer, readerBuffer, decobsBuffer, encobsBuffer}
    }

    constructor (max: nat, reader: Reader, writer: Writer)
      ensures Valid() && this.max == max && this.reader == reader && this.writer == writer
      ensures fresh(Repr() - {reader, writer})
      ensures Pending() == [] && warnings == []
      ensures received == scanned == moved == returned == delimiters == discarded == 0
    {
      this.max, this.reader, this.writer := max, reader, writer;
      readerBuffer := new Byte[max + 1](_ => 0);
      decobsBuffer := new Byte[max](_ => 0);
      encobsBuffer := new Byte[max + 1](_ => 0);
      readerFilled, readerOffset, readerSearch := 0, 0, 0;
      warnings := [];
      received, scanned, moved, returned, delimiters, discarded := 0, 0, 0, 0, 0, 0;
    }

    /** Position of the first delimiter in the unscanned part of the buffer, looking at each byte once. */
    method FindDelimiter() returns (found: Option<nat>)
      requires Valid()
      modifies this`scanned
      ensures Shape() && Books(if found.Some? then readerSearch + found.value + 1 else readerFilled)
      ensures scanned == old(scanned) + (if found.Some? then found.value + 1 else readerFilled - readerSearch)
      ensures match found
              case Some(i) =>
                && readerSearch + i < readerFilled && readerBuffer[readerSearch + i] == 0
                && ZeroFree(readerBuffer[readerSearch..readerSearch + i])
              case None => ZeroFree(readerBuffer[readerSearch..readerFilled])
    {
      var i := readerSearch;
      while i < readerFilled
        invariant readerSearch <= i <= readerFilled && scanned == old(scanned) + (i - readerSearch)
        invariant forall k :: readerSearch <= k < i ==> readerBuffer[k] != 0
      {
        scanned := scanned + 1;
        if readerBuffer[i] == 0 {
          return Some(i - readerSearch);
        }
        i := i + 1;
      }
      return None;
    }

    /** Consumes the frame ending at the delimiter just found. */
    method Consume(found: nat, ghost discarding: bool) returns (range: Range)
      requires Shape() && readerSearch + found < readerFilled && Books(readerSearch + found + 1)
      requires readerBuffer[readerSearch + found] == 0
      requires ZeroFree(readerBuffer[readerSearch..readerSearch + found])
      modifies this`readerOffset, this`readerSearch, this`delimiters, this`returned, this`discarded
      ensures Valid()
      ensures range.start <= range.end && range.end + 1 == readerOffset
      ensures range.start == old(readerOffset) && range.end == old(readerSearch) + found
      ensures ZeroFree(readerBuffer[range.start..range.end])
      ensures old(Rest()) == readerBuffer[range.start..range.end] + [0] + Rest()
      ensures readerFilled - readerSearch < old(readerFilled - readerSearch)
      ensures delimiters == old(delimiters) + 1
      ensures returned == old(returned) + (if discarding then 0 else range.end - range.start)
      ensures discarded == old(discarded) + (if discarding then range.end - range.start else 0)
    {
      var start, end := readerOffset, readerSearch + found;
      FrameInFront(readerBuffer[..], start, readerSearch, end, readerFilled, reader.stream);
      delimiters := delimiters + 1;
      if discarding {
        discarded := discarded + (end - start);
      } else {
        returned := returned + (end - start);
      }
      readerOffset, readerSearch := end + 1, end + 1;
      return Range(start, end);
    }

    /** Moves the partial frame to the front of the buffer, unless it is there already. */
    method Compact()
      requires Valid() && readerSearch == readerFilled
      modifies this`readerOffset, this`readerSearch, this`readerFilled, this`moved, readerBuffer
      ensures Valid() && readerOffset == 0 && readerSearch == readerFilled
      ensures Pending() == old(Pending())
      ensures moved == old(moved) + (if old(readerOffset) > 0 then |Pending()| else 0)
    {
      if readerOffset > 0 {
        var used := readerFilled - readerOffset;
        var i := 0;
        while i < used
          modifies this`moved, readerBuffer
          invariant i <= used && moved == old(moved) + i
          invariant forall k :: 0 <= k < i ==> readerBuffer[k] == old(readerBuffer[readerOffset + k])
          invariant forall k :: i <= k < readerBuffer.Length ==> readerBuffer[k] == old(readerBuffer[k])
        {
          readerBuffer[i] := readerBuffer[readerOffset + i];
          moved := moved + 1;
          i := i + 1;
        }
        readerFilled, readerOffset, readerSearch := used, 0, used;
        assert readerBuffer[0..used] == old(Pending());
      }
    }

    /** Throws the scanned buffer away. */
    method DropAll()
      requires Valid() && readerOffset == 0 && readerSearch == readerFilled
      modifies this`readerOffset, this`readerSearch, this`readerFilled, this`discarded
      ensures Valid() && readerFilled == readerOffset == readerSearch == 0
      ensures discarded == old(discarded) + old(readerFilled)
    {
      discarded := discarded + readerFilled;
      readerFilled, readerOffset, readerSearch := 0, 0, 0;
    }

    /**
     Frees buffer space after an unsuccessful search. Outside discard mode the partial
     frame is kept unless it fills the whole buffer; in discard mode nothing is.
     */
    method MakeRoom(discard: nat) returns (discard': nat)
      requires Shape() && Books(readerFilled) && ZeroFree(readerBuffer[readerSearch..readerFilled])
      requires discard > 0 ==> readerOffset == 0
      modifies this`readerOffset, this`readerSearch, this`readerFilled, this`moved, this`discarded, readerBuffer
      ensures Valid() && readerOffset == 0 && readerSearch == readerFilled <= max
      ensures ZeroFree(old(Pending()))
      ensures if discard == 0 && |old(Pending())| <= max
              then discard' == 0 && Pending() == old(Pending())
              else discard' == discard + |old(Pending())| && Pending() == []
      ensures discarded == old(discarded) + (discard' - discard)
    {
      ScannedAll(readerBuffer[..], readerOffset, readerSearch, readerFilled);
      readerSearch := readerFilled;
      discard' := discard;
      if discard == 0 {
        Compact();
      } else {
        discard' := discard' + readerFilled;
        DropAll();
      }
      if readerFilled == max + 1 {
        discard' := discard' + max + 1;
        DropAll();
      }
    }

    /** Reads more data into the free part of the buffer. */
    method Fill(discard: nat) returns (read: ReadResult)
      requires Valid() && readerOffset == 0 && readerSearch == readerFilled <= max
      modifies this`readerFilled, this`received, reader, readerBuffer
      ensures Valid() && Rest() == old(Rest())
      ensures received + |reader.stream| == old(received + |reader.stream|)
      ensures ReadsOn(max, old(Pending()), discard > 0, old(reader.stream), old(reader.schedule)) ==
              if read.Failed? then (Broken, reader.stream, reader.schedule)
              else if read.size == 0 then (End, reader.stream, reader.schedule)
              else Ahead(discard)
      ensures if read.Data? && read.size > 0 then |reader.stream| < |old(reader.stream)|
              else Pending() == old(Pending())
      ensures read.Data? && read.size == 0 ==> reader.stream == []
    {
      read := reader.Read(readerBuffer, readerFilled);
      if read.Data? {
        var n := read.size;
        ghost var was, got := old(readerBuffer[..readerFilled]), readerBuffer[readerFilled..readerFilled + n];
        received := received + n;
        readerFilled := readerFilled + n;
        assert readerBuffer[..readerFilled] == was + got;
        assert readerBuffer[0..readerFilled] == readerBuffer[..readerFilled];
        assert readerBuffer[0..readerSearch] == was == old(readerBuffer[0..readerFilled]);
        assert old(reader.stream) == got + reader.stream;
        Splitter.Regroup(was, got, reader.stream);
        assert Pending() == was + got;
      }
    }

    /** One round of waiting for a delimiter: frees space, then reads into it. */
    method Refill(discard: nat, ghost before: Bytes, ghost pre: Bytes, ghost junk: Bytes)
      returns (read: ReadResult, discard': nat, ghost junk': Bytes)
      requires Shape() && Books(readerFilled) && ZeroFree(readerBuffer[readerSearch..readerFilled])
      requires Splitter.Cut(max, before, pre, junk, Rest()) && |junk| == discard
      requires discard > 0 ==> readerOffset == 0
      modifies this`readerOffset, this`readerSearch, this`readerFilled, this`moved, this`discarded, this`received
      modifies reader, readerBuffer
      ensures Valid() && readerOffset == 0
      ensures received + |reader.stream| == old(received + |reader.stream|)
      ensures discarded - |junk'| == old(discarded) - |junk|
      ensures Splitter.Cut(max, before, pre, junk', Rest()) && |junk'| == discard'
      ensures old(Ahead(discard)) ==
              if read.Failed? then (Broken, reader.stream, reader.schedule)
              else if read.size == 0 then (End, reader.stream, reader.schedule)
              else Ahead(discard')
      ensures if read.Data? && read.size > 0 then |reader.stream| < |old(reader.stream)|
              else ZeroFree(Pending()) && |Pending()| <= max && (discard' > 0 ==> Pending() == [])
      ensures read.Data? && read.size == 0 ==> reader.stream == []
    {
      ghost var part := Pending();
      ScannedAll(readerBuffer[..], readerOffset, readerSearch, readerFilled);
      FirstZeroNone(part);
      discard' := MakeRoom(discard);
      junk' := junk;
      if discard' > 0 {
        Splitter.CutGrow(max, before, pre, junk, part, reader.stream);
        junk' := junk + part;
        assert Rest() == reader.stream;
      }
      read := Fill(discard');
    }

    /** Where the call will stop, from here. */
    ghost function Ahead(discard: nat): (Stop, Bytes, seq<Chunk>)
      requires Shape()
      reads this, readerBuffer, reader
    {
      ReadsUntil(max, Pending(), discard > 0, reader.stream, reader.schedule)
    }

    /** Consumes the frame just found, reporting it instead of keeping it in discard mode. */
    method Deliver(found: nat, discard: nat, ghost before: Bytes, ghost pre: Bytes, ghost junk: Bytes)
      returns (range: Range, ghost pre': Bytes)
      requires Shape() && readerSearch + found < readerFilled && Books(readerSearch + found + 1)
      requires readerBuffer[readerSearch + found] == 0
      requires ZeroFree(readerBuffer[readerSearch..readerSearch + found])
      requires Splitter.Cut(max, before, pre, junk, Rest()) && |junk| == discard
      modifies this`readerOffset, this`readerSearch, this`delimiters, this`returned, this`discarded, this`warnings
      ensures Valid() && range.start <= range.end < readerOffset
      ensures range.start == old(readerOffset) && range.end == old(readerSearch) + found
      ensures range.end + 1 == readerOffset
      ensures ZeroFree(readerBuffer[range.start..range.end])
      ensures readerFilled - readerSearch < old(readerFilled - readerSearch)
      ensures delimiters == old(delimiters) + 1
      ensures returned == old(returned) + (if discard == 0 then range.end - range.start else 0)
      ensures discarded == old(discarded) + (if discard == 0 then 0 else range.end - range.start)
      ensures if discard == 0
              then
                && warnings == old(warnings)
                && Splitter.Found(max, before, readerBuffer[range.start..range.end], Rest(), Splitter.Skipped(max, pre))
              else
                && Splitter.Cut(max, before, pre', [], Rest())
                && warnings == old(warnings) + [discard + range.end - range.start]
                && Splitter.Skipped(max, pre') == Splitter.Skipped(max, pre) + [discard + range.end - range.start]
    {
      ghost var all := Rest();
      assert Splitter.Cut(max, before, pre, junk, all);
      range := Consume(found, discard > 0);
      pre' := Splitter.CutStep(max, before, pre, junk, all, readerBuffer[range.start..range.end], Rest());
      if discard > 0 {
        warnings := warnings + [discard + range.end - range.start];
      }
    }

    ghost function Count(): Tally
      reads this, reader
    {
      Tally(warnings, received + |reader.stream|, delimiters, discarded, returned)
    }

    /** The counts when the oversized frames in `pre` and the first bytes of another are gone. */
    ghost function Without(start: Tally, skipped: seq<nat>, junk: Bytes): Tally {
      Tally(start.warnings + skipped, start.total, start.delimiters + |skipped|,
            start.discarded + Splitter.Sum(skipped) + |junk|, start.returned)
    }

    /** What the scanner knows while it works on a call: the bytes gone so far and the books. */
    ghost predicate Scanning(before: Bytes, start: Tally, pre: Bytes, junk: Bytes, discard: nat)
      reads this, readerBuffer, reader
    {
      && Valid() && Splitter.Cut(max, before, pre, junk, Rest()) && |junk| == discard
      && (discard > 0 ==> readerOffset == 0) && Count() == Without(start, Splitter.Skipped(max, pre), junk)
    }

    /** The next frame of `before` is in the buffer, and all in front of it is consumed. */
    ghost predicate Took(before: Bytes, start: Tally, range: Range, skipped: seq<nat>)
      reads this, readerBuffer, reader
    {
      && Valid() && range.start <= range.end < readerOffset
      && Splitter.Found(max, before, readerBuffer[range.start..range.end], Rest(), skipped)
      && var gone := Without(start, skipped, []);
         Count() == gone.(delimiters := gone.delimiters + 1, returned := gone.returned + (range.end - range.start))
    }

    /** No frame came of `before`: its end was reached, or a read failed and `junk` is lost. */
    ghost predicate GaveUp(before: Bytes, start: Tally, e: Error, junk: Bytes, skipped: seq<nat>)
      reads this, readerBuffer, reader
    {
      && Valid() && (e == Terminated || e == RecvFailed)
      && Splitter.Lost(max, before, junk, Rest(), skipped) && Count() == Without(start, skipped, junk)
      && |Pending()| <= max && (junk != [] ==> Pending() == [])
      && (e == Terminated ==> reader.stream == [] && Splitter.Ended(max, before, Pending(), skipped))
    }

    /** The counts after the next frame of `before` is handed out. */
    ghost function Handing(start: Tally, before: Bytes): Tally
      requires Splitter.NextFrame(max, before).Some?
    {
      var gone := Without(start, Splitter.Skipped(max, before), []);
      var size := |Splitter.NextFrame(max, before).value.0|;
      gone.(delimiters := gone.delimiters + 1, returned := gone.returned + size)
    }

    ghost predicate Stuck(before: Bytes, start: Tally, e: Error)
      reads this, readerBuffer, reader
    {
      exists junk: Bytes, skipped: seq<nat> :: GaveUp(before, start, e, junk, skipped)
    }

    /** A delimiter was found: it ends a frame, or the one being discarded. */
    method Finish(found: nat, discard: nat, ghost before: Bytes, ghost start: Tally, ghost pre: Bytes,
                  ghost junk: Bytes)
      returns (done: Option<Range>, ghost pre': Bytes)
      requires Shape() && readerSearch + found < readerFilled && Books(readerSearch + found + 1)
      requires readerBuffer[readerSearch + found] == 0
      requires ZeroFree(readerBuffer[readerSearch..readerSearch + found])
      requires Splitter.Cut(max, before, pre, junk, Rest()) && |junk| == discard
      requires Count() == Without(start, Splitter.Skipped(max, pre), junk)
      modifies this`readerOffset, this`readerSearch, this`delimiters, this`returned, this`discarded, this`warnings
      ensures match done
              case None => Scanning(before, start, pre', [], 0) && Ahead(0) == old(Ahead(discard))
              case Some(range) =>
                && Took(before, start, range, Splitter.Skipped(max, pre)) && discard == 0
                && old(Ahead(discard)) == (Stop.Found, reader.stream, reader.schedule)
      ensures readerFilled - readerSearch < old(readerFilled - readerSearch)
    {
      ghost var kept := Pending();
      var range;
      range, pre' := Deliver(found, discard, before, pre, junk);
      Kept(kept, range);
      if discard == 0 {
        return Some(range), pre;
      }
      Splitter.Regroup(start.warnings, Splitter.Skipped(max, pre), [discard + range.end - range.start]);
      Splitter.SumGrows(Splitter.Skipped(max, pre), discard + range.end - range.start);
      return None, pre';
    }

    /** No delimiter was found: frees space and reads on, unless the transport is done. */
    method ReadOn(discard: nat, ghost before: Bytes, ghost start: Tally, ghost pre: Bytes, ghost junk: Bytes)
      returns (failed: Option<Error>, discard': nat, ghost junk': Bytes)
      requires Shape() && Books(readerFilled) && ZeroFree(readerBuffer[readerSearch..readerFilled])
      requires Splitter.Cut(max, before, pre, junk, Rest()) && |junk| == discard
      requires Count() == Without(start, Splitter.Skipped(max, pre), junk) && (discard > 0 ==> readerOffset == 0)
      modifies this`readerOffset, this`readerSearch, this`readerFilled, this`moved, this`discarded, this`received
      modifies reader, readerBuffer
      ensures match failed
              case None =>
                && Scanning(before, start, pre, junk', discard') && Ahead(discard') == old(Ahead(discard))
                && |reader.stream| < |old(reader.stream)|
              case Some(e) =>
                && GaveUp(before, start, e, junk', Splitter.Skipped(max, pre))
                && old(Ahead(discard)) == (if e == RecvFailed then Broken else End, reader.stream, reader.schedule)
    {
      var read;
      read, discard', junk' := Refill(discard, before, pre, junk);
      if read.Failed? {
        GivesUp(before, start, pre, junk', RecvFailed);
        return Some(RecvFailed), discard', junk';
      }
      if read.size == 0 {
        GivesUp(before, start, pre, junk', Terminated);
        return Some(Terminated), discard', junk';
      }
      return None, discard', junk';
    }

    /** One turn of the search: a frame, the end of a discarded one, or more data. */
    method Turn(discard: nat, ghost before: Bytes, ghost start: Tally, ghost pre: Bytes, ghost junk: Bytes)
      returns (done: Option<Result<Range, Error>>, discard': nat, ghost pre': Bytes, ghost junk': Bytes)
      requires Scanning(before, start, pre, junk, discard)
      modifies this, reader, readerBuffer
      ensures match done
              case None =>
                && Scanning(before, start, pre', junk', discard') && Ahead(discard') == old(Ahead(discard))
                && (|reader.stream| < |old(reader.stream)|
                    || (reader.stream == old(reader.stream)
                        && readerFilled - readerSearch < old(readerFilled - readerSearch)))
              case Some(Ok(range)) => Took(before, start, range, Splitter.Skipped(max, pre)) && junk' == []
              case Some(Err(e)) => GaveUp(before, start, e, junk', Splitter.Skipped(max, pre))
      ensures done.Some? ==> old(Ahead(discard)) == (StopOf(done.value), reader.stream, reader.schedule)
    {
      var found := FindDelimiter();
      if found.Some? {
        var range;
        range, pre' := Finish(found.value, discard, before, start, pre, junk);
        return if range.Some? then Some(Ok(range.value)) else None, 0, pre', [];
      }
      var failed;
      failed, discard', junk' := ReadOn(discard, before, start, pre, junk);
      return if failed.Some? then Some(Err(failed.value)) else None, discard', pre, junk';
    }

    /** The frame just consumed was the first piece of what the buffer held. */
    lemma Kept(kept: Bytes, range: Range)
      requires Shape() && range.start <= range.end && range.end + 1 == readerOffset
      requires kept == readerBuffer[range.start..readerFilled]
      requires readerBuffer[range.end] == 0 && ZeroFree(readerBuffer[range.start..range.end])
      ensures ReadsUntil(max, kept, false, reader.stream, reader.schedule)
              == (Stop.Found, reader.stream, reader.schedule)
      ensures ReadsUntil(max, kept, true, reader.stream, reader.schedule) == Ahead(0)
    {
      var piece := readerBuffer[range.start..range.end];
      assert kept == piece + [0] + Pending();
      FirstZeroAt(piece, Pending());
      assert kept[|piece| + 1..] == Pending();
    }

    /**
     Gives the place of the next frame in the receive buffer, skipping and reporting
     those above the limit. However the stream is fragmented, the result is what the
     splitter says of the bytes not consumed yet. A failed read keeps what may still
     become a frame; in discard mode it loses `junk`.
     */
    method NextFrame() returns (r: Result<Range, Error>, ghost skipped: seq<nat>, ghost junk: Bytes)
      requires Valid()
      modifies this, reader, readerBuffer
      ensures Valid() && warnings == old(warnings) + skipped
      ensures match r
              case Ok(range) => Took(old(Rest()), old(Count()), range, skipped) && junk == []
              case Err(e) => GaveUp(old(Rest()), old(Count()), e, junk, skipped)
      ensures (StopOf(r), reader.stream, reader.schedule) == old(Ahead(0))
      ensures received + |reader.stream| == old(received + |reader.stream|)
      ensures returned == old(returned) + (if r.Ok? then r.value.end - r.value.start else 0)
      ensures delimiters == old(delimiters) + |skipped| + (if r.Ok? then 1 else 0)
      ensures discarded == old(discarded) + Splitter.Sum(skipped) + |junk|
    {
      ghost var before, start := Rest(), Count();
      ghost var pre: Bytes := [];
      junk := [];
      var discard := 0;
      Splitter.CutNothing(max, before);
      assert start.warnings + [] == start.warnings;
      while true
        invariant Scanning(before, start, pre, junk, discard) && Ahead(discard) == old(Ahead(0))
        decreases |reader.stream|, readerFilled - readerSearch
      {
        skipped := Splitter.Skipped(max, pre);
        var done;
        done, discard, pre, junk := Turn(discard, before, start, pre, junk);
        if done.Some? {
          return done.value, skipped, junk;
        }
      }
    }

    lemma GivesUp(before: Bytes, start: Tally, pre: Bytes, junk: Bytes, e: Error)
      requires Valid() && Splitter.Cut(max, before, pre, junk, Rest())
      requires e == RecvFailed || (e == Terminated && reader.stream == [])
      requires Count() == Without(start, Splitter.Skipped(max, pre), junk)
      requires ZeroFree(Pending()) && |Pending()| <= max && (junk != [] ==> Pending() == [])
      ensures GaveUp(before, start, e, junk, Splitter.Skipped(max, pre))
    {
      Splitter.CutLoses(max, before, pre, junk, Rest());
      if e == Terminated {
        assert Rest() == Pending();
        Splitter.CutEnd(max, before, pre, junk, Rest());
      }
    }

    /**
     Decodes the next frame, giving the size of its packet, or None for a reset.
     */
    method NextPacket() returns (r: Result<Option<nat>, Error>)
      requires Valid()
      modifies this, reader, readerBuffer, decobsBuffer
      ensures Valid()
      ensures r.Ok? && r.value.Some? ==> r.value.value <= decobsBuffer.Length
      ensures match Arrived(r, decobsBuffer[..])
              case Some(input) =>
                && Packets.NextInput(max, old(Rest())) == Some((input, Rest()))
                && Count() == Handing(old(Count()), old(Rest()))
              case None =>
                && r.Err? && Packets.Stopped(max, old(Rest()), r.error, Rest())
                && Stuck(old(Rest()), old(Count()), r.error)
      ensures var (stop, stream, schedule) := old(Ahead(0));
              && stream == reader.stream && schedule == reader.schedule
              && (stop == Broken <==> r == Err(RecvFailed)) && (stop == End <==> r == Err(Terminated))
      ensures r == Err(Terminated) ==> reader.stream == []
    {
      ghost var before := Rest();
      var next, skipped, junk := NextFrame();
      if next.Err? {
        Splitter.LostInterrupts(max, before, junk, Rest(), skipped);
        return Err(next.error);
      }
      FrameHanded(before, old(Count()), next.value, skipped);
      r := DecodeFrame(next.value);
    }

    lemma FrameHanded(before: Bytes, start: Tally, range: Range, skipped: seq<nat>)
      requires Took(before, start, range, skipped)
      ensures range.end - range.start <= max
      ensures var frame := readerBuffer[range.start..range.end];
              Packets.NextInput(max, before) == Some((Packets.Interpret(frame), Rest()))
      ensures Count() == Handing(start, before)
    {
      Splitter.FramesUnfold(max, before);
    }

    /** Decodes the frame just received; an empty one yields None. */
    method DecodeFrame(range: Range) returns (r: Result<Option<nat>, Error>)
      requires Valid() && range.start <= range.end <= readerFilled && range.end - range.start <= max
      modifies decobsBuffer
      ensures Valid() && Rest() == old(Rest()) && (r.Ok? && r.value.Some? ==> r.value.value <= decobsBuffer.Length)
      ensures Arrived(r, decobsBuffer[..]) == Some(Packets.Interpret(readerBuffer[range.start..range.end]))
      ensures r.Err? ==> r.error == FrameDecodingFailed
    {
      var frame := readerBuffer[range.start..range.end];
      if frame == [] {
        return Ok(None);
      }
      match Cobs.Decode(frame) {
        case None => return Err(FrameDecodingFailed);
        case Some(packet) =>
          Cobs.DecodeShrinks(frame);
          forall i | 0 <= i < |packet| {
            decobsBuffer[i] := packet[i];
          }
          assert decobsBuffer[..][..|packet|] == packet && readerBuffer[range.start..range.end] == frame;
          return Ok(Some(|packet|));
      }
    }

    /** Two delimiters: whatever was begun is ended, and an empty frame follows. */
    method SendReset() returns (r: Result<(), Error>)
      modifies writer
      ensures writer.sent == old(writer.sent) + Delivered([0, 0], old(writer.Next()))
      ensures r == if old(writer.Next()).Whole? then Ok(()) else Err(SendFailed)
      ensures old(writer.schedule) == [] ==> writer.schedule == []
    {
      var ok := writer.WriteAll([0, 0]);
      return if ok then Ok(()) else Err(SendFailed);
    }

    /** Sends the frame of a packet, unless that might be above the limit. */
    method SendPacket(packet: Bytes) returns (r: Result<(), Error>)
      requires Valid()
      modifies encobsBuffer, writer
      ensures Valid() && Rest() == old(Rest())
      ensures writer.sent == old(writer.sent) + Packets.Emitted(max, packet, old(writer.Next()))
      ensures old(writer.schedule) == [] ==> writer.schedule == []
      ensures r == Packets.SendResult(max, packet, old(writer.Next()))
    {
      var len := Cobs.EncodeBound(|packet|);
      if len > max {
        return Err(FrameTooLarge(len));
      }
      Cobs.EncodeLength(packet);
      var frame := Cobs.Encode(packet);
      forall i | 0 <= i < |frame| {
        encobsBuffer[i] := frame[i];
      }
      assert encobsBuffer[..|frame|] == frame;
      r := SendFrame(|frame|);
    }

    /** Sends what is in the send buffer up to `size`, the delimiter going into the slot behind. */
    method SendFrame(size: nat) returns (r: Result<(), Error>)
      requires Valid() && size < encobsBuffer.Length
      modifies encobsBuffer, writer
      ensures Valid() && Rest() == old(Rest())
      ensures writer.sent == old(writer.sent) + Delivered(old(encobsBuffer[..size]) + [0], old(writer.Next()))
      ensures r == if old(writer.Next()).Whole? then Ok(()) else Err(SendFailed)
      ensures old(writer.schedule) == [] ==> writer.schedule == []
    {
      encobsBuffer[size] := 0;
      assert encobsBuffer[..size + 1] == old(encobsBuffer[..size]) + [0];
      var ok := writer.WriteAll(encobsBuffer[..size + 1]);
      return if ok then Ok(()) else Err(SendFailed);
    }
  }

  /** The buffer's first frame, seen in the whole unconsumed stream. */
  lemma FrameInFront(b: Bytes, offset: nat, search: nat, end: nat, filled: nat, stream: Bytes)
    requires offset <= search <= end < filled <= |b| && b[end] == 0
    requires ZeroFree(b[offset..search]) && ZeroFree(b[search..end])
    ensures ZeroFree(b[offset..end])
    ensures b[offset..filled] + stream == b[offset..end] + [0] + (b[end + 1..filled] + stream)
  {
    ScannedAll(b, offset, search, end);
    assert b[offset..filled] == b[offset..end] + [0] + b[end + 1..filled];
  }

  lemma ScannedAll(b: Bytes, offset: nat, search: nat, filled: nat)
    requires offset <= search <= filled <= |b|
    requires ZeroFree(b[offset..search]) && ZeroFree(b[search..filled])
    ensures ZeroFree(b[offset..filled])
  {
    assert b[offset..filled] == b[offset..search] + b[search..filled];
  }
}
