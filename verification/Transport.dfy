/** The byte stream a framer sits on, with the ways it can fragment and fail. */
module Transport {
  import opened Bytes

  /** How one read call turns out. */
  datatype Chunk = UpTo(size: nat) | Fault

  datatype ReadResult = Data(size: nat) | Failed

  /** What a read into `space` free bytes gives: it fails, or hands out at least one byte while there are any. */
  function Handed(stream: Bytes, schedule: seq<Chunk>, space: nat): (r: ReadResult)
    requires space > 0
    ensures r.Data? ==> r.size <= space && r.size <= |stream| && (r.size == 0 <==> stream == [])
  {
    if schedule == [] then Data(Min(space, |stream|))
    else match schedule[0]
         case Fault => Failed
         case UpTo(size) => Data(Min(Min(Max(size, 1), space), |stream|))
  }

  /** The entries left after one read. */
  function Shorter(schedule: seq<Chunk>): seq<Chunk> {
    if schedule == [] then [] else schedule[1..]
  }

  /**
   Source of received bytes. Every read follows the next entry of a schedule; past the
   schedule, a read takes all it can.
   */
  class Reader {
    var stream: Bytes
    var schedule: seq<Chunk>

    constructor (stream: Bytes, schedule: seq<Chunk>)
      ensures this.stream == stream && this.schedule == schedule
    {
      this.stream, this.schedule := stream, schedule;
    }

    /** Reads into the free space of `buffer` from index `filled` on, which is never empty. */
    method Read(buffer: array<Byte>, filled: nat) returns (r: ReadResult)
      requires filled < buffer.Length
      modifies this, buffer
      ensures r == Handed(old(stream), old(schedule), buffer.Length - filled) && schedule == Shorter(old(schedule))
      ensures r.Failed? ==> stream == old(stream) && buffer[..] == old(buffer[..])
      ensures r.Data? ==>
                && stream == old(stream)[r.size..]
                && buffer[..filled] == old(buffer[..filled])
                && buffer[filled..filled + r.size] == old(stream)[..r.size]
    {
      var size := buffer.Length - filled;
      if schedule != [] {
        var chunk := schedule[0];
        schedule := schedule[1..];
        if chunk.Fault? {
          return Failed;
        }
        size := Min(Max(chunk.size, 1), size);
      }
      size := Min(size, |stream|);
      forall i | 0 <= i < size {
        buffer[filled + i] := stream[i];
      }
      assert buffer[filled..filled + size] == stream[..size];
      stream := stream[size..];
      return Data(size);
    }
  }

  /** How one write call turns out. */
  datatype Write = Whole | Partial(size: nat)

  /** The part of `bytes` that reaches the peer. A failed write may have delivered any prefix. */
  function Delivered(bytes: Bytes, w: Write): Bytes {
    if w.Whole? then bytes else bytes[..Min(w.size, |bytes|)]
  }

  /** Sink of sent bytes, each write following the next entry of a schedule. */
  class Writer {
    var sent: Bytes
    var schedule: seq<Write>

    constructor (schedule: seq<Write>)
      ensures sent == [] && this.schedule == schedule
    {
      sent, this.schedule := [], schedule;
    }

    /** The outcome of the next write. */
    function Next(): Write
      reads this
    {
      if schedule == [] then Whole else schedule[0]
    }

    /** Writes and flushes; the flush failing after a full write is a failed write too. */
    method WriteAll(bytes: Bytes) returns (ok: bool)
      modifies this
      ensures ok <==> old(Next()).Whole?
      ensures sent == old(sent) + Delivered(bytes, old(Next()))
      ensures old(schedule) == [] ==> schedule == []
      ensures old(schedule) != [] ==> schedule == old(schedule)[1..]
    {
      ok := Next().Whole?;
      sent := sent + Delivered(bytes, Next());
      schedule := if schedule == [] then [] else schedule[1..];
    }
  }

  function Min(a: nat, b: nat): nat { if a < b then a else b }

  function Max(a: nat, b: nat): nat { if a < b then b else a }
}
