/** The poll-driven byte movers: the copy future with its resizing reader, and the adapter that reads an HTTP/2 stream
    through a caller's buffer. What the peer, the socket and the scheduler do is given as scripts of outcomes; an
    exhausted script is pending for ever. */
module ByteCopy {
  import opened Prelude

  type Byte = bv8
  type Bytes = seq<Byte>

  datatype ReadOutcome = ReadPending | ReadError | Read(bytes: Bytes)
  datatype WriteOutcome = WritePending | WriteError | Wrote(n: nat)
  datatype FlushOutcome = FlushPending | FlushError | Flushed

  datatype Poll = Pending | Done(total: nat) | Failed(error: Error)
  datatype Error = Io | WriteZero

  /** An answer the future gets from its reader or its writer. */
  datatype Answer = Reader(read: ReadOutcome) | Writer(write: WriteOutcome) | Flush(flush: FlushOutcome)

  /** Whether an answer ends a poll, and with what result. */
  predicate Ends(a: Answer, r: Poll) {
    match a
    case Reader(read) => (read.ReadPending? && r.Pending?) || (read.ReadError? && r == Failed(Io))
    case Writer(write) =>
      || (write.WritePending? && r.Pending?) || (write.WriteError? && r == Failed(Io))
      || (write == Wrote(0) && r == Failed(WriteZero))
    case Flush(flush) =>
      (flush.FlushPending? && r.Pending?) || (flush.FlushError? && r == Failed(Io)) || (flush.Flushed? && r.Done?)
  }

  const INITIAL_BUFFER_SIZE: nat := 1024
  const LARGE_BUFFER_SIZE: nat := 16_384 - 64
  const JUMBO_BUFFER_SIZE: nat := 16 * 16_384 - 64
  const RESIZE_THRESHOLD_LARGE: nat := 128 * 1024
  const RESIZE_THRESHOLD_JUMBO: nat := 10 * 1024 * 1024

  /** The reader's buffer size is meant to be a step function of the bytes copied: a kilobyte, from 128 kilobytes on about
      sixteen, and from ten megabytes on about 256. */
  ghost function SizeFor(amt: nat): nat {
    if amt >= 10_485_760 then 262_080 else if amt >= 131_072 then 16_320 else 1_024
  }

  /** The bytes a reader will deliver. */
  function Supply(incoming: seq<ReadOutcome>): Bytes {
    if incoming == [] then [] else (if incoming[0].Read? then incoming[0].bytes else []) + Supply(incoming[1..])
  }

  /** A reader that has reported the end of its stream stays there. */
  predicate StaysAtEof(incoming: seq<ReadOutcome>) {
    incoming == [] || (StaysAtEof(incoming[1..]) && (incoming[0] == Read([]) ==> Supply(incoming[1..]) == []))
  }

  lemma Assoc(a: Bytes, b: Bytes, c: Bytes)
    ensures (a + b) + c == a + (b + c)
  {}

  lemma SupplyCons(a: Bytes, incoming: seq<ReadOutcome>)
    requires incoming != []
    ensures a + Supply(incoming) == a + (if incoming[0].Read? then incoming[0].bytes else []) + Supply(incoming[1..])
  {
    var b := if incoming[0].Read? then incoming[0].bytes else [];
    assert Supply(incoming) == b + Supply(incoming[1..]);
    hide *;
    Assoc(a, b, Supply(incoming[1..]));
  }

  lemma SplitAt(a: Bytes, b: Bytes, i: nat)
    requires i <= |b|
    ensures a + b == a + b[..i] + b[i..] && (i == |b| ==> b[..i] == b && b[i..] == [])
  {}

  class CopyBuf {
    // The future's own fields; `bufferSize` is its reader's.
    var buf: Option<Bytes>
    var amt: nat
    var metric: nat
    var bufferSize: nat
    // The outcomes to come.
    var incoming: seq<ReadOutcome>
    var outgoing: seq<WriteOutcome>
    var flushes: seq<FlushOutcome>
    // The answers so far, what the reader has handed over and what the writer has accepted.
    ghost var answers: seq<Answer>
    ghost var obtained: Bytes
    ghost var accepted: Bytes

    ghost predicate Counted()
      reads this
    {
      amt == |accepted| == metric && bufferSize == SizeFor(amt)
    }

    /** Nothing is lost, duplicated or reordered between reader and writer. */
    ghost predicate Valid()
      reads this
    {
      && Counted()
      && obtained == accepted + (if buf.Some? then buf.value else [])
      && (buf.Some? ==> buf.value != [])
    }

    constructor (incoming: seq<ReadOutcome>, outgoing: seq<WriteOutcome>, flushes: seq<FlushOutcome>)
      ensures Valid() && obtained == [] && amt == 0
      ensures this.incoming == incoming && this.outgoing == outgoing && this.flushes == flushes
    {
      buf, amt, metric, bufferSize := None, 0, 0, INITIAL_BUFFER_SIZE;
      this.incoming, this.outgoing, this.flushes := incoming, outgoing, flushes;
      answers, obtained, accepted := [], [], [];
    }

    method PollBytes() returns (r: ReadOutcome)
      modifies this`incoming, this`obtained, this`answers
      ensures answers == old(answers) + [Reader(r)]
      ensures r == if old(incoming) == [] then ReadPending else old(incoming)[0]
      ensures incoming == if old(incoming) == [] then [] else old(incoming)[1..]
      ensures obtained == old(obtained) + if r.Read? then r.bytes else []
      ensures obtained + Supply(incoming) == old(obtained + Supply(incoming))
    {
      r := ReadPending;
      if incoming != [] {
        SupplyCons(obtained, incoming);
        hide Supply;
        r := incoming[0];
        incoming := incoming[1..];
        if r.Read? {
          obtained := obtained + r.bytes;
        }
      }
      answers := answers + [Reader(r)];
    }

    /** The writer accepts a prefix of what it is offered. */
    method PollWrite(bytes: Bytes) returns (r: WriteOutcome)
      modifies this`outgoing, this`accepted, this`answers
      ensures answers == old(answers) + [Writer(r)]
      ensures r.Wrote? ==> r.n <= |bytes| && accepted == old(accepted) + bytes[..r.n]
      ensures !r.Wrote? ==> accepted == old(accepted)
      ensures r.WritePending? || |outgoing| < |old(outgoing)|
    {
      r := WritePending;
      if outgoing != [] {
        r := outgoing[0];
        outgoing := outgoing[1..];
        if r.Wrote? {
          if r.n > |bytes| {
            r := Wrote(|bytes|);
          }
          accepted := accepted + bytes[..r.n];
        }
      }
      answers := answers + [Writer(r)];
    }

    method PollFlush() returns (r: FlushOutcome)
      modifies this`flushes, this`answers
      ensures answers == old(answers) + [Flush(r)]
      ensures r == if old(flushes) == [] then FlushPending else old(flushes)[0]
    {
      r := FlushPending;
      if flushes != [] {
        r := flushes[0];
        flushes := flushes[1..];
      }
      answers := answers + [Flush(r)];
    }

    method Resize(size: nat)
      modifies this`bufferSize
      ensures bufferSize == size
    {
      bufferSize := size;
    }

    /** The stored buffer if there is one, or more from the reader. */
    method Fetch() returns (r: ReadOutcome)
      requires Valid()
      modifies this`buf, this`incoming, this`obtained, this`answers
      ensures answers == if old(buf).Some? then old(answers) else old(answers) + [Reader(r)]
      ensures old(buf).Some? ==> r == Read(old(buf).value)
      ensures Counted() && old(obtained) <= obtained
      ensures obtained == accepted + if r.Read? then r.bytes else []
      ensures obtained + Supply(incoming) == old(obtained + Supply(incoming))
      ensures buf == None && (old(StaysAtEof(incoming)) ==> StaysAtEof(incoming))
      ensures r == Read([]) && old(StaysAtEof(incoming)) ==> Supply(incoming) == []
    {
      if buf.Some? {
        r := Read(buf.value);
        buf := None;
      } else {
        r := PollBytes();
      }
    }

    /** Accounts for `i` bytes of `buffer` written, and keeps the rest for later. */
    method Account(buffer: Bytes, i: nat)
      requires 0 < i <= |buffer| && buf == None && amt == metric && bufferSize == SizeFor(amt)
      modifies this`buf, this`metric, this`amt, this`bufferSize
      ensures amt == metric == old(amt) + i && bufferSize == SizeFor(amt)
      ensures buf == if i < |buffer| then Some(buffer[i..]) else None
    {
      if i < |buffer| {
        buf := Some(buffer[i..]);
      }
      metric := metric + i;
      var before := amt;
      amt := amt + i;
      if before < RESIZE_THRESHOLD_LARGE <= amt {
        Resize(LARGE_BUFFER_SIZE);
      }
      if before < RESIZE_THRESHOLD_JUMBO <= amt {
        Resize(JUMBO_BUFFER_SIZE);
      }
    }

    /** Writes as much of a buffer as the writer accepts; the result of the poll, if that ends it. */
    method Write(buffer: Bytes) returns (r: Option<Poll>)
      requires Counted() && buf == None && buffer != [] && obtained == accepted + buffer
      modifies this`buf, this`amt, this`metric, this`bufferSize, this`outgoing, this`accepted, this`answers
      ensures exists a :: answers == old(answers) + [a] && (r.Some? ==> Ends(a, r.value))
      ensures old(accepted) <= accepted <= obtained
      ensures r.None? || !r.value.Failed? ==> Valid()
      ensures r.None? ==> |outgoing| < |old(outgoing)|
      ensures r.Some? ==> !r.value.Done?
    {
      hide SizeFor;
      ghost var before := accepted;
      var write := PollWrite(buffer);
      assert answers == old(answers) + [Writer(write)];
      if write.WritePending? {
        buf := Some(buffer);
        return Some(Pending);
      } else if write.WriteError? {
        return Some(Failed(Io));
      } else if write.n == 0 {
        return Some(Failed(WriteZero));
      }
      SplitAt(before, buffer, write.n);
      Account(buffer, write.n);
      r := None;
    }

    /** One poll, which goes on until an answer ends it. Pending keeps every byte obtained, accepted or stored; completion
        comes at the end of the reader's stream with all of it accepted and returns its length; failure leaves the
        accepted bytes a prefix of those obtained. */
    method Poll() returns (r: Poll)
      requires Valid()
      modifies this
      ensures old(answers) < answers && Ends(answers[|answers| - 1], r)
      ensures old(accepted) <= accepted <= obtained && old(obtained) <= obtained
      ensures obtained + Supply(incoming) == old(obtained + Supply(incoming))
      ensures !r.Failed? ==> Valid()
      ensures old(StaysAtEof(incoming)) ==> StaysAtEof(incoming)
      ensures r.Done? ==> accepted == obtained && r.total == |obtained|
      ensures r.Done? && old(StaysAtEof(incoming)) ==> accepted == old(obtained + Supply(incoming))
    {
      hide Supply, StaysAtEof, SizeFor;
      while true
        invariant Valid()
        invariant old(accepted) <= accepted && old(obtained) <= obtained && old(answers) <= answers
        invariant obtained + Supply(incoming) == old(obtained + Supply(incoming))
        invariant old(StaysAtEof(incoming)) ==> StaysAtEof(incoming)
        decreases |outgoing|
      {
        var read := Fetch();
        if read.ReadPending? {
          return Pending;
        } else if read.ReadError? {
          return Failed(Io);
        }
        var buffer := read.bytes;
        if buffer == [] {
          var flush := PollFlush();
          match flush
          case FlushPending => return Pending;
          case FlushError => return Failed(Io);
          case Flushed => return Done(amt);
        }
        var ended := Write(buffer);
        if ended.Some? {
          return ended.value;
        }
      }
    }
  }

  /** `copy_buf`: the future polled up to `polls` times. If it completes, the writer has accepted all the reader had to
      give, in order, and its length is the result. */
  method Copy(incoming: seq<ReadOutcome>, outgoing: seq<WriteOutcome>, flushes: seq<FlushOutcome>, polls: nat)
    returns (r: Poll, future: CopyBuf)
    requires StaysAtEof(incoming)
    ensures future.accepted <= Supply(incoming)
    ensures r.Pending? ==> future.Valid() && future.obtained + Supply(future.incoming) == Supply(incoming)
    ensures r.Done? ==> future.accepted == Supply(incoming) && r.total == |Supply(incoming)|
  {
    future := new CopyBuf(incoming, outgoing, flushes);
    r := Pending;
    var left := polls;
    while r.Pending? && left > 0
      invariant fresh(future)
      invariant future.accepted <= future.obtained && future.obtained + Supply(future.incoming) == Supply(incoming)
      invariant !r.Failed? ==> future.Valid()
      invariant StaysAtEof(future.incoming)
      invariant r.Done? ==> future.accepted == Supply(incoming) && r.total == |Supply(incoming)|
    {
      r := future.Poll();
      left := left - 1;
    }
  }

  lemma Regroup(a: Bytes, b: Bytes, c: Bytes, d: Bytes)
    ensures a + b + (c + d) == a + (b + c) + d
  {}

  // Reading an HTTP/2 stream.

  /** What the stream yields next: data, with whether the stream has then ended; the end; or a reset. */
  datatype Frame = FramePending | Data(bytes: Bytes, last: bool) | EndOfStream | Reset(benign: bool)

  function Payload(frames: seq<Frame>): Bytes {
    if frames == [] then [] else (if frames[0].Data? then frames[0].bytes else []) + Payload(frames[1..])
  }

  datatype Chunk = ChunkPending | ChunkError | Chunk(bytes: Bytes)

  /** The first `k` frames carry nothing in mid-stream, and the next one, if there is one, is different. */
  ghost predicate Idles(frames: seq<Frame>, k: nat) {
    && k <= |frames| && (forall i :: 0 <= i < k ==> frames[i] == Data([], false))
    && (k < |frames| ==> frames[k] != Data([], false))
  }

  /** A frame after which the stream has ended, or was closed without error. */
  predicate Closes(f: Frame) {
    f == EndOfStream || f == Reset(true) || (f.Data? && f.last)
  }

  ghost predicate TellsAt(before: seq<Frame>, after: seq<Frame>, r: Chunk, k: nat)
    requires k <= |before|
  {
    && after == (if k < |before| then before[k + 1..] else [])
    && (r.ChunkPending? <==> k == |before| || before[k] == FramePending)
    && (r.ChunkError? <==> k < |before| && before[k] == Reset(false))
    && (r == Chunk([]) <==>
          k < |before| && (before[k] == EndOfStream || before[k] == Reset(true) || before[k] == Data([], true)))
    && (r.Chunk? && r.bytes != [] ==> k < |before| && before[k].Data? && before[k].bytes == r.bytes)
  }

  /** What a reader is told, and which frames are then left: frames that carry nothing in mid-stream are skipped; an
      error is a reset that is not benign; an empty chunk is the end of the stream; any other chunk is a frame's data. */
  ghost predicate Tells(before: seq<Frame>, after: seq<Frame>, r: Chunk) {
    exists k: nat :: Idles(before, k) && TellsAt(before, after, r, k)
  }

  lemma SplitOff(before: seq<Frame>, all: seq<Frame>, k: nat)
    requires k < |all|
    ensures all[k..][0] == all[k] && all[k..][1..] == all[k + 1..]
    ensures before + all[..k] + [all[k]] == before + all[..k + 1]
    ensures before + all[..k + 1] + all[k + 1..] == before + all
  {
    assert all[..k] + [all[k]] == all[..k + 1] && all[..k + 1] + all[k + 1..] == all;
  }

  /** A chunk is handed on as far as there is room, anything else as it is. */
  ghost predicate Hands(next: Chunk, room: nat, r: Chunk) {
    if next.Chunk? then r.Chunk? && |r.bytes| == Min(|next.bytes|, room) else r == next
  }

  class RWStream {
    var buf: Bytes
    var frames: seq<Frame>
    // What was delivered, and the frames taken from the stream.
    ghost var delivered: Bytes
    ghost var taken: seq<Frame>

    constructor (frames: seq<Frame>)
      ensures buf == [] && this.frames == frames && delivered == [] && taken == []
    {
      buf, this.frames, delivered, taken := [], frames, [], [];
    }

    /** What the reader has and will have been given, in order. */
    ghost function Whole(): Bytes
      reads this
    {
      delivered + buf + Payload(frames)
    }

    /** The stream has ended, or was closed without error, in a frame that was taken from it. */
    ghost predicate Ended()
      reads this
    {
      exists i :: 0 <= i < |taken| && Closes(taken[i])
    }

    /** `H2StreamReadHalf::poll_bytes`: an empty frame in mid-stream is skipped, so an empty result means the stream ended
        or was closed without error. */
    method PollBytes() returns (r: Chunk)
      modifies this`frames, this`taken
      ensures Tells(old(frames), frames, r) && taken + frames == old(taken + frames)
      ensures (if r.Chunk? then r.bytes else []) + Payload(frames) == old(Payload(frames))
      ensures r == Chunk([]) ==> Ended()
    {
      ghost var all, before, k := frames, taken, 0;
      while frames != []
        invariant k <= |all| && frames == all[k..] && taken == before + all[..k]
        invariant forall i :: 0 <= i < k ==> all[i] == Data([], false)
        invariant Payload(frames) == Payload(all)
        decreases |frames|
      {
        var f := frames[0];
        SplitOff(before, all, k);
        frames, taken := frames[1..], taken + [f];
        if f == Data([], false) {
          k := k + 1;
        } else {
          assert Idles(all, k) && taken[|taken| - 1] == f;
          match f {
            case FramePending => r := ChunkPending;
            case EndOfStream => r := Chunk([]);
            case Reset(benign) => r := if benign then Chunk([]) else ChunkError;
            case Data(bytes, _) => r := Chunk(bytes);
          }
          assert TellsAt(all, frames, r, k);
          return;
        }
      }
      r := ChunkPending;
      assert Idles(all, k) && TellsAt(all, frames, r, k);
    }

    /** `RWStream::poll_read` into a buffer with `room` bytes left. It delivers the stream's bytes in order and without
        loss, as many of those at hand as fit; what it says otherwise is what the stream tells it, and it reports no bytes
        into a buffer with room only once the stream has ended. */
    method PollRead(room: nat) returns (r: Chunk)
      modifies this
      ensures Whole() == old(Whole()) && taken + frames == old(taken + frames)
      ensures delivered == old(delivered) + if r.Chunk? then r.bytes else []
      ensures r == Chunk([]) && room > 0 ==> Ended()
      ensures old(buf) != [] ==> frames == old(frames) && r.Chunk? && |r.bytes| == Min(|old(buf)|, room)
      ensures old(buf) == [] ==> exists next :: Tells(old(frames), frames, next) && Hands(next, room, r)
    {
      hide Payload, Tells;
      if buf == [] {
        var res := PollBytes();
        assert Tells(old(frames), frames, res);
        if !res.Chunk? {
          return res;
        }
        buf := res.bytes;
        Regroup(delivered, [], buf, Payload(frames));
      }
      var cnt := Min(|buf|, room);
      r := Chunk(buf[..cnt]);
      SplitAt(delivered, buf, cnt);
      delivered := delivered + buf[..cnt];
      buf := buf[cnt..];
    }
  }
}
