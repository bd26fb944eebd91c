/** The older adapter of src/ws_stream.bak.rs, `Connection`. It buffers the
    bytes of a message rather than the message, reads a close message as end
    of file, has no terminal state (a later read polls again), does not
    flush after a write, and reports a connection closed by the peer as
    `NotConnected`. */
module WsStreamBak {
  import opened Common
  import opened Io
  import F = Futures
  import T = Tungstenite
  import P = Provider

  /** The read cursor: the bytes of a message being handed out from
      `chunkStart` on, or no chunk (the next read polls). */
  datatype ReadState = Ready(chunk: seq<byte>, chunkStart: nat) | PendingChunk

  predicate InRange(st: ReadState) {
    st.Ready? ==> st.chunkStart <= |st.chunk|
  }

  /** Between reads a buffered chunk always has bytes left. */
  predicate Settled(st: ReadState) {
    st.Ready? ==> st.chunkStart < |st.chunk|
  }

  datatype ReadOutcome = ReadOutcome(
    state: ReadState,
    incoming: seq<P.StreamPoll>,
    result: Result<nat>,
    data: seq<byte>)

  /** The `Ready` arm of `io_read`: the copy ends at `min(chunkStart +
      buffer length, chunk length)`; the chunk is dropped when that is its
      end, and otherwise `chunkStart` moves up to it. */
  function ReadChunk(chunk: seq<byte>, chunkStart: nat, bufLen: nat, incoming: seq<P.StreamPoll>): ReadOutcome
    requires chunkStart <= |chunk|
  {
    var end := Min(chunkStart + bufLen, |chunk|);
    var len := end - chunkStart;
    ReadOutcome(
      if |chunk| == end then PendingChunk else Ready(chunk, end),
      incoming, Ok(len), chunk[chunkStart..end])
  }

  /** `io_read` on a buffer of `bufLen` bytes. A read never writes more
      than the buffer holds, returns the number of bytes it wrote, writes
      nothing when it fails, and leaves the cursor settled. */
  function Read(st: ReadState, incoming: seq<P.StreamPoll>, bufLen: nat): (o: ReadOutcome)
    requires InRange(st)
    ensures Settled(o.state)
    ensures |o.data| <= bufLen
    ensures o.result.Ok? ==> o.result.value == |o.data|
    ensures o.result.Err? ==> o.data == []
  {
    match st
    case Ready(chunk, chunkStart) => ReadChunk(chunk, chunkStart, bufLen, incoming)
    case PendingChunk =>
      var (event, rest) := P.PollStream(incoming);
      match event
      case Item(chunk) =>
        if chunk.Close? then ReadOutcome(PendingChunk, rest, Ok(0), [])
        else ReadChunk(T.IntoData(chunk), 0, bufLen, rest)
      case End => ReadOutcome(PendingChunk, rest, Ok(0), [])
      case NotReady => ReadOutcome(PendingChunk, rest, Err(WouldBlock), [])
      case Failed(err) => ReadOutcome(PendingChunk, rest, if err.Io? then Err(err.kind) else Ok(0), [])
  }

  /** The bytes the receive half will still deliver to this reader: those
      of its messages other than close messages, in order, past not-ready
      answers, close messages and errors (none of them stops later reads),
      up to the end of the stream. */
  function Delivered(q: seq<P.StreamPoll>): seq<byte> {
    if q == [] then []
    else match q[0]
      case Item(m) => (if m.Close? then [] else T.IntoData(m)) + Delivered(q[1..])
      case NotReady => Delivered(q[1..])
      case End => []
      case Failed(_) => Delivered(q[1..])
  }

  /** The byte stream a reader in state `st` has still to see. */
  function Remaining(st: ReadState, q: seq<P.StreamPoll>): seq<byte>
    requires InRange(st)
  {
    match st
    case PendingChunk => Delivered(q)
    case Ready(chunk, chunkStart) => chunk[chunkStart..] + Delivered(q)
  }

  datatype Reads = Reads(state: ReadState, incoming: seq<P.StreamPoll>, data: seq<byte>)

  /** Successive reads with buffers of the given sizes; `data` is what they
      wrote, one after the other. The cursor stays in range throughout. */
  function ReadMany(st: ReadState, q: seq<P.StreamPoll>, sizes: seq<nat>): (r: Reads)
    requires InRange(st)
    ensures InRange(r.state)
    decreases |sizes|
  {
    if sizes == [] then Reads(st, q, [])
    else
      var o := Read(st, q, sizes[0]);
      var r := ReadMany(o.state, o.incoming, sizes[1..]);
      Reads(r.state, r.incoming, o.data + r.data)
  }

  /** A read in `Ready` copies the bytes from `chunkStart` up to `end`, the
      smaller of `chunkStart` plus the buffer length and the chunk length;
      it drops the chunk exactly when `end` is the chunk's end and otherwise
      keeps the same bytes with `chunkStart` moved to `end`; it does not poll. */
  lemma ReadyRead(chunk: seq<byte>, chunkStart: nat, q: seq<P.StreamPoll>, bufLen: nat)
    requires chunkStart <= |chunk|
    ensures var end := Min(chunkStart + bufLen, |chunk|);
            var o := Read(Ready(chunk, chunkStart), q, bufLen);
            && end - chunkStart == Min(bufLen, |chunk| - chunkStart)
            && o.result == Ok(end - chunkStart)
            && o.data == chunk[chunkStart..end]
            && o.incoming == q
            && (o.state == PendingChunk <==> end == |chunk|)
            && (o.state != PendingChunk ==> o.state == Ready(chunk, end))
  {
  }

  /** A close message, with a frame or without, reads as end of file; it
      is consumed, nothing is buffered and the cursor stays `PendingChunk`. */
  lemma CloseReadsAsEof(frame: Option<T.CloseFrame>, rest: seq<P.StreamPoll>, bufLen: nat)
    ensures Read(PendingChunk, [P.Item(T.Close(frame))] + rest, bufLen)
            == ReadOutcome(PendingChunk, rest, Ok(0), [])
  {
    assert ([P.Item(T.Close(frame))] + rest)[1..] == rest;
  }

  /** Any other message is buffered at offset 0, and the same call goes on
      to read from its bytes. */
  lemma PendingTakesMessage(m: T.Message, rest: seq<P.StreamPoll>, bufLen: nat)
    requires !m.Close?
    ensures Read(PendingChunk, [P.Item(m)] + rest, bufLen) == Read(Ready(T.IntoData(m), 0), rest, bufLen)
  {
    assert ([P.Item(m)] + rest)[1..] == rest;
  }

  /** A message without bytes that is not a close is not skipped either:
      the read that takes it returns 0, which a byte-stream caller reads as
      end of file, although the receive half goes on. */
  lemma EmptyMessageReadsAsZero(m: T.Message, rest: seq<P.StreamPoll>, bufLen: nat)
    requires !m.Close? && T.IntoData(m) == []
    ensures Read(PendingChunk, [P.Item(m)] + rest, bufLen)
            == ReadOutcome(PendingChunk, rest, Ok(0), [])
  {
    assert ([P.Item(m)] + rest)[1..] == rest;
  }

  /** In `PendingChunk`, the end of the stream reads as end of file and a
      not-ready stream as `WouldBlock`; neither moves the cursor nor writes
      to the buffer. */
  lemma PendingEndOrNotReady(q: seq<P.StreamPoll>, bufLen: nat)
    requires q == [] || q[0].End? || q[0].NotReady?
    ensures var o := Read(PendingChunk, q, bufLen);
            && o.state == PendingChunk && o.data == []
            && (q != [] && q[0].End? ==> o.result == Ok(0) && o.incoming == q)
            && (q == [] || q[0].NotReady? ==> o.result == Err(WouldBlock))
  {
  }

  /** An error of the receive half is returned when it is an I/O error and
      reads as end of file otherwise, but it ends nothing: the next read
      polls again and gets the next message's bytes. */
  lemma StreamErrorIsNotFinal(e: T.Error, m: T.Message, rest: seq<P.StreamPoll>, bufLen: nat)
    requires !m.Close?
    ensures var first := Read(PendingChunk, [P.Failed(e), P.Item(m)] + rest, bufLen);
            var bytes := T.IntoData(m);
            && first == ReadOutcome(PendingChunk, [P.Item(m)] + rest, if e.Io? then Err(e.kind) else Ok(0), [])
            && Read(first.state, first.incoming, bufLen).data == bytes[..Min(bufLen, |bytes|)]
  {
    assert ([P.Failed(e), P.Item(m)] + rest)[1..] == [P.Item(m)] + rest;
    assert ([P.Item(m)] + rest)[1..] == rest;
  }

  /** One read loses, repeats and reorders nothing of the data: the bytes it
      writes, followed by what is left to read after it, are what was left
      before it. */
  lemma ReadConserves(st: ReadState, q: seq<P.StreamPoll>, bufLen: nat)
    requires InRange(st)
    ensures var o := Read(st, q, bufLen);
            o.data + Remaining(o.state, o.incoming) == Remaining(st, q)
  {
    match st
    case Ready(chunk, chunkStart) =>
      ChunkConserves(chunk, chunkStart, bufLen, q);
    case PendingChunk =>
      if q != [] && q[0].Item? && !q[0].msg.Close? {
        ChunkConserves(T.IntoData(q[0].msg), 0, bufLen, q[1..]);
      }
  }

  lemma ChunkConserves(chunk: seq<byte>, chunkStart: nat, bufLen: nat, q: seq<P.StreamPoll>)
    requires chunkStart <= |chunk|
    ensures var o := ReadChunk(chunk, chunkStart, bufLen, q);
            o.data + Remaining(o.state, o.incoming) == chunk[chunkStart..] + Delivered(q)
  {
    var end := Min(chunkStart + bufLen, |chunk|);
    var o := ReadChunk(chunk, chunkStart, bufLen, q);
    var rest := Delivered(q);
    SplitSlice(chunk, chunkStart, end, rest);
    if end < |chunk| {
      assert Remaining(o.state, o.incoming) == chunk[end..] + rest;
    }
  }

  /** Slicing invariance: however the caller sizes its buffers, successive
      reads hand out consecutive pieces of the byte stream. */
  lemma {:induction false} ReadsConserve(st: ReadState, q: seq<P.StreamPoll>, sizes: seq<nat>)
    requires InRange(st)
    ensures var r := ReadMany(st, q, sizes);
            r.data + Remaining(r.state, r.incoming) == Remaining(st, q)
    decreases |sizes|
  {
    if sizes != [] {
      var o := Read(st, q, sizes[0]);
      ReadConserves(st, q, sizes[0]);
      ReadsConserve(o.state, o.incoming, sizes[1..]);
      var r := ReadMany(o.state, o.incoming, sizes[1..]);
      assert o.data + r.data + Remaining(r.state, r.incoming)
          == o.data + (r.data + Remaining(r.state, r.incoming));
    }
  }

  /** The error kind a failed write or flush reports: a connection the peer
      closed is `NotConnected`, one already closed here `ConnectionAborted`,
      anything else `Other`. */
  function ErrorKindOf(e: T.Error): (k: ErrorKind)
    ensures k == NotConnected <==> e.ConnectionClosed?
    ensures k == ConnectionAborted <==> e.AlreadyClosed?
    ensures k == NotConnected || k == ConnectionAborted || k == Other
  {
    match e
    case ConnectionClosed => NotConnected
    case AlreadyClosed => ConnectionAborted
    case _ => Other
  }

  datatype WriteOutcome = WriteOutcome(result: Result<nat>, sent: seq<T.Message>, sinkAnswers: seq<P.SinkPoll>)

  /** `io_write`: the whole buffer is offered as one binary message and no
      flush follows. The write reports the buffer's full length exactly when
      the message was taken, and never a partial count; when it was not
      taken the error says why. */
  function Write(buf: seq<byte>, sent: seq<T.Message>, q: seq<P.SinkPoll>): (o: WriteOutcome)
    ensures o.result.Ok? <==> o.sent == sent + [T.Binary(buf)]
    ensures o.result.Ok? ==> o.result.value == |buf|
    ensures o.result.Err? ==> o.sent == sent
    ensures o.sinkAnswers == P.PollSink(q).1
    ensures o.result == Err(WouldBlock) <==> P.PollSink(q).0.SinkNotReady?
    ensures P.PollSink(q).0.SinkFailed? ==> o.result == Err(ErrorKindOf(P.PollSink(q).0.error))
  {
    var (answer, rest) := P.PollSink(q);
    match answer
    case SinkReady => WriteOutcome(Ok(|buf|), sent + [T.Binary(buf)], rest)
    case SinkNotReady => WriteOutcome(Err(WouldBlock), sent, rest)
    case SinkFailed(e) => WriteOutcome(Err(ErrorKindOf(e)), sent, rest)
  }

  /** A send half that reports the connection closed makes a write fail with
      `NotConnected`, the error a caller sees when writing after close. */
  lemma WriteAfterCloseIsNotConnected(buf: seq<byte>, sent: seq<T.Message>, rest: seq<P.SinkPoll>)
    ensures Write(buf, sent, [P.SinkFailed(T.ConnectionClosed)] + rest).result == Err(NotConnected)
  {
  }

  datatype FlushOutcome = FlushOutcome(result: Result<()>, sinkAnswers: seq<P.SinkPoll>)

  /** `io_flush`: one `poll_complete`, errors mapped as for a write. */
  function Flush(q: seq<P.SinkPoll>): (o: FlushOutcome)
    ensures o.sinkAnswers == P.PollSink(q).1
    ensures o.result.Ok? <==> P.PollSink(q).0.SinkReady?
    ensures o.result == Err(WouldBlock) <==> P.PollSink(q).0.SinkNotReady?
    ensures P.PollSink(q).0.SinkFailed? ==> o.result == Err(ErrorKindOf(P.PollSink(q).0.error))
  {
    var (answer, rest) := P.PollSink(q);
    match answer
    case SinkReady => FlushOutcome(Ok(()), rest)
    case SinkNotReady => FlushOutcome(Err(WouldBlock), rest)
    case SinkFailed(e) => FlushOutcome(Err(ErrorKindOf(e)), rest)
  }

  /** `poll_flush`: `WouldBlock` becomes `Pending`; success and every other
      error are passed on as they are. */
  function PollFlushResult(r: Result<()>): (p: F.Poll<Result<()>>)
    ensures p == F.Pending <==> r == Err(WouldBlock)
    ensures p.Ready? ==> p.value == r
  {
    match r
    case Ok(_) => F.Ready(r)
    case Err(k) => if k == WouldBlock then F.Pending else F.Ready(r)
  }

  /** `async_shutdown`: close the send half; a failure is only logged, so
      shutting down always succeeds. */
  function Shutdown(q: seq<P.SinkPoll>): (r: (Result<()>, seq<P.SinkPoll>))
    ensures r.0 == Ok(())
    ensures r.1 == P.PollSink(q).1
  {
    var (_, rest) := P.PollSink(q);
    (Ok(()), rest)
  }

  /** Tearing down twice, by `poll_close` and then `Drop`, succeeds both
      times whatever the send half answers, even when it refuses the second
      close. */
  lemma TeardownTwiceSucceeds(q: seq<P.SinkPoll>)
    ensures var first := Shutdown(q);
            first.0 == Ok(()) && Shutdown(first.1).0 == Ok(())
            && Shutdown(first.1).1 == P.PollSink(P.PollSink(q).1).1
  {
  }

  /** `Connection`: the receive half, the send half and the read cursor. */
  class Connection {
    /** The answers the receive half's polls will give. */
    var incoming: seq<P.StreamPoll>
    /** The answers the send half will give. */
    var sinkAnswers: seq<P.SinkPoll>
    /** The messages the send half has taken, oldest first. */
    var sent: seq<T.Message>
    var state: ReadState
    const peer: Option<P.SocketAddr>

    ghost predicate Valid()
      reads this
    {
      Settled(state)
    }

    /** `Connection::new`: split the connection; nothing is buffered yet. */
    constructor (incoming: seq<P.StreamPoll>, sinkAnswers: seq<P.SinkPoll>, peer: Option<P.SocketAddr>)
      ensures Valid()
      ensures state == PendingChunk
      ensures this.incoming == incoming && this.sinkAnswers == sinkAnswers && this.peer == peer
      ensures sent == []
    {
      this.incoming := incoming;
      this.sinkAnswers := sinkAnswers;
      this.peer := peer;
      sent := [];
      state := PendingChunk;
    }

    /** Poll the receive half once. */
    method PollNext() returns (event: P.StreamPoll)
      modifies this`incoming
      ensures (event, incoming) == P.PollStream(old(incoming))
    {
      var polled := P.PollStream(incoming);
      event, incoming := polled.0, polled.1;
    }

    /** `io_read`: loops until it can return; moves `chunkStart` in place
      while bytes are left. */
    method IoRead(buf: array<byte>) returns (r: Result<nat>)
      requires Valid()
      modifies this`state, this`incoming, buf
      ensures Valid()
      ensures var o := Read(old(state), old(incoming), buf.Length);
              && state == o.state && incoming == o.incoming && r == o.result
              && buf[..|o.data|] == o.data
              && buf[|o.data|..] == old(buf[|o.data|..])
    {
      while true
        invariant InRange(state)
        invariant buf[..] == old(buf[..])
        invariant Read(state, incoming, buf.Length) == Read(old(state), old(incoming), buf.Length)
        decreases if state.PendingChunk? then 1 else 0
      {
        match state
        case Ready(chunk, chunkStart) =>
          var end := Min(chunkStart + buf.Length, |chunk|);
          var len := end - chunkStart;
          CopyFromSlice(buf, chunk[chunkStart..end]);
          if |chunk| == end {
            state := PendingChunk;
          } else {
            state := state.(chunkStart := end);
          }
          return Ok(len);
        case PendingChunk =>
          var event := PollNext();
          match event {
            case Item(chunk) =>
              if chunk.Close? {
                return Ok(0);
              }
              state := Ready(T.IntoData(chunk), 0);
            case End =>
              return Ok(0);
            case NotReady =>
              return Err(WouldBlock);
            case Failed(err) =>
              if err.Io? {
                return Err(err.kind);
              } else {
                return Ok(0);
              }
          }
      }
    }

    /** `start_send` on the send half: the message is taken only when the
      send half is ready. */
    method StartSend(m: T.Message) returns (answer: P.SinkPoll)
      modifies this`sinkAnswers, this`sent
      ensures (answer, sinkAnswers) == P.PollSink(old(sinkAnswers))
      ensures sent == if answer.SinkReady? then old(sent) + [m] else old(sent)
    {
      var polled := P.PollSink(sinkAnswers);
      answer, sinkAnswers := polled.0, polled.1;
      if answer.SinkReady? {
        sent := sent + [m];
      }
    }

    /** `io_write`. */
    method IoWrite(buf: seq<byte>) returns (r: Result<nat>)
      modifies this`sinkAnswers, this`sent
      ensures var o := Write(buf, old(sent), old(sinkAnswers));
              r == o.result && sent == o.sent && sinkAnswers == o.sinkAnswers
    {
      var answer := StartSend(T.Binary(buf));
      match answer
      case SinkReady => return Ok(|buf|);
      case SinkNotReady => return Err(WouldBlock);
      case SinkFailed(e) => return Err(ErrorKindOf(e));
    }

    /** `io_flush`. */
    method IoFlush() returns (r: Result<()>)
      modifies this`sinkAnswers
      ensures r == Flush(old(sinkAnswers)).result
      ensures sinkAnswers == Flush(old(sinkAnswers)).sinkAnswers
    {
      var polled := P.PollSink(sinkAnswers);
      sinkAnswers := polled.1;
      match polled.0
      case SinkReady => r := Ok(());
      case SinkNotReady => r := Err(WouldBlock);
      case SinkFailed(e) => r := Err(ErrorKindOf(e));
    }

    /** `poll_flush`. */
    method PollFlush() returns (p: F.Poll<Result<()>>)
      modifies this`sinkAnswers
      ensures p == PollFlushResult(Flush(old(sinkAnswers)).result)
      ensures sinkAnswers == Flush(old(sinkAnswers)).sinkAnswers
    {
      var r := IoFlush();
      if r.Err? && r.kind == WouldBlock {
        p := F.Pending;
      } else {
        p := F.Ready(r);
      }
    }

    /** `async_shutdown`: close the send half and succeed whatever it says. */
    method AsyncShutdown() returns (r: Result<()>)
      modifies this`sinkAnswers
      ensures (r, sinkAnswers) == Shutdown(old(sinkAnswers))
    {
      var polled := P.PollSink(sinkAnswers);
      sinkAnswers := polled.1;
      r := Ok(());
    }

    /** `poll_close`: the `expect` on the shutdown never fires. */
    method PollClose() returns (r: Outcome<F.Poll<Result<()>>>)
      modifies this`sinkAnswers
      ensures r == Returned(F.Ready(Ok(())))
      ensures sinkAnswers == Shutdown(old(sinkAnswers)).1
    {
      var shut := AsyncShutdown();
      if shut.Err? {
        return Panicked;
      }
      return Returned(F.Ready(Ok(())));
    }

    /** `Drop`: shut down and discard the result. */
    method Drop()
      modifies this`sinkAnswers
      ensures sinkAnswers == Shutdown(old(sinkAnswers)).1
    {
      var _ := AsyncShutdown();
    }
  }
}
