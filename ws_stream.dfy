/** The message-to-byte-stream adapter of src/ws_stream.rs. It reads
    tungstenite messages from the receive half and hands their bytes out in
    reads of whatever size the caller asks for; each write becomes one
    binary message, followed by a flush. Reading ends for good in `Eof`
    after the receive half reports an error. */
module WsStream {
  import opened Common
  import opened Io
  import F = Futures
  import T = Tungstenite
  import P = Provider

  /** The read cursor: a chunk being handed out from `chunkStart` on, no
      chunk (the next read polls), or the end of reading. */
  datatype ReadState = Ready(chunk: T.Message, chunkStart: nat) | PendingChunk | Eof

  /** The offset of a buffered chunk lies within the chunk's bytes. */
  predicate InRange(st: ReadState) {
    st.Ready? ==> st.chunkStart <= |T.IntoData(st.chunk)|
  }

  /** Between reads a buffered chunk always has bytes left: the read that
      reaches the end of a chunk drops it. */
  predicate Settled(st: ReadState) {
    st.Ready? ==> st.chunkStart < |T.IntoData(st.chunk)|
  }

  /** What one read does: the new cursor, what is left of the receive half,
      the value returned, and the bytes written to the front of the buffer. */
  datatype ReadOutcome = ReadOutcome(
    state: ReadState,
    incoming: seq<P.StreamPoll>,
    result: Result<nat>,
    data: seq<byte>)

  /** The `Ready` arm of `io_read` on the bytes of the buffered chunk: copy
      as much of the rest as the buffer holds, then keep the rest (as a
      binary message) or drop the chunk when it is used up. */
  function ReadChunk(bytes: seq<byte>, chunkStart: nat, bufLen: nat, incoming: seq<P.StreamPoll>): ReadOutcome
    requires chunkStart <= |bytes|
  {
    var len := Min(bufLen, |bytes| - chunkStart);
    var end := chunkStart + len;
    ReadOutcome(
      if |bytes| == end then PendingChunk else Ready(T.Binary(bytes), end),
      incoming, Ok(len), bytes[chunkStart..end])
  }

  /** `io_read` on a buffer of `bufLen` bytes. A read never writes more
      than the buffer holds, returns the number of bytes it wrote, writes
      nothing when it fails, and leaves the cursor settled. */
  function Read(st: ReadState, incoming: seq<P.StreamPoll>, bufLen: nat): (o: ReadOutcome)
    requires InRange(st)
    ensures Settled(o.state)
    ensures |o.data| <= bufLen
    ensures o.result.Ok? ==> o.result.value == |o.data|
    ensures o.result.Err? ==> o.data == []
  {
    match st
    case Eof => ReadOutcome(Eof, incoming, Ok(0), [])
    case Ready(chunk, chunkStart) => ReadChunk(T.IntoData(chunk), chunkStart, bufLen, incoming)
    case PendingChunk =>
      var (event, rest) := P.PollStream(incoming);
      match event
      case Item(chunk) => ReadChunk(T.IntoData(chunk), 0, bufLen, rest)
      case End => ReadOutcome(PendingChunk, rest, Ok(0), [])
      case NotReady => ReadOutcome(PendingChunk, rest, Err(WouldBlock), [])
      case Failed(err) => ReadOutcome(Eof, rest, if err.Io? then Err(err.kind) else Ok(0), [])
  }

  /** The bytes the receive half will still deliver: those of its messages
      in order, past any not-ready answers, up to its end or first error. */
  function Delivered(q: seq<P.StreamPoll>): seq<byte> {
    if q == [] then []
    else match q[0]
      case Item(m) => T.IntoData(m) + Delivered(q[1..])
      case NotReady => Delivered(q[1..])
      case End => []
      case Failed(_) => []
  }

  /** The byte stream a reader in state `st` has still to see. */
  function Remaining(st: ReadState, q: seq<P.StreamPoll>): seq<byte>
    requires InRange(st)
  {
    match st
    case Eof => []
    case PendingChunk => Delivered(q)
    case Ready(chunk, chunkStart) => T.IntoData(chunk)[chunkStart..] + Delivered(q)
  }

  /** The effect of several reads in a row. */
  datatype Reads = Reads(state: ReadState, incoming: seq<P.StreamPoll>, data: seq<byte>)

  /** Successive reads with buffers of the given sizes; `data` is what they
      wrote, one after the other. The cursor stays in range throughout. */
  function ReadMany(st: ReadState, q: seq<P.StreamPoll>, sizes: seq<nat>): (r: Reads)
    requires InRange(st)
    ensures InRange(r.state)
    decreases |sizes|
  {
    if sizes == [] then Reads(st, q, [])
    else
      var o := Read(st, q, sizes[0]);
      var r := ReadMany(o.state, o.incoming, sizes[1..]);
      Reads(r.state, r.incoming, o.data + r.data)
  }

  /** A read in `Ready` copies `min(buffer, bytes left)` bytes from the
      offset on, advances the offset by that much, and drops the chunk
      exactly when the offset reaches its end; it does not poll. */
  lemma ReadyRead(chunk: T.Message, chunkStart: nat, q: seq<P.StreamPoll>, bufLen: nat)
    requires chunkStart <= |T.IntoData(chunk)|
    ensures var bytes := T.IntoData(chunk);
            var len := Min(bufLen, |bytes| - chunkStart);
            var o := Read(Ready(chunk, chunkStart), q, bufLen);
            && o.result == Ok(len)
            && o.data == bytes[chunkStart..chunkStart + len]
            && o.incoming == q
            && (o.state == PendingChunk <==> chunkStart + len == |bytes|)
            && (o.state != PendingChunk ==> o.state.Ready? && o.state.chunkStart == chunkStart + len
                                            && T.IntoData(o.state.chunk) == bytes)
  {
  }

  /** A message polled in `PendingChunk` is buffered at offset 0 and the same
      call goes on to read from it. */
  lemma PendingTakesMessage(m: T.Message, rest: seq<P.StreamPoll>, bufLen: nat)
    ensures Read(PendingChunk, [P.Item(m)] + rest, bufLen) == Read(Ready(m, 0), rest, bufLen)
  {
    assert ([P.Item(m)] + rest)[1..] == rest;
  }

  /** In `PendingChunk`, the end of the stream reads as end of file and a
      not-ready stream as `WouldBlock`; neither moves the cursor nor writes
      to the buffer. */
  lemma PendingEndOrNotReady(q: seq<P.StreamPoll>, bufLen: nat)
    requires q == [] || q[0].End? || q[0].NotReady?
    ensures var o := Read(PendingChunk, q, bufLen);
            && o.state == PendingChunk && o.data == []
            && (q != [] && q[0].End? ==> o.result == Ok(0) && o.incoming == q)
            && (q == [] || q[0].NotReady? ==> o.result == Err(WouldBlock))
  {
  }

  /** An error of the receive half ends reading: an I/O error is returned
      with its kind, any other error reads as end of file. */
  lemma StreamErrorEndsReading(e: T.Error, rest: seq<P.StreamPoll>, bufLen: nat)
    ensures Read(PendingChunk, [P.Failed(e)] + rest, bufLen)
            == ReadOutcome(Eof, rest, if e.Io? then Err(e.kind) else Ok(0), [])
  {
    assert ([P.Failed(e)] + rest)[1..] == rest;
  }

  /** Once reading has ended, every later read returns `Ok(0)` and writes
      nothing, whatever the buffer sizes, and never polls the receive half
      again. */
  lemma {:induction false} EofIsFinal(q: seq<P.StreamPoll>, sizes: seq<nat>)
    ensures forall n: nat :: Read(Eof, q, n) == ReadOutcome(Eof, q, Ok(0), [])
    ensures ReadMany(Eof, q, sizes) == Reads(Eof, q, [])
  {
    if sizes != [] {
      EofIsFinal(q, sizes[1..]);
    }
  }

  /** One read loses, repeats and reorders nothing: the bytes it writes,
      followed by what is left to read after it, are what was left before it. */
  lemma ReadConserves(st: ReadState, q: seq<P.StreamPoll>, bufLen: nat)
    requires InRange(st)
    ensures var o := Read(st, q, bufLen);
            o.data + Remaining(o.state, o.incoming) == Remaining(st, q)
  {
    match st
    case Eof =>
    case Ready(chunk, chunkStart) =>
      ChunkConserves(T.IntoData(chunk), chunkStart, bufLen, q);
    case PendingChunk =>
      if q != [] && q[0].Item? {
        ChunkConserves(T.IntoData(q[0].msg), 0, bufLen, q[1..]);
      }
  }

  lemma ChunkConserves(bytes: seq<byte>, chunkStart: nat, bufLen: nat, q: seq<P.StreamPoll>)
    requires chunkStart <= |bytes|
    ensures var o := ReadChunk(bytes, chunkStart, bufLen, q);
            o.data + Remaining(o.state, o.incoming) == bytes[chunkStart..] + Delivered(q)
  {
    var end := chunkStart + Min(bufLen, |bytes| - chunkStart);
    var o := ReadChunk(bytes, chunkStart, bufLen, q);
    var rest := Delivered(q);
    SplitSlice(bytes, chunkStart, end, rest);
    if end < |bytes| {
      assert T.IntoData(o.state.chunk) == bytes;
      assert Remaining(o.state, o.incoming) == bytes[end..] + rest;
    }
  }

  /** Slicing invariance: however the caller sizes its buffers, successive
      reads hand out consecutive pieces of the byte stream, so what they
      wrote followed by what is left is the stream the reader started with. */
  lemma {:induction false} ReadsConserve(st: ReadState, q: seq<P.StreamPoll>, sizes: seq<nat>)
    requires InRange(st)
    ensures var r := ReadMany(st, q, sizes);
            r.data + Remaining(r.state, r.incoming) == Remaining(st, q)
    decreases |sizes|
  {
    if sizes != [] {
      var o := Read(st, q, sizes[0]);
      ReadConserves(st, q, sizes[0]);
      ReadsConserve(o.state, o.incoming, sizes[1..]);
      var r := ReadMany(o.state, o.incoming, sizes[1..]);
      assert o.data + r.data + Remaining(r.state, r.incoming)
          == o.data + (r.data + Remaining(r.state, r.incoming));
    }
  }

  /** A read into a non-empty buffer while a chunk is buffered returns at
      least one byte. */
  lemma ReadyReadMakesProgress(st: ReadState, q: seq<P.StreamPoll>, bufLen: nat)
    requires Settled(st) && st.Ready? && bufLen > 0
    ensures Read(st, q, bufLen).result.Ok?
    ensures Read(st, q, bufLen).result.value > 0
  {
  }

  /** An empty message is not skipped: the read that takes it returns 0,
      which a byte-stream caller reads as end of file, although the
      receive half goes on. */
  lemma EmptyMessageReadsAsZero(m: T.Message, rest: seq<P.StreamPoll>, bufLen: nat)
    requires T.IntoData(m) == []
    ensures Read(PendingChunk, [P.Item(m)] + rest, bufLen)
            == ReadOutcome(PendingChunk, rest, Ok(0), [])
  {
    assert ([P.Item(m)] + rest)[1..] == rest;
  }

  /** A close message is not end of file here: it is read like any other
      message, and the bytes of its reason are handed out as data. */
  lemma CloseReasonIsData(cf: T.CloseFrame, rest: seq<P.StreamPoll>, bufLen: nat)
    ensures var reason := T.IntoData(T.Close(Some(cf)));
            var o := Read(PendingChunk, [P.Item(T.Close(Some(cf)))] + rest, bufLen);
            o.data == reason[..Min(bufLen, |reason|)] && o.result == Ok(Min(bufLen, |reason|))
  {
    assert ([P.Item(T.Close(Some(cf)))] + rest)[1..] == rest;
  }

  /** What a flush does: the value returned and what is left of the send
      half's answers. */
  datatype FlushOutcome = FlushOutcome(result: Result<()>, sinkAnswers: seq<P.SinkPoll>)

  /** The error kind a failed flush reports: a closed connection, whether
      closed by the peer or already closed here, is an aborted connection,
      and every other error is `Other`. */
  function FlushErrorKind(e: T.Error): (k: ErrorKind)
    ensures k == ConnectionAborted <==> e.ConnectionClosed? || e.AlreadyClosed?
    ensures k == ConnectionAborted || k == Other
  {
    match e
    case ConnectionClosed => ConnectionAborted
    case AlreadyClosed => ConnectionAborted
    case _ => Other
  }

  /** `io_flush`: one `poll_complete` of the send half. It reports
      `WouldBlock` exactly when the send half is not ready, and a failing
      send half's error mapped by `FlushErrorKind`. */
  function Flush(q: seq<P.SinkPoll>): (o: FlushOutcome)
    ensures o.sinkAnswers == P.PollSink(q).1
    ensures o.result == Err(WouldBlock) <==> P.PollSink(q).0.SinkNotReady?
    ensures o.result.Ok? <==> P.PollSink(q).0.SinkReady?
    ensures P.PollSink(q).0.SinkFailed? ==> o.result == Err(FlushErrorKind(P.PollSink(q).0.error))
  {
    var (answer, rest) := P.PollSink(q);
    match answer
    case SinkReady => FlushOutcome(Ok(()), rest)
    case SinkNotReady => FlushOutcome(Err(WouldBlock), rest)
    case SinkFailed(e) => FlushOutcome(Err(FlushErrorKind(e)), rest)
  }

  /** `poll_flush`: `WouldBlock` becomes `Pending`; success and every other
      error are passed on as they are. */
  function PollFlushResult(r: Result<()>): (p: F.Poll<Result<()>>)
    ensures p == F.Pending <==> r == Err(WouldBlock)
    ensures p.Ready? ==> p.value == r
  {
    match r
    case Ok(_) => F.Ready(r)
    case Err(k) => if k == WouldBlock then F.Pending else F.Ready(r)
  }

  /** `poll_flush` is pending exactly when the send half is not ready, and
      any error it reports is an aborted connection or `Other`. */
  lemma PollFlushPendingIffNotReady(q: seq<P.SinkPoll>)
    ensures PollFlushResult(Flush(q).result) == F.Pending <==> P.PollSink(q).0.SinkNotReady?
    ensures var p := PollFlushResult(Flush(q).result);
            p.Ready? && p.value.Err? ==> p.value.kind == ConnectionAborted || p.value.kind == Other
  {
  }

  /** What a write does: the value returned, the messages the send half has
      accepted, and what is left of its answers. */
  datatype WriteOutcome = WriteOutcome(result: Result<nat>, sent: seq<T.Message>, sinkAnswers: seq<P.SinkPoll>)

  /** `io_write`: the whole buffer is offered as one binary message. When the
      send half takes it, a flush follows and the write returns the buffer's
      length only if that flush succeeds, and the flush's error otherwise;
      a send half that is not ready gives `WouldBlock` and no flush; a
      failing send half gives `Other`. A write is never reported partial. */
  function Write(buf: seq<byte>, sent: seq<T.Message>, q: seq<P.SinkPoll>): (o: WriteOutcome)
    ensures o.result.Ok? ==> o.result.value == |buf| && o.sent == sent + [T.Binary(buf)]
    ensures o.sent == sent || o.sent == sent + [T.Binary(buf)]
    ensures o.sent == sent <==> !P.PollSink(q).0.SinkReady?
  {
    var (answer, rest) := P.PollSink(q);
    match answer
    case SinkReady =>
      var f := Flush(rest);
      WriteOutcome(if f.result.Ok? then Ok(|buf|) else Err(f.result.kind), sent + [T.Binary(buf)], f.sinkAnswers)
    case SinkNotReady => WriteOutcome(Err(WouldBlock), sent, rest)
    case SinkFailed(_) => WriteOutcome(Err(Other), sent, rest)
  }

  /** The cases of a write, one by one: not ready gives `WouldBlock` without
      a flush, a failing send half gives `Other`, and a taken message gives
      the flush's verdict. */
  lemma WriteCases(buf: seq<byte>, sent: seq<T.Message>, q: seq<P.SinkPoll>)
    ensures var (answer, rest) := P.PollSink(q);
            var o := Write(buf, sent, q);
            && (answer.SinkNotReady? ==> o == WriteOutcome(Err(WouldBlock), sent, rest))
            && (answer.SinkFailed? ==> o == WriteOutcome(Err(Other), sent, rest))
            && (answer.SinkReady? ==>
                  o.sinkAnswers == Flush(rest).sinkAnswers
                  && (o.result.Ok? <==> Flush(rest).result.Ok?)
                  && (o.result.Err? ==> o.result.kind == Flush(rest).result.kind))
  {
  }

  /** As written, a write whose message the send half took but whose flush
      was not ready reports `WouldBlock`; the caller retries, and the same
      bytes go out twice. */
  lemma WriteRetryDuplicatesMessage()
    ensures var buf: seq<byte> := [0x41, 0x0A];
            var script := [P.SinkReady, P.SinkNotReady, P.SinkReady, P.SinkReady];
            var first := Write(buf, [], script);
            var retry := Write(buf, first.sent, first.sinkAnswers);
            && first.result == Err(WouldBlock) && first.sent == [T.Binary(buf)]
            && retry.result == Ok(2) && retry.sent == [T.Binary(buf), T.Binary(buf)]
  {
  }

  /** A write that absorbs a not-ready flush once the message is taken:
      the write then reports the whole buffer. So `WouldBlock` always means
      that nothing was taken, and retrying after it cannot send a message
      twice. A flush that fails after the message was taken is still
      reported as that failure. */
  function WriteIntended(buf: seq<byte>, sent: seq<T.Message>, q: seq<P.SinkPoll>): (o: WriteOutcome)
    ensures o.result.Ok? ==> o.result.value == |buf| && o.sent == sent + [T.Binary(buf)]
    ensures o.result == Err(WouldBlock) ==> o.sent == sent
    ensures o.sent == sent <==> !P.PollSink(q).0.SinkReady?
  {
    var (answer, rest) := P.PollSink(q);
    match answer
    case SinkReady =>
      var f := Flush(rest);
      WriteOutcome(if f.result.Ok? || f.result == Err(WouldBlock) then Ok(|buf|) else Err(f.result.kind),
                   sent + [T.Binary(buf)], f.sinkAnswers)
    case SinkNotReady => WriteOutcome(Err(WouldBlock), sent, rest)
    case SinkFailed(_) => WriteOutcome(Err(Other), sent, rest)
  }

  /** With the answers that made the written version send twice, the
      intended write sends once and reports it. */
  lemma IntendedWriteSendsOnce()
    ensures var buf: seq<byte> := [0x41, 0x0A];
            var o := WriteIntended(buf, [], [P.SinkReady, P.SinkNotReady, P.SinkReady, P.SinkReady]);
            o.result == Ok(2) && o.sent == [T.Binary(buf)]
  {
  }

  /** `async_shutdown` (and `Drop`): close the send half, and panic through
      `expect` if closing fails. */
  function Shutdown(q: seq<P.SinkPoll>): (r: (Outcome<Result<()>>, seq<P.SinkPoll>))
    ensures r.1 == P.PollSink(q).1
    ensures r.0 == Panicked <==> P.PollSink(q).0.SinkFailed?
    ensures r.0 != Panicked ==> r.0 == Returned(Ok(()))
  {
    var (answer, rest) := P.PollSink(q);
    if answer.SinkFailed? then (Panicked, rest) else (Returned(Ok(())), rest)
  }

  /** Tearing down twice is not harmless here: if the send half refuses the
      second close, the second teardown panics. */
  lemma SecondCloseCanPanic()
    ensures var first := Shutdown([P.SinkReady, P.SinkFailed(T.AlreadyClosed)]);
            first.0 == Returned(Ok(())) && Shutdown(first.1).0 == Panicked
  {
  }

  /** `WsStream`: the receive half, the send half and the read cursor. */
  class WsStream {
    /** The answers the receive half's polls will give. */
    var incoming: seq<P.StreamPoll>
    /** The answers the send half will give. */
    var sinkAnswers: seq<P.SinkPoll>
    /** The messages the send half has taken, oldest first. */
    var sent: seq<T.Message>
    var state: ReadState
    const peer: Option<P.SocketAddr>

    ghost predicate Valid()
      reads this
    {
      Settled(state)
    }

    /** `WsStream::new`: split the connection; nothing is buffered yet. */
    constructor (incoming: seq<P.StreamPoll>, sinkAnswers: seq<P.SinkPoll>, peer: Option<P.SocketAddr>)
      ensures Valid()
      ensures state == PendingChunk
      ensures this.incoming == incoming && this.sinkAnswers == sinkAnswers && this.peer == peer
      ensures sent == []
    {
      this.incoming := incoming;
      this.sinkAnswers := sinkAnswers;
      this.peer := peer;
      sent := [];
      state := PendingChunk;
    }

    /** Poll the receive half once. */
    method PollNext() returns (event: P.StreamPoll)
      modifies this`incoming
      ensures (event, incoming) == P.PollStream(old(incoming))
    {
      var polled := P.PollStream(incoming);
      event, incoming := polled.0, polled.1;
    }

    /** The `Ready` arm of `io_read`: copy from the buffered chunk, then
      keep the rest or drop the chunk when it is used up. */
    method ReadBuffered(buf: array<byte>) returns (r: Result<nat>)
      requires state.Ready? && InRange(state)
      modifies this`state, buf
      ensures var o := Read(old(state), incoming, buf.Length);
              && state == o.state && r == o.result
              && buf[..|o.data|] == o.data
              && buf[|o.data|..] == old(buf[|o.data|..])
    {
      var bytes := T.IntoData(state.chunk);
      var chunkStart := state.chunkStart;
      var len := Min(buf.Length, |bytes| - chunkStart);
      CopyFromSlice(buf, bytes[chunkStart..chunkStart + len]);
      var start := chunkStart + len;
      if |bytes| == start {
        state := PendingChunk;
      } else {
        state := Ready(T.Binary(bytes), start);
      }
      r := Ok(len);
    }

    /** `io_read`: loops until it can return, buffering a polled message and
      reading from it in the same call. */
    method IoRead(buf: array<byte>) returns (r: Result<nat>)
      requires Valid()
      modifies this`state, this`incoming, buf
      ensures Valid()
      ensures var o := Read(old(state), old(incoming), buf.Length);
              && state == o.state && incoming == o.incoming && r == o.result
              && buf[..|o.data|] == o.data
              && buf[|o.data|..] == old(buf[|o.data|..])
    {
      while true
        invariant InRange(state)
        invariant buf[..] == old(buf[..])
        invariant Read(state, incoming, buf.Length) == Read(old(state), old(incoming), buf.Length)
        decreases if state.PendingChunk? then 1 else 0
      {
        match state
        case Ready(_, _) =>
          r := ReadBuffered(buf);
          return;
        case PendingChunk =>
          var event := PollNext();
          match event {
            case Item(chunk) =>
              state := Ready(chunk, 0);
            case End =>
              return Ok(0);
            case NotReady =>
              return Err(WouldBlock);
            case Failed(err) =>
              state := Eof;
              if err.Io? {
                return Err(err.kind);
              } else {
                return Ok(0);
              }
          }
        case Eof =>
          return Ok(0);
      }
    }

    /** `start_send` on the send half: the message is taken only when the
      send half is ready. */
    method StartSend(m: T.Message) returns (answer: P.SinkPoll)
      modifies this`sinkAnswers, this`sent
      ensures (answer, sinkAnswers) == P.PollSink(old(sinkAnswers))
      ensures sent == if answer.SinkReady? then old(sent) + [m] else old(sent)
    {
      var polled := P.PollSink(sinkAnswers);
      answer, sinkAnswers := polled.0, polled.1;
      if answer.SinkReady? {
        sent := sent + [m];
      }
    }

    /** `poll_complete` on the send half. */
    method PollComplete() returns (answer: P.SinkPoll)
      modifies this`sinkAnswers
      ensures (answer, sinkAnswers) == P.PollSink(old(sinkAnswers))
    {
      var polled := P.PollSink(sinkAnswers);
      answer, sinkAnswers := polled.0, polled.1;
    }

    /** `close` on the send half. */
    method CloseSink() returns (answer: P.SinkPoll)
      modifies this`sinkAnswers
      ensures (answer, sinkAnswers) == P.PollSink(old(sinkAnswers))
    {
      var polled := P.PollSink(sinkAnswers);
      answer, sinkAnswers := polled.0, polled.1;
    }

    /** `io_flush`. */
    method IoFlush() returns (r: Result<()>)
      modifies this`sinkAnswers
      ensures r == Flush(old(sinkAnswers)).result
      ensures sinkAnswers == Flush(old(sinkAnswers)).sinkAnswers
    {
      var answer := PollComplete();
      match answer
      case SinkReady => r := Ok(());
      case SinkNotReady => r := Err(WouldBlock);
      case SinkFailed(e) =>
        match e {
          case ConnectionClosed => r := Err(ConnectionAborted);
          case AlreadyClosed => r := Err(ConnectionAborted);
          case _ => r := Err(Other);
        }
    }

    /** `io_write`, as written: send the buffer as one binary message, then
      flush. */
    method IoWrite(buf: seq<byte>) returns (r: Result<nat>)
      modifies this`sinkAnswers, this`sent
      ensures var o := Write(buf, old(sent), old(sinkAnswers));
              r == o.result && sent == o.sent && sinkAnswers == o.sinkAnswers
    {
      var len := |buf|;
      var answer := StartSend(T.Binary(buf));
      match answer
      case SinkReady =>
        var flushed := IoFlush();
        match flushed {
          case Ok(_) => return Ok(len);
          case Err(k) => return Err(k);
        }
      case SinkNotReady =>
        return Err(WouldBlock);
      case SinkFailed(_) =>
        return Err(Other);
    }

    /** `io_write` with a not-ready flush absorbed once the message is taken. */
    method IoWriteIntended(buf: seq<byte>) returns (r: Result<nat>)
      modifies this`sinkAnswers, this`sent
      ensures var o := WriteIntended(buf, old(sent), old(sinkAnswers));
              r == o.result && sent == o.sent && sinkAnswers == o.sinkAnswers
    {
      var len := |buf|;
      var answer := StartSend(T.Binary(buf));
      match answer
      case SinkReady =>
        var flushed := IoFlush();
        if flushed.Ok? || flushed == Err(WouldBlock) {
          return Ok(len);
        }
        return Err(flushed.kind);
      case SinkNotReady =>
        return Err(WouldBlock);
      case SinkFailed(_) =>
        return Err(Other);
    }

    /** `poll_flush`. */
    method PollFlush() returns (p: F.Poll<Result<()>>)
      modifies this`sinkAnswers
      ensures p == PollFlushResult(Flush(old(sinkAnswers)).result)
      ensures sinkAnswers == Flush(old(sinkAnswers)).sinkAnswers
    {
      var r := IoFlush();
      if r.Err? && r.kind == WouldBlock {
        p := F.Pending;
      } else {
        p := F.Ready(r);
      }
    }

    /** `async_shutdown`. */
    method AsyncShutdown() returns (r: Outcome<Result<()>>)
      modifies this`sinkAnswers
      ensures (r, sinkAnswers) == Shutdown(old(sinkAnswers))
    {
      var answer := CloseSink();
      if answer.SinkFailed? {
        return Panicked;
      }
      return Returned(Ok(()));
    }

    /** `poll_close`: shut down, and report the close as done. */
    method PollClose() returns (r: Outcome<F.Poll<Result<()>>>)
      modifies this`sinkAnswers
      ensures r == (if Shutdown(old(sinkAnswers)).0 == Panicked then Panicked else Returned(F.Ready(Ok(()))))
      ensures sinkAnswers == Shutdown(old(sinkAnswers)).1
    {
      var shut := AsyncShutdown();
      if shut == Panicked {
        return Panicked;
      }
      return Returned(F.Ready(Ok(())));
    }

    /** `Drop`: close the send half, panicking if that fails. */
    method Drop() returns (r: Outcome<()>)
      modifies this`sinkAnswers
      ensures r == Panicked <==> Shutdown(old(sinkAnswers)).0 == Panicked
      ensures sinkAnswers == Shutdown(old(sinkAnswers)).1
    {
      var answer := CloseSink();
      if answer.SinkFailed? {
        return Panicked;
      }
      return Returned(());
    }
  }
}
