# ws_stream: the message-to-byte-stream adapter, in Dafny

This project models the core of `ws_stream`, a Rust library that lets a
WebSocket connection be used as an ordinary duplex byte stream.

- **The adapter** (`WsStream` in `src/ws_stream.rs`, file `ws_stream.dfy`).
  Its read side is a state machine over the cursor `ReadState =
  Ready{chunk, chunk_start} | PendingChunk | Eof`. It slices incoming
  WebSocket messages into reads of whatever size the caller asks for and
  copies bytes into the caller's buffer. Its write side sends each buffer
  as one binary message and then flushes. Its flush and `poll_flush` map
  the backend's errors to `std::io::ErrorKind`s. Its shutdown,
  `poll_close` and `Drop` panic (`expect`) when closing the send half
  fails.
- **The older adapter** (`Connection` in `src/ws_stream.bak.rs`, file
  `ws_stream_bak.dfy`). It buffers the bytes of a message, treats a close
  message as end of file, has no terminal state, does not flush after a
  write, and reports a connection closed by the peer as `NotConnected`.
  `versions.dfy` proves how the two versions relate.
- **The normalized message** (`src/message.rs`, file `message.dfy`). A
  message of either backend (tungstenite or warp) has a kind. The kinds are
  the data frames of RFC 6455, section 5.6, and its control frames,
  section 5.5. A message also has a byte view and a close frame, and it
  converts to and from each backend's type.

The backend is modelled as data, in `provider.dfy`:
- The receive half is the sequence of answers its polls will give: a
  message, the end, not ready, or an error.
- The send half is the sequence of answers to `start_send`,
  `poll_complete` and `close`: ready, not ready, or an error.
- The messages the send half has taken are kept in the field `sent`.
- An empty sequence answers "not ready". A receive half that has ended
  stays ended.

Each adapter is a class whose fields are these halves and the cursor. Each
method is proved against a function that specifies it (`Read`, `Write`,
`Flush`, `Shutdown`). The properties are proved about those functions.
The two main ones:
- `ReadsConserve` (slicing invariance). Any sequence of reads, of any
  buffer sizes, returns consecutive pieces of the byte stream the receive
  half delivers. Nothing is lost, repeated or reordered.
- Write atomicity. A write is never reported as partial.

`utf8.dfy` gives the bytes of a Rust string (UTF-8, RFC 3629).
`tungstenite.dfy` and `warp.dfy` give the two backends' message types as
plain values.

## Model

| member | source | states |
|---|---|---|
| `Common.CopyFromSlice` | src/ws_stream.rs:142 | the first `len` cells of the buffer receive the slice; the cells after them are untouched |
| `Utf8.Encode` | src/message.rs:100 | a text's bytes number between one and four per character; an ASCII text is its own bytes |
| `WsMessage.Kind` | src/message.rs:52-87 | the kind of a warp message is its variant, one to one, pong included although warp has no pong test |
| `Tungstenite.IntoDataPayload` | src/ws_stream.rs:139 | `chunk.into()` hands out a binary, ping or pong payload unchanged, one to four bytes per character of a text or close reason, and nothing for a close without frame |
| `WsMessage.KindOfTungstenite` | src/message.rs:56-65 | the kind of a tungstenite message matches its variant one to one (both directions) |
| `WsMessage.KindOfWarp` | src/message.rs:68-85 | a warp message's kind follows the text, binary, ping, close tests in order; it is Pong exactly when none holds |
| `WsMessage.AsBytes` | src/message.rs:92-113 | the byte view of a tungstenite message is tungstenite's own payload bytes; for any close message it is exactly its close frame's reason, or empty without a frame |
| `WsMessage.CloseFrame` | src/message.rs:118-133 | a close frame exists iff the message is a tungstenite close carrying one; then the kind is Close |
| `WsMessage.FromTungstenite` | src/message.rs:138-144 | the wrapped tungstenite message shows tungstenite's own payload bytes, and its close frame exactly when it is a close |
| `WsMessage.FromWarp` | src/message.rs:148-154 | the wrapped warp message shows warp's own byte view, never a close frame, and is a close iff warp's close test holds |
| `WsMessage.ToTungstenite` | src/message.rs:158-190 | conversion to tungstenite keeps kind and bytes; the identity on tungstenite messages; a warp close becomes a close without frame; warp ping and pong are excluded (`unreachable!`) |
| `WsMessage.ToWarp` | src/message.rs:194-221 | conversion to warp keeps kind and bytes; the identity on warp messages; tungstenite close (`unimplemented!`), ping and pong (`unreachable!`) are excluded |
| `WsMessage.TungsteniteRoundTrip` | src/message.rs:138-168 | tungstenite to `Message` and back is the identity |
| `WsMessage.WarpRoundTrip` | src/message.rs:148-200 | warp to `Message` and back is the identity |
| `WsMessage.CrossBackendRoundTrips` | src/message.rs:170-207 | a text or binary message crosses to the other backend and back unchanged |
| `WsMessage.WarpCloseIsOneWay` | src/message.rs:177-211 | a warp close becomes `Close(None)`, which cannot be converted back to warp |
| `WsStream.Read` | src/ws_stream.rs:122-210 | a read writes at most the buffer's length, returns the count it wrote, writes nothing when it fails, and leaves the cursor with bytes left or without a chunk |
| `WsStream.ReadMany` | src/ws_stream.rs:144-154 | the cursor's offset stays within its chunk over any number of reads |
| `WsStream.ReadyRead` | src/ws_stream.rs:135-157 | in Ready: copies `min(buf.len, chunk.len - chunk_start)` bytes from the offset and returns that count; the offset advances by it; the state becomes PendingChunk iff the offset reaches the end, otherwise it stays Ready with the same bytes; no poll |
| `WsStream.PendingTakesMessage` | src/ws_stream.rs:167-171 | a polled message becomes `Ready{chunk, 0}` and the same call reads from it |
| `WsStream.PendingEndOrNotReady` | src/ws_stream.rs:175-188 | stream end gives `Ok(0)` and NotReady gives `WouldBlock`; neither changes the state or the buffer |
| `WsStream.StreamErrorEndsReading` | src/ws_stream.rs:190-203 | a stream error moves to Eof; an I/O error is returned, any other gives `Ok(0)` |
| `WsStream.EofIsFinal` | src/ws_stream.rs:194-207 | once in Eof, every later read returns `Ok(0)`, writes nothing, keeps Eof and polls nothing, whatever the buffer sizes |
| `WsStream.ReadConserves` | src/ws_stream.rs:139-171 | one read's bytes followed by what is left to read equal what was left before it |
| `WsStream.ReadsConserve` | src/ws_stream.rs:126-171 | slicing invariance: reads of any sizes return consecutive slices of the delivered byte stream |
| `WsStream.ReadyReadMakesProgress` | src/ws_stream.rs:140-156 | a read into a non-empty buffer with a chunk buffered returns at least one byte |
| `WsStream.EmptyMessageReadsAsZero` | src/ws_stream.rs:139-156 | any message with no bytes (empty binary or text, close without frame, ...) makes the read return `Ok(0)` while the stream goes on |
| `WsStream.CloseReasonIsData` | src/ws_stream.rs:163-171 | a close message is read like any other message: its reason's bytes are returned as data |
| `WsStream.FlushErrorKind` | src/ws_stream.rs:255-279 | ConnectionClosed and AlreadyClosed map to ConnectionAborted (iff); everything else maps to Other |
| `WsStream.Flush` | src/ws_stream.rs:246-281 | a flush is Ok iff the sink is ready and WouldBlock iff it is not ready; a failing sink's error is mapped by `FlushErrorKind`; it takes one answer of the send half |
| `WsStream.PollFlushResult` | src/ws_stream.rs:394-409 | `poll_flush` is Pending iff `io_flush` gave WouldBlock; otherwise it passes the result through |
| `WsStream.PollFlushPendingIffNotReady` | src/ws_stream.rs:394-409 | `poll_flush` is Pending iff the send half is not ready; its errors are only ConnectionAborted or Other |
| `WsStream.Write` | src/ws_stream.rs:219-243 | a write returns the whole length or an error, never a partial count; `Ok` means the buffer went out as one binary message; a message is taken iff the sink was ready |
| `WsStream.WriteCases` | src/ws_stream.rs:227-242 | sink not ready gives WouldBlock and no flush; sink error gives Other; sink ready gives the flush's verdict |
| `WsStream.WriteRetryDuplicatesMessage` | src/ws_stream.rs:229-236 | a taken message whose flush is not ready is reported as WouldBlock, and the retry sends it a second time |
| `WsStream.WriteIntended` | src/ws_stream.rs:229-236 | corrected write: WouldBlock always means nothing was taken; Ok means the whole buffer was taken as one message |
| `WsStream.IntendedWriteSendsOnce` | src/ws_stream.rs:229-236 | with the same answers, the corrected write sends once and reports the full length |
| `WsStream.Shutdown` | src/ws_stream.rs:287-297 | a shutdown closes the send half; it panics (`expect`) iff the close fails, and otherwise returns `Ok` |
| `WsStream.SecondCloseCanPanic` | src/ws_stream.rs:294-310 | a teardown after a close panics if the send half refuses the second close |
| `WsStream.WsStream.constructor` | src/ws_stream.rs:112-117 | a new adapter starts in PendingChunk with the given halves and peer, having sent nothing |
| `WsStream.WsStream.PollNext` | src/ws_stream.rs:163 | polling takes the receive half's next answer |
| `WsStream.WsStream.ReadBuffered` | src/ws_stream.rs:135-157 | the Ready arm: new cursor and result are those of `Read`; the buffer's front holds the bytes read and the rest is untouched |
| `WsStream.WsStream.IoRead` | src/ws_stream.rs:122-210 | the new cursor, receive half and result are those of `Read`; the buffer's front holds the bytes read and the rest is untouched |
| `WsStream.WsStream.StartSend` | src/ws_stream.rs:227 | the message is added to `sent` iff the send half is ready |
| `WsStream.WsStream.PollComplete` | src/ws_stream.rs:250 | takes the send half's next answer |
| `WsStream.WsStream.CloseSink` | src/ws_stream.rs:294 | takes the send half's next answer |
| `WsStream.WsStream.IoFlush` | src/ws_stream.rs:246-281 | result and new send half are those of `Flush` |
| `WsStream.WsStream.IoWrite` | src/ws_stream.rs:219-243 | result, `sent` and the send half are those of `Write` |
| `WsStream.WsStream.IoWriteIntended` | src/ws_stream.rs:219-243 | result, `sent` and the send half are those of `WriteIntended` |
| `WsStream.WsStream.PollFlush` | src/ws_stream.rs:394-409 | result is `PollFlushResult` of the flush |
| `WsStream.WsStream.AsyncShutdown` | src/ws_stream.rs:287-297 | result and new send half are those of `Shutdown` |
| `WsStream.WsStream.PollClose` | src/ws_stream.rs:412-418 | `Ready(Ok)` unless the shutdown panicked |
| `WsStream.WsStream.Drop` | src/ws_stream.rs:301-311 | closes the send half; panics iff the close fails |
| `WsStreamBak.Read` | src/ws_stream.bak.rs:113-208 | a read writes at most the buffer's length, returns the count it wrote, writes nothing when it fails, and leaves the cursor with bytes left or without a chunk |
| `WsStreamBak.ReadMany` | src/ws_stream.bak.rs:129-137 | the offset stays within the chunk over any number of reads |
| `WsStreamBak.ReadyRead` | src/ws_stream.bak.rs:119-141 | `end = min(chunk_start + buf.len, chunk.len)`; a read copies `chunk[chunk_start..end]` and returns `end - chunk_start` (= `min(buf.len, bytes left)`); PendingChunk iff `end == chunk.len`, otherwise `chunk_start` moves to `end` |
| `WsStreamBak.CloseReadsAsEof` | src/ws_stream.bak.rs:157-166 | a close message, with or without a frame, gives `Ok(0)`; nothing is buffered and the state stays PendingChunk |
| `WsStreamBak.PendingTakesMessage` | src/ws_stream.bak.rs:168-171 | any other message becomes `Ready{bytes, 0}` and the same call reads from it |
| `WsStreamBak.EmptyMessageReadsAsZero` | src/ws_stream.bak.rs:168-171 | a non-close message with no bytes makes the read return `Ok(0)` and leaves PendingChunk while the stream goes on |
| `WsStreamBak.PendingEndOrNotReady` | src/ws_stream.bak.rs:176-189 | stream end gives `Ok(0)` and NotReady gives `WouldBlock`; neither changes the state or the buffer |
| `WsStreamBak.StreamErrorIsNotFinal` | src/ws_stream.bak.rs:191-204 | an I/O error is returned and any other error gives `Ok(0)`; the next read polls again and gets the next message |
| `WsStreamBak.ReadConserves` | src/ws_stream.bak.rs:123-171 | one read's bytes followed by what is left to read equal what was left before it |
| `WsStreamBak.ReadsConserve` | src/ws_stream.bak.rs:117-171 | slicing invariance for the older adapter, skipping close messages and errors |
| `WsStreamBak.ErrorKindOf` | src/ws_stream.bak.rs:225-250 | ConnectionClosed maps to NotConnected (iff), AlreadyClosed to ConnectionAborted (iff), everything else to Other |
| `WsStreamBak.Write` | src/ws_stream.bak.rs:214-253 | a write is Ok iff its buffer was taken as one binary message; then it returns the full length; WouldBlock iff the sink is not ready; a failing sink's error is mapped by `ErrorKindOf`; there is no flush |
| `WsStreamBak.WriteAfterCloseIsNotConnected` | src/ws_stream.bak.rs:231-235 | a send half reporting ConnectionClosed makes a write fail with NotConnected |
| `WsStreamBak.Flush` | src/ws_stream.bak.rs:257-294 | a flush is Ok iff the sink is ready and WouldBlock iff it is not ready; errors use the same mapping as a write |
| `WsStreamBak.PollFlushResult` | src/ws_stream.bak.rs:413-428 | `poll_flush` is Pending iff `io_flush` gave WouldBlock; otherwise it passes the result through |
| `WsStreamBak.Shutdown` | src/ws_stream.bak.rs:300-318 | shutdown always returns `Ok`; a close error is only logged |
| `WsStreamBak.TeardownTwiceSucceeds` | src/ws_stream.bak.rs:298-330 | a shutdown followed by a second one (as `poll_close` then `Drop` do) returns `Ok` both times, whatever the send half answers, and takes two answers |
| `WsStreamBak.Connection.constructor` | src/ws_stream.bak.rs:103-108 | a new connection starts in PendingChunk with the given halves and peer, having sent nothing |
| `WsStreamBak.Connection.PollNext` | src/ws_stream.bak.rs:148 | polling takes the receive half's next answer |
| `WsStreamBak.Connection.IoRead` | src/ws_stream.bak.rs:113-208 | the new cursor, receive half and result are those of `Read`; the buffer's front holds the bytes read and the rest is untouched |
| `WsStreamBak.Connection.StartSend` | src/ws_stream.bak.rs:220 | the message is added to `sent` iff the send half is ready |
| `WsStreamBak.Connection.IoWrite` | src/ws_stream.bak.rs:214-253 | result, `sent` and the send half are those of `Write` |
| `WsStreamBak.Connection.IoFlush` | src/ws_stream.bak.rs:257-294 | result and new send half are those of `Flush` |
| `WsStreamBak.Connection.PollFlush` | src/ws_stream.bak.rs:413-428 | result is `PollFlushResult` of the flush |
| `WsStreamBak.Connection.AsyncShutdown` | src/ws_stream.bak.rs:300-318 | always `Ok`; the send half is asked to close |
| `WsStreamBak.Connection.PollClose` | src/ws_stream.bak.rs:431-437 | always `Ready(Ok)`: its `expect` never fires |
| `WsStreamBak.Connection.Drop` | src/ws_stream.bak.rs:323-331 | shuts down and discards the result |
| `AdapterVersions.ReadsAgree` | src/ws_stream.bak.rs:113-208 | on a receive half with no close message and no error, one read of either adapter returns the same value and bytes, with corresponding cursors |
| `AdapterVersions.ReadManyAgree` | src/ws_stream.rs:122-210 | on such a receive half, both adapters give the same byte stream for reads of any sizes |
| `AdapterVersions.ErrorMappingsDiffer` | src/ws_stream.bak.rs:225-250 | the two error mappings agree except on ConnectionClosed: NotConnected before, ConnectionAborted now |
| `AdapterVersions.WriteErrorsDiffer` | src/ws_stream.rs:219-243 | a failing `start_send` is `Other` now for every backend error and `ErrorKindOf(e)` in the older write (src/ws_stream.bak.rs:225-250); the current write gives the flush's mapped error after a taken message, and never `NotConnected` |
| `AdapterVersions.WritesAgreeWhenFlushed` | src/ws_stream.rs:219-243 | a write the current adapter completes is one the older adapter completes with the same message and count |

## Findings

| source | as written | input that shows it | evidently intended | confidence | as-written member | corrected member |
|---|---|---|---|---|---|---|
| src/ws_stream.rs:229-236 | after the send half has taken the message, a flush that is not ready makes `io_write` return `WouldBlock` | send-half answers ready, not ready, ready, ready; write `[0x41, 0x0A]`, then retry it as `WouldBlock` asks | a not-ready flush is absorbed once the message is taken, and the write returns the full length; so `WouldBlock` means nothing was sent, and a retry cannot send the message twice | medium, not executed | `WsStream.WriteRetryDuplicatesMessage` | `WsStream.WriteIntended` |

## Behaviour worth knowing

- The older adapter reads a close message as end of file: its `io_read`
  checks for a close and returns `Ok(0)` (src/ws_stream.bak.rs:154-166,
  `WsStreamBak.CloseReadsAsEof`). The current adapter does not single out
  close messages: their reason's bytes are read as data
  (`WsStream.CloseReasonIsData`). A close without a frame has no bytes, so
  it reads as `Ok(0)`.
- Neither adapter skips a message without bytes: the read that takes it
  returns `Ok(0)` (`WsStream.EmptyMessageReadsAsZero`,
  `WsStreamBak.EmptyMessageReadsAsZero`), which a byte-stream
  caller takes as end of file although more messages may follow.
- The current adapter calls `expect` on the close in `async_shutdown` and
  in `Drop`, with the comment that this cannot fail normally
  (src/ws_stream.rs:291-294, 307-310). A send half that refuses a second
  close makes the second teardown panic (`WsStream.SecondCloseCanPanic`).
  The older adapter only logs a failed close, so tearing down twice
  succeeds (`WsStreamBak.TeardownTwiceSucceeds`).
- A `start_send` that reports the connection closed makes the older
  adapter's write fail with `NotConnected` (src/ws_stream.bak.rs:231-235,
  `WsStreamBak.WriteAfterCloseIsNotConnected`). The current write reports
  every `start_send` error as `Other` (src/ws_stream.rs:241). It reports
  `ConnectionAborted` only when the flush after a taken message fails, and
  never `NotConnected` (`AdapterVersions.WriteErrorsDiffer`). On the flush
  path the two mappings differ only on a connection closed by the peer
  (`AdapterVersions.ErrorMappingsDiffer`). The `NotConnected` expectation
  in tests/close.rs:59 belongs to a disabled test (tests/close.rs:21) that
  is written against a later, one-argument `WsStream::new`.
- `io_write` returns the flush's `WouldBlock` after the send half has taken
  the message. A caller retries on `WouldBlock` (src/ws_stream.rs:336-340
  forward `std::io::Write` to it), so the retry sends the message twice.
  This is the row under "## Findings". The corrected write only absorbs a
  not-ready flush: a flush that fails after the message was taken is still
  reported as an error, although the message went out.

## Left out

- TCP `listen`, `connect`, `connect_ssl`, address parsing, URL building and
  `peer_addr`. These are socket I/O and handshakes done by foreign
  libraries. The peer address is only kept as a constant field.
- `src/providers/*`, `src/accept.rs`, `src/handshake.rs`, `src/incoming.rs`
  and `src/error.rs` (`WsErr`, `WsErrKind`). They delegate to foreign
  futures and sinks. Here they are reduced to the scripted answers of the
  receive and send halves.
- The trait impls that only forward to `io_read` and `io_write` (`io::Read`,
  `io::Write`, `AsyncRead`, `poll_write`, and the futures 0.1/0.3 compat
  layers). Logging (`trace!`, `error!`) is left out too.
- Task wake-ups, `Pin`, executors and concurrency. A "not ready" answer is
  a value of the model; nothing waits.
- The WebSocket wire protocol (framing, masking, automatic pong replies).
  It belongs to tungstenite and warp. The backends' message types are
  plain datatypes, and warp's close message carries no frame.
- `tungstenite::Error`: its variants other than `ConnectionClosed`,
  `AlreadyClosed` and `Io` are represented by a few stand-ins. The code
  treats all of them alike.
- The `empty: [u8; 0]` field of `Message`. It only gives `as_bytes` an
  empty slice to return, which the model returns directly.
- The examples, the chat format and the tests.
