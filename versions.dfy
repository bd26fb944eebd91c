/** How the two adapters relate: on a receive half that sends no close
    message and reports no error they read alike, and they map the send
    half's errors alike except for a connection closed by the peer. */
module AdapterVersions {
  import opened Common
  import Io
  import T = Tungstenite
  import P = Provider
  import Current = WsStream
  import Older = WsStreamBak

  /** The older cursor that holds what the current one holds: the bytes of
      the buffered message, at the same offset. */
  function OlderState(st: Current.ReadState): (r: Older.ReadState)
    requires !st.Eof?
    ensures Current.InRange(st) ==> Older.InRange(r)
  {
    match st
    case Ready(chunk, chunkStart) => Older.Ready(T.IntoData(chunk), chunkStart)
    case PendingChunk => Older.PendingChunk
  }

  /** A receive half that sends no close message and reports no error. */
  predicate Plain(q: seq<P.StreamPoll>) {
    forall i :: 0 <= i < |q| ==> !q[i].Failed? && !(q[i].Item? && q[i].msg.Close?)
  }

  /** On such a receive half one read of either adapter returns the same
      value, writes the same bytes, leaves the same answers and corresponding
      cursors. */
  lemma ReadsAgree(st: Current.ReadState, q: seq<P.StreamPoll>, bufLen: nat)
    requires Current.InRange(st) && !st.Eof? && Plain(q)
    ensures var now := Current.Read(st, q, bufLen);
            var before := Older.Read(OlderState(st), q, bufLen);
            && !now.state.Eof?
            && before == Older.ReadOutcome(OlderState(now.state), now.incoming, now.result, now.data)
  {
    if st.PendingChunk? && q != [] && q[0].Item? {
      assert !q[0].msg.Close?;
    }
  }

  /** The same holds for any number of reads, whatever their sizes: the two
      adapters turn such a receive half into the same byte stream. */
  lemma {:induction false} ReadManyAgree(st: Current.ReadState, q: seq<P.StreamPoll>, sizes: seq<nat>)
    requires Current.InRange(st) && !st.Eof? && Plain(q)
    ensures var now := Current.ReadMany(st, q, sizes);
            var before := Older.ReadMany(OlderState(st), q, sizes);
            && !now.state.Eof?
            && before == Older.Reads(OlderState(now.state), now.incoming, now.data)
    decreases |sizes|
  {
    if sizes != [] {
      var o := Current.Read(st, q, sizes[0]);
      ReadsAgree(st, q, sizes[0]);
      assert o.incoming == q || o.incoming == q[1..];
      assert Plain(o.incoming);
      ReadManyAgree(o.state, o.incoming, sizes[1..]);
    }
  }

  /** The flush errors of the current adapter and the write and flush errors
      of the older one agree on every backend error but one: a connection
      closed by the peer is `ConnectionAborted` now and was `NotConnected`. */
  lemma ErrorMappingsDiffer(e: T.Error)
    ensures Current.FlushErrorKind(e) == Older.ErrorKindOf(e) <==> !e.ConnectionClosed?
    ensures e.ConnectionClosed? ==>
              Current.FlushErrorKind(e) == Io.ConnectionAborted && Older.ErrorKindOf(e) == Io.NotConnected
  {
  }

  /** On the write path the two versions differ more than on the flush
      path: a failing `start_send` is always `Other` now, whatever the
      backend error, and mapped by `ErrorKindOf` before; the current write
      reports `ConnectionAborted` only when the flush after a taken message
      fails, and never reports `NotConnected`. */
  lemma WriteErrorsDiffer(buf: seq<byte>, sent: seq<T.Message>, e: T.Error, rest: seq<P.SinkPoll>, q: seq<P.SinkPoll>)
    ensures Current.Write(buf, sent, [P.SinkFailed(e)] + rest).result == Io.Err(Io.Other)
    ensures Older.Write(buf, sent, [P.SinkFailed(e)] + rest).result == Io.Err(Older.ErrorKindOf(e))
    ensures Current.Write(buf, sent, [P.SinkReady, P.SinkFailed(e)] + rest).result
            == Io.Err(Current.FlushErrorKind(e))
    ensures Current.Write(buf, sent, q).result != Io.Err(Io.NotConnected)
  {
    assert ([P.SinkReady, P.SinkFailed(e)] + rest)[1..] == [P.SinkFailed(e)] + rest;
  }

  /** A write the current adapter completes is one the older adapter
      completes too, with the same message taken and the same count; the
      current one also spends a flush. */
  lemma WritesAgreeWhenFlushed(buf: seq<byte>, sent: seq<T.Message>, q: seq<P.SinkPoll>)
    requires Current.Write(buf, sent, q).result.Ok?
    ensures var now := Current.Write(buf, sent, q);
            var before := Older.Write(buf, sent, q);
            && before.result == now.result && before.sent == now.sent
            && now.sinkAnswers == P.PollSink(before.sinkAnswers).1
  {
  }
}
