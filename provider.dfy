/** The transport provider as the adapter sees it: the receive half is the
    sequence of answers its polls will give, the send half the sequence of
    answers its `start_send`, `poll_complete` and `close` calls will give.
    What produces those answers (sockets, the WebSocket protocol, the
    scheduler) is outside the model. */
module Provider {
  import opened Common
  import T = Tungstenite

  /** The remote peer's address, when the socket layer could tell it. */
  datatype SocketAddr = SocketAddr(ip: seq<byte>, port: u16)

  /** One answer of the receive half's `poll`: a message, the end of the
      stream, not ready yet, or an error. */
  datatype StreamPoll =
    | Item(msg: T.Message)
    | End
    | NotReady
    | Failed(error: T.Error)

  /** One answer of the send half: ready (the message is taken, or the
      flush or close is done), not ready yet, or an error. */
  datatype SinkPoll =
    | SinkReady
    | SinkNotReady
    | SinkFailed(error: T.Error)

  /** Poll the receive half once. It answers not ready when it has nothing
      scripted, and once it has ended it stays ended. */
  function PollStream(q: seq<StreamPoll>): (r: (StreamPoll, seq<StreamPoll>))
    ensures q == [] ==> r == (NotReady, q)
    ensures q != [] ==> r.0 == q[0]
    ensures q != [] && !q[0].End? ==> r.1 == q[1..]
    ensures r.0.End? ==> r.1 == q
  {
    if q == [] then (NotReady, q)
    else if q[0].End? then (End, q)
    else (q[0], q[1..])
  }

  /** Ask the send half once; with nothing scripted it applies back-pressure. */
  function PollSink(q: seq<SinkPoll>): (r: (SinkPoll, seq<SinkPoll>))
    ensures q == [] ==> r == (SinkNotReady, q)
    ensures q != [] ==> r == (q[0], q[1..])
  {
    if q == [] then (SinkNotReady, q) else (q[0], q[1..])
  }
}
