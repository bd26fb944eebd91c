/** The normalized WebSocket message (src/message.rs): one type over the
    message types of the two backends, with its kind, a byte view and the
    conversions to and from each backend's type. */
module WsMessage {
  import opened Common
  import Utf8
  import T = Tungstenite
  import W = Warp

  /** Which backend produced the message. */
  datatype InnerMessage = Tungstenite(tung: T.Message) | Warp(warp: W.Message)

  datatype Message = Message(inner: InnerMessage)

  /** The opcode classes of RFC 6455: the data frames of section 5.6 and
      the control frames of section 5.5. */
  datatype MessageKind = Text | Binary | Ping | Pong | Close

  /** `Message::kind`. A warp message is tested for text, binary, ping and
      close in that order; warp has no pong test, so whatever is left is a pong. */
  function Kind(m: Message): (k: MessageKind)
    ensures m.inner.Warp? ==>
              && (k == Text <==> m.inner.warp.Text?)
              && (k == Binary <==> m.inner.warp.Binary?)
              && (k == Ping <==> m.inner.warp.Ping?)
              && (k == Pong <==> m.inner.warp.Pong?)
              && (k == Close <==> m.inner.warp.Close?)
  {
    match m.inner
    case Tungstenite(t) =>
      (match t
       case Text(_) => Text
       case Binary(_) => Binary
       case Ping(_) => Ping
       case Pong(_) => Pong
       case Close(_) => Close)
    case Warp(w) =>
      if w.IsText() then Text
      else if w.IsBinary() then Binary
      else if w.IsPing() then Ping
      else if w.IsClose() then Close
      else Pong
  }

  /** `Message::as_bytes`. Whatever the kind, the view is defined; a close
      message shows exactly the reason of its close frame, or nothing. */
  function AsBytes(m: Message): (b: seq<byte>)
    ensures m.inner.Tungstenite? ==> b == T.IntoData(m.inner.tung)
    ensures Kind(m) == Close ==>
              b == match CloseFrame(m) case Some(cf) => Utf8.Encode(cf.reason) case None => []
  {
    match m.inner
    case Tungstenite(t) =>
      (match t
       case Text(s) => Utf8.Encode(s)
       case Binary(d) => d
       case Ping(d) => d
       case Pong(d) => d
       case Close(None) => []
       case Close(Some(cf)) => Utf8.Encode(cf.reason))
    case Warp(w) => w.AsBytes()
  }

  /** `Message::close_frame`: only a tungstenite close message that carries
      a frame has one; warp swallows close frames. */
  function CloseFrame(m: Message): (r: Option<T.CloseFrame>)
    ensures r.Some? <==> m.inner.Tungstenite? && m.inner.tung.Close? && m.inner.tung.frame.Some?
    ensures r.Some? ==> Kind(m) == Close && r == m.inner.tung.frame
  {
    match m.inner
    case Tungstenite(Close(Some(cf))) => Some(cf)
    case Tungstenite(_) => None
    case Warp(_) => None
  }

  /** `impl From<TungMessage> for Message`: the wrapped message shows the
      payload and the close frame of the tungstenite message. */
  function FromTungstenite(t: T.Message): (m: Message)
    ensures AsBytes(m) == T.IntoData(t)
    ensures CloseFrame(m) == (if t.Close? then t.frame else None)
  {
    Message(Tungstenite(t))
  }

  /** `impl From<WarpMessage> for Message`: the wrapped message shows warp's
      own byte view, and never a close frame. */
  function FromWarp(w: W.Message): (m: Message)
    ensures AsBytes(m) == w.AsBytes()
    ensures CloseFrame(m) == None
    ensures Kind(m) == Close <==> w.IsClose()
  {
    Message(Warp(w))
  }

  /** The messages `impl From<Message> for TungMessage` accepts: a warp ping
      or pong is `unreachable!` there. */
  predicate ConvertsToTungstenite(m: Message) {
    m.inner.Warp? ==> Kind(m) != Ping && Kind(m) != Pong
  }

  /** `impl From<Message> for TungMessage`: a tungstenite message is handed
      back as it is; a warp message is rebuilt with the same kind and bytes,
      a warp close becoming a close without frame. */
  function ToTungstenite(m: Message): (t: T.Message)
    requires ConvertsToTungstenite(m)
    ensures Kind(FromTungstenite(t)) == Kind(m)
    ensures AsBytes(FromTungstenite(t)) == AsBytes(m)
    ensures m.inner.Tungstenite? ==> t == m.inner.tung
    ensures m.inner.Warp? && Kind(m) == Close ==> t == T.Close(None)
  {
    match m.inner
    case Tungstenite(inner) => inner
    case Warp(inner) =>
      match Kind(m)
      case Text => T.Text(inner.ToStr().value)
      case Binary => T.Binary(inner.AsBytes())
      case Close => T.Close(None)
  }

  /** The messages `impl From<Message> for WarpMessage` accepts: a
      tungstenite close is `unimplemented!` there and a ping or pong
      `unreachable!`. */
  predicate ConvertsToWarp(m: Message) {
    m.inner.Tungstenite? ==> m.inner.tung.Text? || m.inner.tung.Binary?
  }

  /** `impl From<Message> for WarpMessage`: a warp message is handed back as
      it is; a tungstenite text or binary message keeps its kind and bytes. */
  function ToWarp(m: Message): (w: W.Message)
    requires ConvertsToWarp(m)
    ensures Kind(FromWarp(w)) == Kind(m)
    ensures AsBytes(FromWarp(w)) == AsBytes(m)
    ensures m.inner.Warp? ==> w == m.inner.warp
  {
    match m.inner
    case Warp(inner) => inner
    case Tungstenite(Text(s)) => W.Text(s)
    case Tungstenite(Binary(v)) => W.Binary(v)
  }

  /** A tungstenite message survives the trip through `Message`. */
  lemma TungsteniteRoundTrip(t: T.Message)
    ensures ConvertsToTungstenite(FromTungstenite(t))
    ensures ToTungstenite(FromTungstenite(t)) == t
  {
  }

  /** A warp message survives the trip through `Message`. */
  lemma WarpRoundTrip(w: W.Message)
    ensures ConvertsToWarp(FromWarp(w))
    ensures ToWarp(FromWarp(w)) == w
  {
  }

  /** The kind of a tungstenite message names its variant, one to one. */
  lemma KindOfTungstenite(t: T.Message)
    ensures Kind(FromTungstenite(t)) == Text <==> t.Text?
    ensures Kind(FromTungstenite(t)) == Binary <==> t.Binary?
    ensures Kind(FromTungstenite(t)) == Ping <==> t.Ping?
    ensures Kind(FromTungstenite(t)) == Pong <==> t.Pong?
    ensures Kind(FromTungstenite(t)) == Close <==> t.Close?
  {
  }

  /** The kind of a warp message follows the order of warp's tests, and is
      a pong exactly when none of them holds. */
  lemma KindOfWarp(w: W.Message)
    ensures Kind(FromWarp(w)) == Text <==> w.IsText()
    ensures Kind(FromWarp(w)) == Binary <==> w.IsBinary()
    ensures Kind(FromWarp(w)) == Ping <==> w.IsPing()
    ensures Kind(FromWarp(w)) == Close <==> w.IsClose()
    ensures Kind(FromWarp(w)) == Pong <==> !(w.IsText() || w.IsBinary() || w.IsPing() || w.IsClose())
  {
  }

  /** A text or binary message crosses from one backend to the other and
      back unchanged. (A warp close cannot come back: it becomes a
      tungstenite close, which warp's conversion leaves unimplemented.) */
  lemma CrossBackendRoundTrips(w: W.Message, t: T.Message)
    ensures w.Text? || w.Binary? ==>
              ConvertsToWarp(FromTungstenite(ToTungstenite(FromWarp(w))))
              && ToWarp(FromTungstenite(ToTungstenite(FromWarp(w)))) == w
    ensures t.Text? || t.Binary? ==>
              ConvertsToTungstenite(FromWarp(ToWarp(FromTungstenite(t))))
              && ToTungstenite(FromWarp(ToWarp(FromTungstenite(t)))) == t
  {
  }

  /** A warp close is the one warp message whose trip to tungstenite cannot
      be undone. */
  lemma WarpCloseIsOneWay()
    ensures ToTungstenite(FromWarp(W.Close)) == T.Close(None)
    ensures !ConvertsToWarp(FromTungstenite(T.Close(None)))
  {
  }
}
