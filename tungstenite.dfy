/** The parts of the `tungstenite` crate the library depends on, as plain
    values: its message type (the data frames of RFC 6455, section 5.6, and
    its control frames, section 5.5), its close frame and its error type. */
module Tungstenite {
  import opened Common
  import Utf8
  import Io

  /** A close frame: a status code and a UTF-8 reason (RFC 6455, section 5.5.1). */
  datatype CloseFrame = CloseFrame(code: u16, reason: string)

  /** `tungstenite::Message`. */
  datatype Message =
    | Text(text: string)
    | Binary(data: seq<byte>)
    | Ping(data: seq<byte>)
    | Pong(data: seq<byte>)
    | Close(frame: Option<CloseFrame>)

  /** `impl From<Message> for Vec<u8>` (tungstenite's `into_data`): the
      payload of a message as bytes; a close message yields its reason, or
      nothing when it carries no frame. */
  function IntoData(m: Message): seq<byte> {
    match m
    case Text(t) => Utf8.Encode(t)
    case Binary(d) => d
    case Ping(d) => d
    case Pong(d) => d
    case Close(None) => []
    case Close(Some(cf)) => Utf8.Encode(cf.reason)
  }

  /** What `into_data` hands out: the payload of a binary, ping or pong
      message unchanged; one to four bytes per character of a text or of a
      close reason; nothing for a close without frame. */
  lemma IntoDataPayload(m: Message)
    ensures m.Binary? || m.Ping? || m.Pong? ==> IntoData(m) == m.data
    ensures m.Text? ==> |m.text| <= |IntoData(m)| <= 4 * |m.text|
    ensures m.Close? && m.frame.Some? ==>
              |m.frame.value.reason| <= |IntoData(m)| <= 4 * |m.frame.value.reason|
    ensures m == Close(None) ==> IntoData(m) == []
  {
  }

  /** `tungstenite::Error`, reduced to the cases the library tells apart; the
      remaining ones (TLS, capacity, protocol, ...) behave alike there. */
  datatype Error =
    | ConnectionClosed
    | AlreadyClosed
    | Io(kind: Io.ErrorKind)
    | Protocol
    | Capacity
    | SendQueueFull
}
