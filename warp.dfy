/** The `warp::ws::Message` type as this library uses it: warp exposes a
    message through `is_*` tests, `as_bytes` and `to_str`, has no pong test,
    and does not hand out close frames. */
module Warp {
  import opened Common
  import Utf8

  datatype Message =
    | Text(text: string)
    | Binary(data: seq<byte>)
    | Ping(data: seq<byte>)
    | Pong(data: seq<byte>)
    | Close
  {
    predicate IsText() { Text? }
    predicate IsBinary() { Binary? }
    predicate IsPing() { Ping? }
    predicate IsClose() { Close? }

    /** The payload as bytes; a close message has none that warp shows. */
    function AsBytes(): seq<byte> {
      match this
      case Text(t) => Utf8.Encode(t)
      case Binary(d) => d
      case Ping(d) => d
      case Pong(d) => d
      case Close => []
    }

    /** `to_str`: the text of a text message, and an error for any other kind. */
    function ToStr(): Option<string> {
      if Text? then Some(text) else None
    }
  }
}
