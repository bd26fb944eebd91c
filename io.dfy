/** The slice of `std::io` that the adapter speaks to its callers. */
module Io {

  /** The `std::io::ErrorKind` values that occur in this library (a
      backend's own I/O error can carry any of them). */
  datatype ErrorKind =
    | WouldBlock
    | NotConnected
    | ConnectionAborted
    | ConnectionReset
    | BrokenPipe
    | UnexpectedEof
    | Other

  /** `io::Result<T>`: a value, or an error identified by its kind. */
  datatype Result<+T> = Ok(value: T) | Err(kind: ErrorKind)
}

/** The futures 0.3 poll type returned by `poll_flush` and `poll_close`. */
module Futures {

  datatype Poll<+T> = Ready(value: T) | Pending
}
