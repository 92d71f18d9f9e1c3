/** Vocabulary shared by every component of the runtime model. */
module Basics {

  datatype Option<+T> = None | Some(value: T)

  /** A Python call either returns a value or raises; the message is kept only for the reader. */
  datatype Result<+T> = Ok(value: T) | Err(error: string)

  /** An instant of time; the code's ISO-8601 strings are compared as the instants they denote. */
  type Instant = int

  /** A SHA-256 digest, read as the number its 64 lowercase hex digits write: same order as the text. */
  type Digest = nat

  type Byte = b: int | 0 <= b < 256

  function Min(a: int, b: int): int {
    if a <= b then a else b
  }
}
