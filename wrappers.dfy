/** Option and Result datatypes standing in for Java's null returns and thrown exceptions. */
module Wrappers {

  /** A value that may be absent, as a Java reference that may be null. */
  datatype Option<+T> = None | Some(value: T)

  /** The outcome of an operation that either returns normally or throws. */
  datatype Result<+R, +E> = Success(value: R) | Failure(error: E)
}

/** Bytes as Java's streams hand them out: `InputStream.read()` yields 0..255, or -1 at end. */
module Bytes {

  type byte = b: int | 0 <= b < 256

  /** Carriage return, `'\r'`. */
  const CR: byte := 13

  /** Line feed, `'\n'`. */
  const LF: byte := 10

  /** What `InputStream.read()` returns at end of stream. */
  const EOF: int := -1
}
