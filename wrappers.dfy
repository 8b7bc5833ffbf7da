/** Failure-carrying results shared by the parsers and the encoder. */
module Wrappers {

  /** A value that may be absent: a parse that did not match gives None. */
  datatype Option<+T> = None | Some(value: T)

  /** Either the computed value or the reason it could not be computed. */
  datatype Result<+T, +E> = Success(value: T) | Failure(error: E)
}
