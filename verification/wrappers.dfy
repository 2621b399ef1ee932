/** The Option and Result types used by every store operation. */
module Wrappers {

  /** A value that may be absent: the model of a nullable field or of Guava's `Optional`. */
  datatype Option<+T> = None | Some(value: T)

  /** The outcome of an endpoint: the new state, or the error kind it raised. */
  datatype Result<+T, +E> = Ok(value: T) | Err(error: E)
}
