/** Option and Result types used for absent values and error returns. */
module Wrappers {

  /** A value that may be missing: JavaScript's `null`/`undefined`. */
  datatype Option<+T> = None | Some(value: T)

  /** The outcome of a backend call: a value or an error. */
  datatype Result<+R, +E> = Success(value: R) | Failure(error: E)
}
