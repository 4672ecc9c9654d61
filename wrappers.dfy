/** Option and Result: the model's stand-ins for `undefined` and for a thrown error. */
module Wrappers {

  /** An optional value: `None` is JavaScript's `undefined`. */
  datatype Option<+T> = None | Some(value: T)

  /** The outcome of an operation that may throw: `Failure` carries what was thrown. */
  datatype Result<+R, +E> = Success(value: R) | Failure(error: E)
}
