/** Option and Result values standing in for JavaScript's null/undefined and thrown errors. */
module Wrappers {

  /** A value that may be missing (`null` or `undefined` in the source). */
  datatype Option<+T> = None | Some(value: T) {

    /** The carried value, or `default` when missing (JavaScript's `??`). */
    function GetOr(default: T): T {
      match this
      case Some(v) => v
      case None => default
    }
  }

  /** The outcome of an operation that can throw: its value or the error it raised. */
  datatype Result<+T, +E> = Success(value: T) | Failure(error: E)
}
