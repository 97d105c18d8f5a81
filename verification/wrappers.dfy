/** Option and Result, the shapes the model uses for JavaScript's
    `null`/`undefined` fields and for thrown errors. */
module Wrappers {

  /** A value that may be absent (`null` or `undefined` in the source). */
  datatype Option<+T> = None | Some(value: T) {

    /** The wrapped value, or `default` when absent (the `x ?? default` idiom). */
    function GetOr(default: T): T {
      match this
      case Some(v) => v
      case None => default
    }
  }

  /** Either a value or the error a `throw` would have carried. */
  datatype Result<+R, +E> = Success(value: R) | Failure(error: E)
}
