/** Failure-compatible wrappers used across the model: an optional value (the
    `undefined` that `Array.find` and object lookups return) and a result that
    carries either a value or an error message (a thrown exception). */
module Wrappers {

  datatype Option<+T> = None | Some(value: T) {

    /** The wrapped value, or `default` when there is none (JavaScript's `?.` followed by `||`). */
    function GetOr(default: T): T {
      match this
      case Some(v) => v
      case None => default
    }
  }

  datatype Result<+R, +E> = Success(value: R) | Failure(error: E)
}
