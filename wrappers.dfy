/** Option and Result, the two failure-carrying shapes the rest of the model uses. */
module Wrappers {

  /** An optional value: a JSON field or query parameter that may be absent. */
  datatype Option<+T> = None | Some(value: T) {
    function GetOr(default: T): T {
      match this
      case Some(v) => v
      case None => default
    }
  }

  /** The outcome of a step that either produces a value or fails with an error. */
  datatype Result<+T, +E> = Success(value: T) | Failure(error: E)
}
