/** Optional values, for whatever the source reads as possibly `null` or
    `undefined`, and results of operations that can be refused. */
module Basics {

  datatype Option<+T> = None | Some(value: T) {
    function GetOr(default: T): T {
      match this
      case Some(v) => v
      case None => default
    }
  }

  /** The outcome of an operation that can be refused. */
  datatype Result<+T, +E> = Success(value: T) | Failure(error: E)
}
