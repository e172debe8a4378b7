/** Optional values and outcomes: a nullable column, an input key that may be absent, an operation that may throw. */
module Wrappers {

  datatype Option<+T> = None | Some(value: T) {

    /** Returns the value, or `default` when absent (the `??` operator). */
    function GetOr(default: T): T {
      match this
      case Some(v) => v
      case None => default
    }
  }

  /** The value an operation returns, or the message of the exception it throws. */
  datatype Result<+T> = Success(value: T) | Failure(error: string)
}
