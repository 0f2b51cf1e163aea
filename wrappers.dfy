/** Option and Result: absent values and thrown errors as data. */
module Wrappers {

  datatype Option<+T> = None | Some(value: T) {
    /** The value, or `default` when there is none. */
    function GetOr(default: T): T {
      match this
      case Some(v) => v
      case None => default
    }
  }

  /** The outcome of a JavaScript call that may throw: a value, or the thrown error's message. */
  datatype Result<+T> = Success(value: T) | Failure(error: string)
}
