/** Option and Result, for values that may be missing and operations that may raise. */
module Wrappers {

  datatype Option<+T> = None | Some(value: T) {
    /** The encapsulated value, or `default` when there is none. */
    function GetOr(default: T): T {
      match this
      case Some(v) => v
      case None => default
    }
  }

  /** `Failure(msg)` stands for a caught exception whose text is `msg`. */
  datatype Result<+R, +E> = Success(value: R) | Failure(error: E)
}
