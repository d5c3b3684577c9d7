/** Failure-carrying datatypes shared by the whole model. */
module Wrappers {

  /** JavaScript's `null`/`undefined` versus a present value. */
  datatype Option<+T> = None | Some(value: T) {
    function GetOr(default: T): T {
      match this
      case Some(v) => v
      case None => default
    }
  }

  /** A value, or the exception the source would throw instead. */
  datatype Result<+R, +E> = Success(value: R) | Failure(error: E)
}
