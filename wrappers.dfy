/** Option and Result, used for lookups that may find nothing and for
    operations that either produce a value or fail with a reason. */
module Wrappers {

  datatype Option<+T> = None | Some(value: T) {
    /** The JavaScript `x || d` on an optional value. */
    function GetOr(default: T): T {
      match this
      case Some(v) => v
      case None => default
    }
  }

  datatype Result<+R, +E> = Success(value: R) | Failure(error: E)
}
