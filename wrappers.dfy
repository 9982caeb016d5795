/** Optional values and success-or-failure results, the Dafny counterparts of
    Kotlin's nullable types and of a call that either returns or throws. */
module Wrappers {

  datatype Option<+T> = None | Some(value: T) {
    /** Kotlin's `x ?: default` */
    function GetOr(default: T): T {
      match this
      case Some(v) => v
      case None => default
    }
  }

  datatype Result<+R, +E> = Success(value: R) | Failure(error: E)
}
