/** Failure-compatible result types shared by every module of the model. */
module Wrappers {

  /** A value that may be missing: a failed parse, an absent map key. */
  datatype Option<+T> = None | Some(value: T) {

    /** The wrapped value, or `default` when there is none. */
    function GetOr(default: T): (r: T)
      ensures Some? ==> r == value
      ensures None? ==> r == default
    {
      match this
      case Some(v) => v
      case None => default
    }
  }

  /** The outcome of an operation that returns a Go `error` next to its value. */
  datatype Result<+R, +E> = Ok(value: R) | Err(error: E)
}
