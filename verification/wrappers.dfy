/** Option and Result, used for JavaScript's `null`/`undefined` fields and for
    code paths that throw instead of returning. */
module Wrappers {

  datatype Option<+T> = None | Some(value: T) {
    function GetOr(default: T): T {
      match this
      case Some(v) => v
      case None => default
    }
  }

  /** A computation that either returns a value or throws `error`. */
  datatype Result<+R, +E> = Ok(value: R) | Err(error: E)
}
