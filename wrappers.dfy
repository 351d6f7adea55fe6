/** Optional values: JavaScript's `undefined`/`null`/NaN outcomes are `None`. */
module Wrappers {

  datatype Option<+T> = None | Some(value: T) {

    /** The value, or `default` when there is none. */
    function GetOr(default: T): T {
      match this
      case Some(v) => v
      case None => default
    }
  }

  /** A success value or the thing that was thrown. */
  datatype Result<+T, +E> = Ok(value: T) | Err(error: E)
}
