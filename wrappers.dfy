/** Option and Result: the null / exception outcomes of the script, as values. */
module Wrappers {

  /** `null` / `undefined` in the script become None. */
  datatype Option<+T> = None | Some(value: T) {

    /** The value, or `default` when there is none (the script's `x || default`). */
    function GetOr(default: T): T {
      match this
      case Some(v) => v
      case None => default
    }
  }

  /** A call that either returns a value or throws. */
  datatype Result<+T, +E> = Ok(value: T) | Err(error: E)
}
