/** Option and Result, the failure-compatible wrappers used by every other module. */
module Wrappers {

  /** `undefined`/`null` for an optional prop or a lookup that finds nothing. */
  datatype Option<+T> = None | Some(value: T) {
    function GetOr(default: T): T {
      if Some? then value else default
    }
  }

  /** A value, or the exception a JavaScript expression throws instead. */
  datatype Result<+T, +E> = Ok(value: T) | Err(error: E)
}
