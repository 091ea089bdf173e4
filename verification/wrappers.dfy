/** Failure-compatible datatypes shared by the whole model. */
module Wrappers {

  /** A value that may be absent: JavaScript's `undefined` / `null` results. */
  datatype Option<+T> = None | Some(value: T) {

    function GetOr(default: T): T {
      match this
      case Some(v) => v
      case None => default
    }
  }

  /** The outcome of an operation that can throw: `Ok` carries the value, `Err` the error. */
  datatype Result<+T, +E> = Ok(value: T) | Err(error: E)
}
