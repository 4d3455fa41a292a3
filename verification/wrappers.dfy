/** Small datatypes shared by every module of the relay model: optional values,
    failures, and bytes. */
module Wrappers {

  /** A value that may be absent: an unset header, a missing JSON field, `undefined`. */
  datatype Option<+T> = None | Some(value: T) {

    /** The value, or `default` when absent (Python's `d.get(k, default)`, JavaScript's `??`). */
    function GetOr(default: T): T {
      match this
      case Some(v) => v
      case None => default
    }
  }

  /** A computation that either produced a value or raised an error. */
  datatype Result<+R, +E> = Ok(value: R) | Err(error: E)

  /** A computation that either returned normally or raised an error. */
  datatype Outcome<+E> = Pass | Fail(error: E)

  /** An octet of a request body or a decoded signature. */
  newtype byte = b: int | 0 <= b < 256
}
