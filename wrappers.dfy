/** Optional values and error-carrying results shared by every module of the model. */
module Wrappers {

  /** A value that may be absent (a missing document, an unset field, `null`). */
  datatype Option<+T> = None | Some(value: T) {
    function GetOr(default: T): T {
      match this
      case Some(v) => v
      case None => default
    }

    /** `this` when present, otherwise `other`; the shape of a `$set` of an optional field. */
    function Or(other: Option<T>): Option<T> {
      if Some? then this else other
    }
  }

  /** The outcome of an operation that either succeeds with a value or throws an error. */
  datatype Result<+T, +E> = Ok(value: T) | Err(error: E)
}
