/** Optional values and outcomes that may fail, used for JavaScript's
    `undefined` properties and for the feed fetch. */
module Wrappers {

  /** A value that may be absent (`undefined` on the JavaScript side). */
  datatype Option<+T> = None | Some(value: T) {

    /** The value, or `default` when absent (JavaScript's `x ?? default`). */
    function GetOr(default: T): T {
      match this
      case Some(v) => v
      case None => default
    }
  }

  /** The outcome of an operation that may fail. */
  datatype Result<+T, +E> = Ok(value: T) | Err(error: E)
}
