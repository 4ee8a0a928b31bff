/** Optional values and error-carrying results, for the source's `?:` fields and its throws. */
module Wrappers {

  /** A value that may be absent (a TypeScript optional field or `undefined`). */
  datatype Option<+T> = None | Some(value: T) {

    /** The carried value, or `default` when absent. */
    function GetOr(default: T): T {
      match this
      case Some(v) => v
      case None => default
    }
  }

  /** Either a computed value or the error the source would throw. */
  datatype Result<+T, +E> = Success(value: T) | Failure(error: E)
}
