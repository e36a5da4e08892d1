/** Option and Result: the model's stand-ins for TypeScript's `null`/`undefined`
    and for errors that are thrown. */
module Wrappers {

  /** A value that may be absent (`null` or `undefined` in the source). */
  datatype Option<+T> = None | Some(value: T) {

    /** The value, or `default` when absent: the `??` operator. */
    function GetOr(default: T): T {
      if Some? then value else default
    }
  }

  /** Either a value or the error that was thrown instead. */
  datatype Result<+T, +E> = Success(value: T) | Failure(error: E)
}
