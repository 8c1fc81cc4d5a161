/** Absent-or-present values and success-or-failure results.

    `Option` stands for the JavaScript fields that may be `null` or
    `undefined`; `Result` for the route's early error return. */
module Wrappers {

  datatype Option<+T> = None | Some(value: T) {

    /** The value if present, otherwise `default` (the `x || default` idiom
        when every present value is truthy). */
    function GetOr(default: T): T {
      match this
      case Some(v) => v
      case None => default
    }
  }

  datatype Result<+R, +E> = Success(value: R) | Failure(error: E)
}
