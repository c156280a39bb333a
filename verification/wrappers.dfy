/** The `Option` and `Result` types used across the model.
    `Option` stands for a JavaScript value that may be missing (`undefined`
    or `null`); `Result` stands for an operation that may throw. */
module Wrappers {

  datatype Option<+T> = None | Some(value: T) {

    /** The wrapped value, or `default` when there is none. */
    function GetOr(default: T): T {
      match this
      case Some(v) => v
      case None => default
    }
  }

  datatype Result<+R, +E> = Success(value: R) | Failure(error: E)
}
