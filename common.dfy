/** Failure-carrying wrappers used across the model: PHP's nullable values become
    Option, and an operation that either returns or throws becomes a Result (or an
    Outcome when it returns nothing). */
module Common {

  datatype Option<+T> = None | Some(value: T) {
    /** PHP's `$x ?? $default`. */
    function GetOr(default: T): T {
      match this
      case Some(v) => v
      case None => default
    }
  }

  datatype Result<+T, +E> = Success(value: T) | Failure(error: E)

  /** The result of a PHP `void` method that may throw. */
  datatype Outcome<+E> = Pass | Fail(error: E)
}
