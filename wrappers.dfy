/** Result types used in place of PHP exceptions. */
module Wrappers {

  datatype Option<+T> = None | Some(value: T)

  /** A computation that yields a value or fails with an error. */
  datatype Result<+R, +E> = Success(value: R) | Failure(error: E)

  /** A computation that yields nothing or fails with an error (a PHP `void` that may throw). */
  datatype Outcome<+E> = Pass | Fail(error: E)
}
