/** Option, Result and Outcome: the values that stand for PHP's nulls and thrown exceptions. */
module Wrappers {

  datatype Option<+T> = None | Some(value: T)

  datatype Result<+T, +E> = Success(value: T) | Failure(error: E)

  /** The outcome of a `void` PHP method: it returned, or it threw `error`. */
  datatype Outcome<+E> = Pass | Fail(error: E)
}
