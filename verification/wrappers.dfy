/** An optional value and a success-or-error result. */
module Wrappers {

  /** A value that may be absent (JavaScript's `undefined`/`null`, or a failed conversion). */
  datatype Option<+T> = None | Some(value: T)

  /** The outcome of an operation that either produces a value or raises an error. */
  datatype Result<+T, +E> = Success(value: T) | Failure(error: E)
}
