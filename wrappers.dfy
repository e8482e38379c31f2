/** Outcome of an operation that either returns a value or raises an error. */
module Wrappers {

  datatype Result<+T, +E> = Success(value: T) | Failure(error: E)
}
