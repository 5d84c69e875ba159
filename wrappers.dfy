/** A result: the value a Python call returns, or the exception it raises. */
module Wrappers {

  datatype Result<+T, +E> = Success(value: T) | Failure(error: E)
}
