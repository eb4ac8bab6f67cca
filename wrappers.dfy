/** The error-or-value result that stands for a Python function that either
    returns or fails an `assert`. */
module Wrappers {
  datatype Result<+T, +E> = Success(value: T) | Failure(error: E)
}
