/** Failure-compatible result types used in place of null pointers and C++ exceptions. */
module Wrappers {

  /** A value that may be absent (a null `Note*`, `std::string::npos`). */
  datatype Option<+T> = None | Some(value: T)

  /** A value or the error that the C++ code would have thrown instead. */
  datatype Result<+R, +E> = Success(value: R) | Failure(error: E) {
    predicate IsFailure() {
      Failure?
    }

    function PropagateFailure<U>(): Result<U, E>
      requires Failure?
    {
      Failure(error)
    }

    function Extract(): R
      requires Success?
    {
      value
    }
  }

  /** The outcome of an operation that returns nothing but may throw. */
  datatype Outcome<+E> = Pass | Fail(error: E)
}
