/** Failure-carrying result types used for the Go (value, error) pairs. */
module Wrappers {

  datatype Option<+T> = None | Some(value: T)

  datatype Result<+R, +E> = Success(value: R) | Failure(error: E) {

    /** The same failure, with the value type changed. */
    function PropagateFailure<U>(): Result<U, E>
      requires Failure?
    {
      Failure(error)
    }
  }

  /** An operation that returns nothing but may fail (a Go function returning only `error`). */
  datatype Outcome<+E> = Pass | Fail(error: E)
}
