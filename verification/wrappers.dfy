/** Failure-compatible datatypes used across the model: `Option` for values the
    source leaves `null`, `Result` for computations the source lets throw. */
module Wrappers {

  /** A value that may be absent (the source's `null`). */
  datatype Option<+T> = None | Some(value: T)

  /** The outcome of a computation that either returns a value or throws. */
  datatype Result<+R, +E> = Success(value: R) | Failure(error: E) {

    predicate IsFailure() {
      Failure?
    }

    function PropagateFailure<U>(): Result<U, E>
      requires Failure?
    {
      Failure(error)
    }

    function Extract(): R
      requires Success?
    {
      value
    }
  }
}
