/** `Option`, `Result` and `Outcome`: the model's stand-ins for
    JavaScript's `undefined` values and thrown errors. */
module Wrappers {

  datatype Option<+T> = None | Some(value: T)

  /** A computation that either yields a value or throws an `Error` whose
      `message` is the string carried by `Failure`. */
  datatype Result<+R, +E> = Success(value: R) | Failure(error: E) {

    /** The same failure, as a result of another value type. */
    function PropagateFailure<U>(): Result<U, E>
      requires Failure?
    {
      Failure(error)
    }
  }

  /** A computation that yields nothing when it succeeds. */
  datatype Outcome<+E> = Pass | Fail(error: E)
}
