/** Failure-carrying values shared by the cipher and the text parsers. */
module Results {

  /** An optional value, used where the source returns a sentinel or throws. */
  datatype Option<+T> = None | Some(value: T)

  /** Either a value or the error that the source reports by throwing. */
  datatype Result<+T, +E> = Success(value: T) | Failure(error: E) {
    predicate IsFailure() {
      Failure?
    }

    function PropagateFailure<U>(): Result<U, E>
      requires Failure?
    {
      Failure(error)
    }

    function Extract(): T
      requires Success?
    {
      value
    }
  }
}
