/** Failure-carrying wrappers shared by every module of the model.
    Python exceptions (KeyError, RuntimeError, ValueError) become the
    Failure arm of a Result; Python's None becomes the None arm of Option. */
module Results {

  datatype Option<+T> = None | Some(value: T)

  datatype Result<+T, +E> = Success(value: T) | Failure(error: E) {

    predicate IsFailure() {
      Failure?
    }

    function PropagateFailure<U>(): Result<U, E>
      requires Failure?
    {
      Failure(error)
    }

    function Extract(): T
      requires Success?
    {
      value
    }
  }
}
