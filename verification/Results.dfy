/** Failure-compatible results shared by every component of the model. */
module Results {

  /** A value or the error that prevented it. */
  datatype Result<+T, +E> = Success(value: T) | Failure(error: E) {
    predicate IsFailure() {
      Failure?
    }

    function PropagateFailure<U>(): Result<U, E>
      requires Failure?
    {
      Failure(error)
    }

    function Extract(): T
      requires Success?
    {
      value
    }
  }

  /** The outcome of a guard. It has no value, so `:- Need(...)` can stand alone. */
  datatype Guard<+E> = Pass | Fail(error: E) {
    predicate IsFailure() {
      Fail?
    }

    function PropagateFailure<U>(): Result<U, E>
      requires Fail?
    {
      Failure(error)
    }
  }

  function Need<E>(condition: bool, error: E): Guard<E> {
    if condition then Pass else Fail(error)
  }

  datatype Option<+T> = None | Some(value: T)
}
