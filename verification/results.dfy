/** Failure-compatible result types shared by every decoder of the model. */
module Results {

  /** The outcome of a decode step: a value, or the error that aborted it. */
  datatype Result<+T, +E> = Success(value: T) | Failure(error: E) {

    predicate IsFailure() {
      Failure?
    }

    function PropagateFailure<U>(): Result<U, E>
      requires Failure?
    {
      Failure(error)
    }

    function Extract(): T
      requires Success?
    {
      value
    }
  }

  /** A value that may be absent, as Python's `None`. */
  datatype Option<+T> = None | Some(value: T)

  /** A check that either passes or names the error that stops the decode. */
  datatype Check<+E> = Pass | Fail(error: E) {

    predicate IsFailure() {
      Fail?
    }

    function PropagateFailure<U>(): Result<U, E>
      requires Fail?
    {
      Failure(error)
    }
  }

  function Require<E>(condition: bool, error: E): (c: Check<E>)
    ensures c.Pass? <==> condition
    ensures c.Fail? ==> c.error == error
  {
    if condition then Pass else Fail(error)
  }
}
