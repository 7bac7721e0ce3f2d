/** Failure-compatible wrappers used for the Python code's exceptions and `None` returns. */
module Results {

  datatype Option<+T> = None | Some(value: T)

  /** A value, or the exception the Python code would raise instead. */
  datatype Result<+T, +E> = Success(value: T) | Failure(error: E) {
    predicate IsFailure() { Failure? }

    function PropagateFailure<U>(): Result<U, E>
      requires Failure?
    {
      Failure(error)
    }

    function Extract(): T
      requires Success?
    {
      value
    }
  }

  /** The outcome of a procedure that returns nothing in Python: it completes, or it raises. */
  datatype Outcome<+E> = Pass | Fail(error: E)
}
