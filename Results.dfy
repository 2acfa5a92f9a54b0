/** Failure-carrying wrappers shared by every phase of the interpreter. */
module Results {

  datatype Option<+T> = None | Some(value: T)

  /** The value of a computation that may throw: a value, or the exception raised. */
  datatype Result<+T, +E> = Ok(value: T) | Err(error: E) {
    predicate IsFailure() { Err? }

    function PropagateFailure<U>(): Result<U, E>
      requires Err?
    {
      Err(error)
    }

    function Extract(): T
      requires Ok?
    {
      value
    }
  }

  /** The completion of a computation run for its effect: it returned, or it threw. */
  datatype Outcome<+E> = Pass | Fail(error: E) {
    predicate IsFailure() { Fail? }

    function PropagateFailure(): Outcome<E>
      requires Fail?
    {
      this
    }
  }
}
