/** Failure-compatible wrappers used for the C++ exceptions of the parser and evaluator. */
module Results {

  datatype Option<T> = None | Some(value: T)

  /** A value, or the error that the C++ code would have thrown instead. */
  datatype Result<T, E> = Ok(value: T) | Err(error: E) {
    predicate IsFailure() { Err? }

    function PropagateFailure<U>(): Result<U, E>
      requires Err?
    {
      Err(error)
    }

    function Extract(): T
      requires Ok?
    {
      value
    }
  }

  /** The outcome of a step that returns nothing but may throw. */
  datatype Outcome<E> = Pass | Fail(error: E) {
    predicate IsFailure() { Fail? }

    function PropagateFailure<U>(): Result<U, E>
      requires Fail?
    {
      Err(error)
    }
  }
}
