/** Option and Result values: how the model returns a Java method's value or the exception it throws. */
module Wrappers {

  datatype Option<+T> = None | Some(value: T)

  datatype Result<+T, +E> = Ok(value: T) | Err(error: E) {
    predicate IsFailure() { Err? }

    function PropagateFailure<U>(): Result<U, E>
      requires Err?
    {
      Err(error)
    }

    function Extract(): T
      requires Ok?
    {
      value
    }
  }

  /** The outcome of a void Java method: it returns, or it throws `error`. */
  datatype Outcome<+E> = Pass | Fail(error: E)
}
