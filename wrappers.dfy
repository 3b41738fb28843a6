/** Option and Result, used for Java's null references and thrown exceptions. */
module Wrappers {

  /** Some value, or Java's null. */
  datatype Option<+T> = None | Some(value: T)

  /** A value, or the exception that interrupted its computation. */
  datatype Result<+T, +E> = Ok(value: T) | Err(error: E) {

    predicate IsFailure() {
      Err?
    }

    function PropagateFailure<U>(): Result<U, E>
      requires Err?
    {
      Err(error)
    }

    function Extract(): T
      requires Ok?
    {
      value
    }
  }
}
