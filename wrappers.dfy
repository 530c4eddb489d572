/** Option and Result values used in place of null pointers and thrown exceptions. */
module Wrappers {

  /** A value that may be absent: the model's stand-in for a nullable pointer. */
  datatype Option<+T> = None | Some(value: T)

  /** The outcome of an operation that the source can abort by throwing. */
  datatype Result<+T, +E> = Ok(value: T) | Err(error: E) {
    predicate IsFailure() {
      Err?
    }

    function PropagateFailure<U>(): Result<U, E>
      requires Err?
    {
      Err(error)
    }

    function Extract(): T
      requires Ok?
    {
      value
    }
  }
}
