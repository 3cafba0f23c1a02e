/** Option and Result, the two result shapes every other module uses. */
module Wrappers {

  datatype Option<+T> = None | Some(value: T)

  /** A thrown error becomes Err; `:-` propagates it to the enclosing handler. */
  datatype Result<+T, +E> = Ok(value: T) | Err(error: E) {
    predicate IsFailure() {
      Err?
    }

    function PropagateFailure<U>(): Result<U, E>
      requires Err?
    {
      Err(error)
    }

    function Extract(): T
      requires Ok?
    {
      value
    }
  }
}
