/** Failure-compatible wrappers used for the exceptions of the modelled Python code. */
module Wrappers {

  datatype Option<+T> = None | Some(value: T)

  /** A value, or the error a Python exception would carry. Usable with `:-`. */
  datatype Result<+R, +E> = Ok(value: R) | Err(error: E) {
    predicate IsFailure() {
      Err?
    }

    function PropagateFailure<U>(): Result<U, E>
      requires Err?
    {
      Err(error)
    }

    function Extract(): R
      requires Ok?
    {
      value
    }
  }
}
