/** The two result shapes used throughout: an optional value and a value-or-error. */
module Results {
  datatype Option<+T> = None | Some(value: T)

  /** A failure-compatible result, so that a sequence of checked steps can be written with `:-`. */
  datatype Result<+T, +E> = Ok(value: T) | Err(error: E) {
    predicate IsFailure() {
      Err?
    }

    function PropagateFailure<U>(): Result<U, E>
      requires Err?
    {
      Err(error)
    }

    function Extract(): T
      requires Ok?
    {
      value
    }
  }
}
