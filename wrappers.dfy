/** Option and Result: the success-or-failure values the pipeline passes around. */
module Wrappers {

  datatype Option<+T> = None | Some(value: T)

  /** Rust's `Result`; usable with `:-`, which returns the error to the caller as `?` does. */
  datatype Result<+T, +E> = Ok(value: T) | Err(error: E) {
    predicate IsFailure()
    {
      Err?
    }

    function PropagateFailure<U>(): Result<U, E>
      requires Err?
    {
      Err(error)
    }

    function Extract(): T
      requires Ok?
    {
      value
    }
  }

  /** A success that carries no value (Rust's `Result<(), E>`). */
  datatype Outcome<+E> = Pass | Fail(error: E) {
    predicate IsFailure()
    {
      Fail?
    }

    function PropagateFailure<U>(): Result<U, E>
      requires Fail?
    {
      Err(error)
    }
  }
}
