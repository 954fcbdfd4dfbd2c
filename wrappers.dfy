/** Option, Result and Outcome: the failure-compatible shapes the Rust code
    expresses with `Option<T>`, `Result<T, E>` and `Result<(), E>`. */
module Wrappers {

  datatype Option<+T> = None | Some(value: T)

  datatype Result<+T, +E> = Ok(value: T) | Err(error: E) {
    predicate IsFailure() { Err? }

    function PropagateFailure<U>(): Result<U, E>
      requires Err?
    {
      Err(error)
    }

    function Extract(): T
      requires Ok?
    {
      value
    }
  }

  /** A check with no value on success (`Result<(), E>`). */
  datatype Outcome<+E> = Pass | Fail(error: E)
}
