/** Option and Result, the two failure-carrying shapes used throughout the model. */
module Wrappers {

  datatype Option<+T> = None | Some(value: T)

  /** `Ok`/`Err` as returned by the Rust functions of the model; `:-` plays the part of `?`. */
  datatype Result<+T, +E> = Ok(value: T) | Err(error: E)
  {
    predicate IsFailure() { Err? }

    function PropagateFailure<U>(): Result<U, E>
      requires Err?
    {
      Err(error)
    }

    function Extract(): T
      requires Ok?
    {
      value
    }
  }
}
