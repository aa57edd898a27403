/** Option and Result, used for absent values and for the source's thrown errors. */
module Wrappers {

  datatype Option<+T> = None | Some(value: T)

  /** `Err` carries the `message` of the JavaScript `Error` the source throws. */
  datatype Result<+T, +E> = Ok(value: T) | Err(error: E) {
    predicate IsFailure() { Err? }

    function PropagateFailure<U>(): Result<U, E>
      requires Err?
    {
      Err(error)
    }

    function Extract(): T
      requires Ok?
    {
      value
    }
  }
}
