/** Option and Result values standing in for the exceptions of the C# code. */
module Wrappers {

  datatype Option<T> = None | Some(value: T)

  /** A failure-compatible result, usable with `:-`. */
  datatype Result<T, E> = Ok(value: T) | Fail(error: E) {

    predicate IsFailure() {
      Fail?
    }

    function PropagateFailure<U>(): Result<U, E>
      requires Fail?
    {
      Fail(error)
    }

    function Extract(): T
      requires Ok?
    {
      value
    }
  }
}
