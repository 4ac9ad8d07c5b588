/**
 * Option and Result: the model's replacement for nullable pointers and for
 * C++ exceptions.  An `Err` carries the `what()` text of the exception that
 * the C++ code throws at that point.
 */
module Wrappers {

  datatype Option<+T> = None | Some(value: T)

  datatype Result<+T> = Ok(value: T) | Err(error: string)
  {
    predicate IsFailure() {
      Err?
    }

    function PropagateFailure<U>(): Result<U>
      requires Err?
    {
      Err(error)
    }

    function Extract(): T
      requires Ok?
    {
      value
    }
  }
}
