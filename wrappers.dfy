/** Option and Result types shared by every module of the model.

    Python's `None` becomes `None`, a raised exception becomes `Err(e)` with
    the exception's class as `e`.
 */
module Wrappers {

  datatype Option<+T> = None | Some(value: T)

  /** The exception classes the modelled code raises (or lets escape). */
  datatype Error =
    | RuntimeError(reason: string)
    | KeyError(key: string)
    | IndexError
    | ValueError(text: string)
    | NotImplementedError
    | AttributeError(name: string)
    | TypeError(text: string)

  datatype Result<+T> = Ok(value: T) | Err(error: Error) {
    predicate IsFailure() { Err? }

    function PropagateFailure<U>(): Result<U>
      requires Err?
    {
      Err(error)
    }

    function Extract(): T
      requires Ok?
    {
      value
    }
  }

  /** A dict key or keyword argument: absent, present with None, or
      present with a value. */
  datatype Slot<T> = Missing | Null | Value(v: T)
}
