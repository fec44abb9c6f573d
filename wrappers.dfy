/** Option and Result types used for the values Python may leave as None
    and for the exceptions the builder raises. */
module Wrappers {

  datatype Option<T> = None | Some(value: T)
  {
    function UnwrapOr(default: T): T
    {
      match this
      case Some(v) => v
      case None => default
    }
  }

  /** `Ok(value)` is a normal return, `Err(error)` an exception raised by the source. */
  datatype Result<T, E> = Ok(value: T) | Err(error: E)
  {
    predicate IsFailure() { Err? }

    function PropagateFailure<U>(): Result<U, E>
      requires Err?
    {
      Err(error)
    }

    function Extract(): T
      requires Ok?
    {
      value
    }
  }

  /** The outcome of an operation that returns nothing but may raise. */
  datatype Outcome<E> = Pass | Fail(error: E)
  {
    predicate IsFailure() { Fail? }

    function PropagateFailure(): Outcome<E>
      requires Fail?
    {
      this
    }
  }
}
