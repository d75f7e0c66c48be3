/** Option and Result: the model's stand-ins for Python's None and for raised exceptions. */
module Wrappers {

  datatype Option<+T> = None | Some(value: T) {
    predicate IsFailure() { None? }

    function PropagateFailure<U>(): Option<U>
      requires None?
    {
      None
    }

    function Extract(): T
      requires Some?
    {
      value
    }

    function GetOr(default: T): T {
      match this
      case Some(v) => v
      case None => default
    }

    /** The value, or an exception with this description. */
    function ToResult(error: string): Result<T> {
      match this
      case Some(v) => Ok(v)
      case None => Err(error)
    }
  }

  /** Python truthiness of an optional string: present and not empty. */
  predicate Present(o: Option<string>) {
    o.Some? && o.value != ""
  }

  /** An exception is modelled as `Err`, carrying a short description of what was raised. */
  datatype Result<+T> = Ok(value: T) | Err(error: string) {
    predicate IsFailure() { Err? }

    function PropagateFailure<U>(): Result<U>
      requires Err?
    {
      Err(error)
    }

    function Extract(): T
      requires Ok?
    {
      value
    }
  }
}
