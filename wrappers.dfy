/** Failure-compatible wrappers shared by every module of the model. */
module Wrappers {

  /** A value that may be missing: a dictionary key that is absent, an optional result. */
  datatype Option<+T> = None | Some(value: T) {

    predicate IsFailure() {
      None?
    }

    function PropagateFailure<U>(): Option<U>
      requires None?
    {
      None
    }

    function Extract(): T
      requires Some?
    {
      value
    }

    /** Python's `d.get(key, default)` when this option is the looked-up key. */
    function GetOr(default: T): T {
      match this
      case Some(v) => v
      case None => default
    }
  }

  /** The outcome of a step that may raise: `Success` carries the value, `Failure` the error. */
  datatype Result<+T, +E> = Success(value: T) | Failure(error: E) {

    predicate IsFailure() {
      Failure?
    }

    function PropagateFailure<U>(): Result<U, E>
      requires Failure?
    {
      Failure(error)
    }

    function Extract(): T
      requires Success?
    {
      value
    }
  }

  /** A value when the condition holds, nothing otherwise. */
  function When<T>(present: bool, x: T): Option<T>
  {
    if present then Some(x) else None
  }
}
