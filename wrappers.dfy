/** Option stands for a Java reference that may be null; Result for a value or the exception raised instead. */
module Wrappers {

  datatype Option<+T> = None | Some(value: T) {

    /** The value, or the default when there is none (Java's `x == null ? d : x`). */
    function GetOr(default: T): T {
      match this
      case Some(v) => v
      case None => default
    }
  }

  datatype Result<+T, +E> = Success(value: T) | Failure(error: E) {

    predicate IsFailure() {
      Failure?
    }

    function PropagateFailure<U>(): Result<U, E>
      requires Failure?
    {
      Failure(error)
    }

    function Extract(): T
      requires Success?
    {
      value
    }
  }
}
