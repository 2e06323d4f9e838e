/** Failure-compatible wrappers shared by the other modules. */
module Wrappers {

  /** A value that may be absent (a missing JSON field, a missing cache row). */
  datatype Option<+T> = None | Some(value: T) {

    predicate IsFailure() {
      None?
    }

    function PropagateFailure<U>(): Option<U>
      requires None?
    {
      None
    }

    function Extract(): T
      requires Some?
    {
      value
    }

    function GetOr(default: T): T {
      match this
      case Some(v) => v
      case None => default
    }
  }

  /** A check that either passes or reports why it failed. */
  datatype Outcome<+E> = Pass | Fail(error: E)

  /** A computed value or the error raised instead. */
  datatype Result<+T, +E> = Success(value: T) | Failure(error: E)
}
