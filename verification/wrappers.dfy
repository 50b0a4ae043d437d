/** Failure-carrying result types shared by every module of the model.
    Go's `(value, error)` pairs become `Result`, a nil-able pointer becomes
    `Option`, and a bare `error` return becomes `Outcome`. */
module Wrappers {

  datatype Option<+T> = None | Some(value: T) {
    function GetOr(default: T): T {
      match this
      case Some(v) => v
      case None => default
    }
  }

  datatype Result<+R, +E> = Success(value: R) | Failure(error: E) {
    predicate IsFailure() {
      Failure?
    }

    function PropagateFailure<U>(): Result<U, E>
      requires Failure?
    {
      Failure(error)
    }

    function Extract(): R
      requires Success?
    {
      value
    }
  }

  /** A Go `error` return: `Pass` is nil, `Fail(e)` carries the message. */
  datatype Outcome<+E> = Pass | Fail(error: E)
}
