/** The result types every module shares: an optional value, a value or an error, how a call ended. */
module Wrappers {

  datatype Option<+T> = None | Some(value: T) {

    function GetOr(default: T): T {
      if Some? then value else default
    }
  }

  /** The outcome of a call that may throw: its value, or the error it threw. */
  datatype Result<+T, +E> = Success(value: T) | Failure(error: E) {

    predicate IsFailure() {
      Failure?
    }

    function PropagateFailure<U>(): Result<U, E>
      requires Failure?
    {
      Failure(error)
    }

    function Extract(): T
      requires Success?
    {
      value
    }
  }

  /** How a call to another system ended: it returned, or it threw, having taken effect or not. */
  datatype Outcome = Done | Threw(effect: bool)

  /** The call happened, whether or not the caller saw it end. */
  predicate Happened(o: Outcome) {
    o.Done? || o.effect
  }
}
