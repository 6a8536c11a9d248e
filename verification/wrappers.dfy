/** Failure-compatible Option and Result datatypes used throughout the model.
    A .NET reference that may be `null` is an `Option`; an operation that may
    throw is a `Result` whose `Failure` carries the exception. */
module Wrappers {

  datatype Option<T> = None | Some(value: T) {

    /** This value when present, otherwise `other`. */
    function OrElse(other: Option<T>): Option<T> {
      if Some? then this else other
    }
  }

  datatype Result<T, E> = Success(value: T) | Failure(error: E) {

    predicate IsFailure() {
      Failure?
    }

    function PropagateFailure<U>(): Result<U, E>
      requires Failure?
    {
      Failure(error)
    }

    function Extract(): T
      requires Success?
    {
      value
    }

    /** The error of a failure, or `None` for a success. */
    function FailureOption(): Option<E> {
      if Failure? then Some(error) else None
    }
  }
}
