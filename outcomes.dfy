/** Shared result shapes: optional values, the outcome of a remote call and
    how an action completes (returns a value or throws). */
module Outcomes {

  /** A value that may be absent (null). */
  datatype Option<+T> = None | Some(value: T)

  /** What a remote (HTTP) call produced: the response body or an error. */
  datatype Outcome<+T, +E> = Success(data: T) | Failure(error: E)

  /** How an action ends: it returns `value`, or it throws an error whose
      message is `message`. */
  datatype Completion<+T> = Returned(value: T) | Threw(message: string)
}
