/** Failure-compatible wrappers for the transcript pipeline. */
module Outcomes {

  /** The two ways a transcript request fails. `Missing` is the handlers'
      `Error('Missing')` thrown by `guard404` (HTTP 404); `Unexpected` is every
      other exception: a rejected request, or a TypeError from dereferencing
      `undefined` (HTTP 500). */
  datatype Error = Missing | Unexpected

  /** A result or the error kind that aborted the computation; usable with `:-`. */
  datatype Outcome<+T> = Ok(value: T) | Err(error: Error) {

    predicate IsFailure() {
      Err?
    }

    function PropagateFailure<U>(): Outcome<U>
      requires Err?
    {
      Err(error)
    }

    function Extract(): T
      requires Ok?
    {
      value
    }
  }

  /** A value that may be `undefined` on the JavaScript side. */
  datatype Option<+T> = None | Some(value: T)
}
