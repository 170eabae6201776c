/** Shared vocabulary: results, error classes and time constants. */
module Basics {

  datatype Option<+T> = None | Some(value: T)

  /** What an application error wraps (internal/apperror/errors.go). */
  datatype Cause =
    | InvalidState
    | Conflicting
    | Unavailable
    | BadInput
    | StaleVersion
    | Constraint

  /** An application error: the response class, and for a conflict what caused it. */
  datatype Error =
    | Validation
    | NotFound
    | Conflict(cause: Cause)

  datatype Result<+T> = Ok(value: T) | Err(error: Error) {
    predicate IsFailure() { Err? }

    function PropagateFailure<U>(): Result<U>
      requires Err?
    {
      Err(error)
    }

    function Extract(): T
      requires Ok?
    {
      value
    }
  }

  /** The error return of a Go function that yields nothing else. */
  type Check = Result<()>

  const PASS: Check := Ok(())

  function Need(condition: bool, error: Error): Check {
    if condition then PASS else Err(error)
  }

  /** Instants and durations are whole nanoseconds. */
  type Time = int

  const SECOND: int := 1_000_000_000
  const MINUTE: int := 60 * SECOND
  const HOUR: int := 60 * MINUTE
  const DAY: int := 24 * HOUR

  /** Go's zero time, 1 January of year 1, counted from the Unix epoch. */
  const ZERO_TIME: Time := -62_135_596_800 * SECOND
}
