/** Values that stand for the `(T, error)` and `error` returns of the operator's Go code. */
module Outcomes {

  /** A pointer that may be nil. */
  datatype Option<+T> = None | Some(value: T)

  /** A `(T, error)` pair: either the value or the error text. */
  datatype Result<+T> = Ok(value: T) | Err(error: string)

  /** A bare `error` return: nil or an error text. */
  datatype Outcome = Pass | Fail(error: string)
}
