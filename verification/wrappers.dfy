/** Go's `error` values and the result shapes the services return. */
module Wrappers {

  datatype Option<T> = None | Some(value: T)

  /** A Go `error`: one made by errors.New, gorm's sentinel ErrRecordNotFound,
      or one made by fmt.Errorf("<context>: %w", cause). */
  datatype Error =
    | New(text: string)
    | RecordNotFound
    | Wrap(context: string, cause: Error)

  /** err.Error() */
  function Message(e: Error): string
  {
    match e
    case New(t) => t
    case RecordNotFound => "record not found"
    case Wrap(c, cause) => c + ": " + Message(cause)
  }

  /** errors.Is: the error itself or any error it wraps is the target. */
  predicate Is(e: Error, target: Error)
  {
    e == target || (e.Wrap? && Is(e.cause, target))
  }

  /** The (value, error) pair of a Go function: exactly one of the two is meaningful. */
  datatype Result<T> = Ok(value: T) | Err(error: Error)

  /** A Go function that returns only `error`: Pass stands for nil. */
  datatype Outcome = Pass | Fail(error: Error)
}
