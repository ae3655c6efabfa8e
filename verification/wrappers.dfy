/** Go's nil-able pointers and (value, error) pairs, seen as values. */
module Wrappers {

  /** A pointer compared by the value it points to: `None` is nil. An
      `Option` of an error is Go's `error`, with `None` for nil. */
  datatype Option<+T> = None | Some(value: T)

  /** A result together with a nil error, or a non-nil error. */
  datatype Result<+T, +E> = Success(value: T) | Failure(error: E)
}
