/** Failure-carrying values: Go's `(T, error)` return pairs and nilable values. */
module Wrappers {

  /** A Go `error` value; only its message is observable. */
  datatype Error = Error(message: string)

  /** A value that may be absent (a nil pointer in Go). */
  datatype Option<+T> = None | Some(value: T)

  /** Either a value or the error that replaced it. */
  datatype Result<+T> = Success(value: T) | Failure(error: Error)
}
