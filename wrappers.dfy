/** An optional value and the outcome of a step that can raise. */
module Wrappers {
  datatype Option<T> = None | Some(value: T)

  /** `Failure` carries the message of the exception the source raises. */
  datatype Result<T> = Success(value: T) | Failure(error: string)
}
