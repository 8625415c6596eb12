/** Small failure-carrying datatypes used across the model: an optional value
    (a Go reference that may be nil) and a value-or-error result (Go's `(T, error)`). */
module Wrappers {

  datatype Option<+T> = None | Some(value: T)

  datatype Result<+T, +E> = Success(value: T) | Failure(error: E)
}
