/** Failure-carrying values used throughout the model: Go's `(value, error)`
    pairs become `Result`, and "comma ok" lookups become `Option`. */
module Wrappers {

  datatype Option<+T> = None | Some(value: T)

  datatype Result<+T, +E> = Success(value: T) | Failure(error: E)
}
