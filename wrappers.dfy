/** The failure-compatible wrappers used throughout the model: `Option` for the
    source's nullable values (a table that is not loaded yet, a `find` that found
    nothing) and `Result` for the one entry point that throws. */
module Wrappers {

  datatype Option<+T> = None | Some(value: T)

  datatype Result<+T, +E> = Success(value: T) | Failure(error: E)
}
