/** Option and Result, the shapes of Rust's `Option` and of "value or panic". */
module Wrappers {

  datatype Option<+T> = None | Some(value: T)

  datatype Result<+T, +E> = Success(value: T) | Failure(error: E)
}
