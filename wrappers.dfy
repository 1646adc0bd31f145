/** Option and Result, for the source's null pointers, exceptions and error returns. */
module Wrappers {
  datatype Option<+T> = None | Some(value: T) {
    predicate IsSome() { Some? }
  }

  datatype Result<+T, +E> = Ok(value: T) | Err(error: E) {
    predicate IsOk() { Ok? }
  }
}
