/** Failure-compatible wrappers used across the model: `Option` stands for a
    Java reference that may be null, `Result` for a value or a thrown exception. */
module Wrappers {

  datatype Option<+T> = None | Some(value: T)

  datatype Result<+T, +E> = Ok(value: T) | Err(error: E)
}
