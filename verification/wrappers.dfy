/** Rust's `Option<T>` and `std::result::Result<T, E>` as datatypes, shared
    by the rest of the model. */
module Wrappers {

  datatype Option<+T> = None | Some(value: T)

  datatype Result<+T, +E> = Ok(value: T) | Err(error: E)
}
