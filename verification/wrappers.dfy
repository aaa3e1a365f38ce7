/** Rust's `Result`: a success value or an error value. */
module Wrappers {

  datatype Result<T, E> = Ok(value: T) | Err(error: E)

}
