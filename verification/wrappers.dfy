/** Result and outcome wrappers shared by the model.

- `Option<T>`: a value that may be absent (Rust's `Option`).
- `Result<T, E>`: a value or an error value (Rust's `Result`).
- `Outcome<T>`: either the value a Rust function returns, or the message of
  the `panic!` (or failed `unwrap`) that aborts it instead.
 */
module Wrappers {

  datatype Option<+T> = None | Some(value: T)

  datatype Result<+T, +E> = Ok(value: T) | Err(error: E)

  datatype Outcome<+T> = Value(value: T) | Panic(message: string)
}
