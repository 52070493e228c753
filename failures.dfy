/** Failures shared by the containers and the response engine.  Every one of
    them is a panic in the Rust code of st-func-rs; here it is a value the caller sees. */
module Failures {

  /** Why an operation did not produce a value. */
  datatype Error =
    | IndexOutOfRange   // an element access past the end of the backing storage
    | SizeMismatch      // a binary operation on containers of incompatible sizes

  /** A value, or the reason there is none. */
  datatype Result<+T> = Ok(value: T) | Err(error: Error)

  /** The outcome of an operation that changes state and returns nothing. */
  datatype Outcome = Pass | Fail(error: Error)
}
