/** Failure-carrying results used where the Python code raises. */
module Wrappers {

  datatype Option<+T> = None | Some(value: T)

  datatype Result<+T, +E> = Ok(value: T) | Err(error: E)

  /** The outcome of an operation that only changes state: it either completes or raises. */
  datatype Outcome<+E> = Pass | Fail(error: E)
}
