/** Option and Result, the failure-carrying datatypes the rest of the model uses
    in place of JavaScript's `null`/`undefined` and rejected promises. */
module Wrappers {

  /** A value that may be absent (`null` or `undefined` in the source). */
  datatype Option<+T> = None | Some(value: T)

  /** A resolved (`Ok`) or rejected (`Err`) call. */
  datatype Result<+T, +E> = Ok(value: T) | Err(error: E)
}
