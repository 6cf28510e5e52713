/** Results and optional values, as Go's `(value, error)` pairs and nil pointers. */
module Prelude {
  datatype Option<+T> = None | Some(value: T)

  /** `Err` carries the text of the error, which the retry loop inspects. */
  datatype Result<+T> = Ok(value: T) | Err(error: string)
}
