/** Small value wrappers shared by every module of the model. */
module Wrappers {

  /** An optional value: Go's nil pointer or "no error" becomes None. */
  datatype Option<+T> = None | Some(value: T)

  /** A value or an error, for Go's (value, error) pairs. */
  datatype Result<+T, +E> = Ok(value: T) | Err(error: E)

  function Min(a: int, b: int): int { if a <= b then a else b }

  function Max(a: int, b: int): int { if a <= b then b else a }
}
