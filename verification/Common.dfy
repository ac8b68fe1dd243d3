/** Shared value types. */
module Common {
  datatype Option<+T> = None | Some(value: T)

  datatype Result<+T> = Ok(value: T) | Err

  function Max(a: int, b: int): int {
    if a < b then b else a
  }

  function Min(a: int, b: int): int {
    if a < b then a else b
  }
}
