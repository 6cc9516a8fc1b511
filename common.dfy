// Small shared wrappers: an optional value and a success-or-error result.
module Common {

  /** A value that may be absent: JavaScript `null`/`undefined`, Python `None`. */
  datatype Option<+T> = None | Some(value: T)

  /** The outcome of an operation that can raise: Python's exceptions become `Err`. */
  datatype Result<+T> = Ok(value: T) | Err(reason: string)

  function Max(a: int, b: int): int { if a < b then b else a }

  function Min(a: int, b: int): int { if a < b then a else b }
}
