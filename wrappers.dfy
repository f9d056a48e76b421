/** Optional values and results shared by every module of the model. */
module Wrappers {

  /** A value that may be missing: JavaScript's `null` / `undefined` collapse to `None`. */
  datatype Option<+T> = None | Some(value: T)

  /** The outcome of a validation step: the parsed value, or what was wrong. */
  datatype Result<+T, +E> = Success(value: T) | Failure(error: E)

  function Min(a: int, b: int): int { if a <= b then a else b }

  function Max(a: int, b: int): int { if a <= b then b else a }
}
