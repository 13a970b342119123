/** Optional values and fallible results, shared by the frontend and backend models. */
module Wrappers {

  /** A value that may be missing (`undefined` / `null` in TypeScript, an absent key in Python). */
  datatype Option<+T> = None | Some(value: T)

  /** The outcome of an operation that may throw: a value, or the error it throws. */
  datatype Result<+T, +E> = Success(value: T) | Failure(error: E)
}
