/** Option and Result: the absence of a JavaScript value and the settling of a promise. */
module Wrappers {

  /** A JavaScript value that may be `null`/`undefined` (None) or present (Some). */
  datatype Option<+T> = None | Some(value: T)

  /** A promise that fulfils with `value` (Ok) or rejects with `error` (Err). */
  datatype Result<+T, +E> = Ok(value: T) | Err(error: E)
}
