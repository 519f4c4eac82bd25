/** Optional values and results shared by the whole model. */
module Wrappers {

  /** `None` stands for JavaScript's `undefined`/`null` where a value may be absent. */
  datatype Option<+T> = None | Some(value: T)

  /** The outcome of an operation that may throw: a value, or the error it throws. */
  datatype Result<+T, +E> = Ok(value: T) | Throws(error: E)
}
