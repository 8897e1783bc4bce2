/** Values that may be absent, and results that may fail. */
module Wrappers {

  /** `None` stands for JavaScript's `null`, `undefined` or an empty form field. */
  datatype Option<+T> = None | Some(value: T)

  datatype Result<+T, +E> = Ok(value: T) | Err(error: E)
}
