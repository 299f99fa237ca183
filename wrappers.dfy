/** Optional values and success-or-error outcomes shared by both plug-ins. */
module Wrappers {

  /** Python's `Optional[T]`: `None` or a present value. */
  datatype Option<+T> = None | Some(value: T)

  /** A computation that either returns a value or raises an exception. */
  datatype Result<+T, +E> = Ok(value: T) | Err(error: E)
}
