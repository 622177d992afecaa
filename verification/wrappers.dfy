/** Optional values and fallible results, used wherever the system returns
    `null` or throws. */
module Wrappers {

  /** A value that may be absent (the system's nullable references). */
  datatype Option<+T> = None | Some(value: T)

  /** Either a value or the fault that stopped the operation (the system's exceptions). */
  datatype Result<+T, +E> = Success(value: T) | Failure(error: E)
}
