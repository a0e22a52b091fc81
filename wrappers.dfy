/** Optional values and results shared by the modules of this model. */
module Wrappers {

  /** A value that may be absent (Python's `None`). */
  datatype Option<T> = None | Some(value: T)

  /** The outcome of a validation: the validated value or what was wrong with the input. */
  datatype Result<R, E> = Success(value: R) | Failure(error: E)
}
