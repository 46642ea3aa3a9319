/** Optional values and fallible results shared by the modules of this project. */
module Wrappers {

  datatype Option<T> = None | Some(value: T)

  datatype Result<T, E> = Success(value: T) | Failure(error: E)

  /** A check that either passes or fails with an error. */
  datatype Outcome<E> = Pass | Fail(error: E)
}
