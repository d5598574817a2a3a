/** Optional values and failing computations, for the places where the
    programs return `None`/`undefined` or raise an exception. */
module Wrappers {

  datatype Option<T> = None | Some(value: T)

  datatype Result<T, E> = Success(value: T) | Failure(error: E)

  /** The Python exceptions that the analyses raise or catch. */
  datatype Error = AssertionError | ZeroDivisionError | ValueError
}
