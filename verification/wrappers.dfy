/** Failure-carrying datatypes shared by the whole model. */
module Wrappers {

  /** A value that may be absent: the outcome of a partial parser. */
  datatype Option<T> = None | Some(value: T)

  /** Either a computed value or the error that stopped the computation,
      standing for a Python function that returns or raises. */
  datatype Result<T, E> = Success(value: T) | Failure(error: E)
}
