/** Failure-compatible result types shared by the whole model. */
module Wrappers {

  datatype Option<T> = None | Some(value: T)

  /** The value of an operation that can fail, or the error it failed with
      (a rejected Q promise in the task code). */
  datatype Result<T, E> = Ok(value: T) | Err(error: E)

  /** The outcome of an operation that returns nothing on success. */
  datatype Outcome<E> = Pass | Fail(error: E)
}
