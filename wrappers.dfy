/** Failure-carrying wrappers shared by the rest of the model. */
module Wrappers {

  datatype Option<T> = None | Some(value: T)

  /** A value, or the exception a step raised. */
  datatype Result<T, E> = Ok(value: T) | Fail(error: E)
}
