/** Failure-carrying wrappers shared by the whole model. */
module Wrappers {

  /** An optional value; `None` stands for a Go nil pointer or a missing map entry. */
  datatype Option<+T> = None | Some(value: T)

  /** A value or an error; `Failure` stands for a Go panic or error return. */
  datatype Result<+T, +E> = Success(value: T) | Failure(error: E)
}
