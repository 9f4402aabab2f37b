/** Option and Result values standing for Java's nullable references and thrown exceptions. */
module Wrappers {

  datatype Option<+T> = None | Some(value: T)

  datatype Result<+R, +E> = Success(value: R) | Failure(error: E)

  /** A check that either passes or fails with an error, for Java methods returning void. */
  datatype Outcome<+E> = Pass | Fail(error: E)
}
