/** Option and Result values used in place of Ruby's nil and its thrown errors. */
module Wrappers {

  /** A value that may be missing (Ruby's nil). */
  datatype Option<+T> = None | Some(value: T)

  /** The outcome of a step that may fail with an error value. */
  datatype Result<+R, +E> = Success(value: R) | Failure(error: E)
}
