/** Failure-carrying values shared by the pipeline's stages. */
module Wrappers {

  /** A value that may be absent: Python's `None`, pandas' missing value. */
  datatype Option<+T> = None | Some(value: T)

  /** A value or the exception that replaced it. */
  datatype Result<+T, +E> = Ok(value: T) | Err(error: E)

  /** Success, or the exception that ended the step. */
  datatype Outcome<+E> = Pass | Fail(error: E)
}
