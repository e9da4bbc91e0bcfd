/** Failure-compatible wrappers shared by every module of the model. */
module Wrappers {

  /** A Java reference that may be null: `None` stands for null. */
  datatype Option<+T> = None | Some(value: T)

  /** A value, or the exception raised while computing it. */
  datatype Result<+T, +E> = Ok(value: T) | Err(error: E)

  /** Normal completion, or the exception that escapes a void method. */
  datatype Outcome<+E> = Pass | Fail(error: E)
}
