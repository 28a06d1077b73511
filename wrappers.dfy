/** Failure-carrying datatypes shared by the descriptor and the pipeline. */
module Wrappers {

  /** A Java reference that may be null: `None` stands for null. */
  datatype Option<+T> = None | Some(value: T)

  /** A value or the error the Java code would throw instead of returning it. */
  datatype Result<+R, +E> = Success(value: R) | Failure(error: E)

  /** A check that either passes or throws. */
  datatype Outcome<+E> = Pass | Fail(error: E)
}
