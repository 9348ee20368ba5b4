/** Failure-carrying results shared by the modules of this model. */
module Wrappers {

  datatype Option<+T> = None | Some(value: T)

  /** A value, or the error a JavaScript promise would have rejected with. */
  datatype Result<+T, +E> = Success(value: T) | Failure(error: E)

  /** Completion without a value: a resolved or a rejected `Promise<void>`. */
  datatype Outcome<+E> = Pass | Fail(error: E)
}
