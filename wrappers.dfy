/** Failure-carrying results shared by the model: a Java `null` or a missing entry is `None`,
    a thrown exception is `Failure`/`Fail`. */
module Wrappers {

  datatype Option<+T> = None | Some(value: T)

  datatype Result<+R, +E> = Success(value: R) | Failure(error: E)

  /** The outcome of a `void` Java method that either returns normally or throws `error`. */
  datatype Outcome<+E> = Pass | Fail(error: E)
}
