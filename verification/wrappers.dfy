/** The Option and Result datatypes used throughout the model: a Java reference that
    may be null becomes an `Option`, and a call that may throw becomes a `Result`. */
module Wrappers {

  /** A value that may be absent; `None` stands for Java's `null`. */
  datatype Option<+T> = None | Some(value: T)

  /** The outcome of a call that either returns a value or throws. */
  datatype Result<+R, +E> = Success(value: R) | Failure(error: E)
}
