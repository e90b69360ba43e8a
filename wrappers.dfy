/** Option and Result values, standing in for Java's null references and for the
    exceptions the modelled code throws on bad input. */
module Wrappers {

  /** A possibly absent value: `None` plays the role of Java's `null`. */
  datatype Option<+T> = None | Some(value: T)

  /** The outcome of an operation that either produces a value or fails
      with an error that Java would throw. */
  datatype Result<+T, +E> = Success(value: T) | Failure(error: E)
}
