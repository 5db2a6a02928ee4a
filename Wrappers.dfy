/** Option and the Java exception outcome used across the model. */
module Wrappers {

  /** A nullable reference: `None` stands for Java's `null`. */
  datatype Option<+T> = None | Some(value: T)

  /** The throwables whose handling the model distinguishes. */
  datatype Throwable =
    | IOException            // includes FileNotFoundException and connection failures
    | OutOfMemoryError
    | NullPointerException

  /** The result of a Java call that either returns a value or throws. */
  datatype Outcome<+T> = Normal(value: T) | Raised(error: Throwable)
}
