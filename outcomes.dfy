/** Option and Result values standing in for Java's null references and exceptions. */
module Outcomes {

  /** A value that may be absent: `None` plays the part of a Java `null`. */
  datatype Option<+T> = None | Some(value: T)

  /** The result of an operation that may fail with a message (a caught exception). */
  datatype Result<+T> = Ok(value: T) | Err(message: string)
}
