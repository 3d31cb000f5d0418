/** Option and Result values standing for Java's nullable references and thrown exceptions. */
module Wrappers {

  /** A value that may be absent, as a Java reference that may be null. */
  datatype Option<+T> = None | Some(value: T)

  /** Either a value or the failure that the Java code would throw or return. */
  datatype Result<+T, +E> = Success(value: T) | Failure(error: E)
}
