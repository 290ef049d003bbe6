/** Optional values (Java's nullable references) and results (a value or the exception raised). */
module Wrappers {

  /** `None` stands for Java's `null`. */
  datatype Option<+T> = None | Some(value: T)

  /** `Err` stands for an exception that the Java code raises or propagates. */
  datatype Result<+T, +E> = Ok(value: T) | Err(error: E)
}
