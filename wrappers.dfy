/** Optional values and results with an error side, used in place of Java's
    null references and exceptions. */
module Wrappers {

  /** `None` stands for a Java `null` (or an empty `Optional`). */
  datatype Option<+T> = None | Some(value: T)

  /** `Failure` stands for an exception thrown out of the modelled call. */
  datatype Result<+T, +E> = Success(value: T) | Failure(error: E)
}
