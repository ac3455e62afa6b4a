/** Plain wrapper datatypes for Java's nullable references and exceptions. */
module Results {

  /** A Java reference that may be `null` (`None`). */
  datatype Option<+T> = None | Some(value: T)

  /** A value, or the exception an operation throws instead of returning one. */
  datatype Result<+T, +E> = Success(value: T) | Failure(error: E)

  /** A `void` operation that completes (`Pass`) or throws (`Fail`). */
  datatype Outcome<+E> = Pass | Fail(error: E)
}
