/** Option and Result values, used where the source returns null or throws. */
module Wrappers {

  /** A value that may be absent: Kotlin's `T?` / Java's nullable reference. */
  datatype Option<+T> = None | Some(value: T)

  /** The outcome of an operation that either returns a value or throws. */
  datatype Result<+T, +E> = Success(value: T) | Failure(error: E)
}
