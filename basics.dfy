/** Small value types shared by the other modules. */
module Basics {

  /** An optional value: Swift's `T?`. */
  datatype Option<+T> = None | Some(value: T)

  /** The outcome of an operation that either yields a value or reports why it could not. */
  datatype Result<+T, +E> = Success(value: T) | Failure(error: E)

  /** One octet, as held in Foundation's `Data`. */
  type byte = x: int | 0 <= x < 256
}
