/** Option and Result types used for the symbol table's exceptions and null returns. */
module Wrappers {

  /** A value or nothing; stands for a Java reference that may be null. */
  datatype Option<+T> = None | Some(value: T)

  /** A successful value or an error; stands for a Java method that may throw. */
  datatype Result<+T, +E> = Success(value: T) | Failure(error: E)
}
