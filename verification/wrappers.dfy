/** Option and Result: Java's null and thrown exceptions, JavaScript's undefined. */
module Wrappers {

  datatype Option<+T> = None | Some(value: T)

  datatype Result<+R, +E> = Success(value: R) | Failure(error: E)
}
