/** Option and Result, used for lookups that may miss and for the one error
    the document builder raises. */
module Wrappers {

  datatype Option<+T> = None | Some(value: T)

  datatype Result<+R, +E> = Success(value: R) | Failure(error: E)
}
