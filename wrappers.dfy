/** Option and Result: the shapes used for missing values and for the
    exceptions the analysis code raises and catches. */
module Wrappers {

  datatype Option<+T> = None | Some(value: T)

  datatype Result<+R, +E> = Success(value: R) | Failure(error: E)
}
