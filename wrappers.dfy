/** Option and Result, used for pandas' missing values (NaN, None) and for the
    exceptions the dashboard's pipelines can raise. */
module Wrappers {

  datatype Option<+T> = None | Some(value: T)

  datatype Result<+T, +E> = Success(value: T) | Failure(error: E)
}
