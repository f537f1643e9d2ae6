/** Option and Result datatypes used for the optional fields of requests and
    records and for the error paths the Python back end raises on. */
module Wrappers {

  datatype Option<+T> = None | Some(value: T)

  datatype Result<+R, +E> = Success(value: R) | Failure(error: E)
}
