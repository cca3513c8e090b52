/** Option and Result, the failure-carrying values used throughout the model. */
module Wrappers {

  datatype Option<+T> = None | Some(value: T)

  datatype Result<+R, +E> = Success(value: R) | Failure(error: E)

  /** A Go slice as it reaches the JSON encoder: `nil` encodes as `null`, an empty slice as `[]`. */
  datatype Slice<+T> = Nil | Items(items: seq<T>)
}
