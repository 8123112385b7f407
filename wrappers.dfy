/** Option and Result, the two failure-carrying datatypes the model uses for nullable
    columns (polars/pandas nulls) and for errors the source raises. */
module Wrappers {

  datatype Option<+T> = None | Some(value: T) {
    function GetOr(default: T): T {
      match this
      case Some(v) => v
      case None => default
    }
  }

  datatype Result<+R, +E> = Success(value: R) | Failure(error: E)
}
