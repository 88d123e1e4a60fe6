/** Option and Result, used for serde_json's `as_str`/`as_array` and for
    operations that can fail. */
module Wrappers {

  datatype Option<+T> = None | Some(value: T)

  datatype Result<+T, +E> = Success(value: T) | Failure(error: E)
}
