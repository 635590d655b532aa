/** Option and Result, the two failure-carrying shapes the model uses. */
module Wrappers {

  datatype Option<+T> = None | Some(value: T)

  /** `anyhow::Result` and `Result<_, ()>` of the source. */
  datatype Result<+R, +E> = Success(value: R) | Failure(error: E)
}
