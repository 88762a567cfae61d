/** Optional values and results with an error, shared by the routing and export models. */
module Wrappers {

  /** An optional value: a log line that parsed (`Some`) or one that did not (`None`). */
  datatype Option<+T> = None | Some(value: T)

  /** A value or the error the source would raise instead of returning. */
  datatype Result<+R, +E> = Success(value: R) | Failure(error: E)
}
