/** Optional values and results shared by the model of the cfs collector. */
module Wrappers {

  /** An optional value: the absent baseline, the suppressed metric. */
  datatype Option<+T> = None | Some(value: T)

  /** Either a computed value or the error that interrupted its computation. */
  datatype Result<+R, +E> = Success(value: R) | Failure(error: E)
}
