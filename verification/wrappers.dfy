/** Optional values and results with an error, as used by every module of the model. */
module Wrappers {

  /** A value that may be absent: JavaScript `null` / `undefined` for one field. */
  datatype Option<+T> = None | Some(value: T) {

    /** The wrapped value, or `default` when absent. */
    function GetOr(default: T): T {
      match this
      case Some(v) => v
      case None => default
    }
  }

  /** Either a computed value or the reason the computation was refused. */
  datatype Result<+R, +E> = Success(value: R) | Failure(error: E)
}
