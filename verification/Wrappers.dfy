/** Optional values and the error results shared by every module. */
module Wrappers {

  datatype Option<+T> = None | Some(value: T) {
    function GetOr(default: T): T {
      match this
      case None => default
      case Some(v) => v
    }
  }

  /** The kinds of `AppError`; messages and driver details are not modelled. */
  datatype AppError = Validation | Internal | Db | LeaseUnavailable

  datatype Result<+T, +E> = Ok(value: T) | Err(error: E)
}
