/** Option and Result, for the values the scripts read with `dict.get` and for
    the outcomes that end in an exception. */
module Wrappers {

  datatype Option<+T> = None | Some(value: T) {
    /** `dict.get(key, default)`: the value, or the default when the key is missing. */
    function GetOr(default: T): T {
      match this
      case Some(v) => v
      case None => default
    }
  }

  datatype Result<+R, +E> = Success(value: R) | Failure(error: E)
}
