/** Failure-carrying shapes shared by the rest of the model. */
module Prelude {

  /** A value that may be absent, as `dict.get` without a default returns `None`. */
  datatype Option<+T> = None | Some(value: T) {

    /** The value, or `default` when absent: `dict.get(key, default)`. */
    function GetOr(default: T): T {
      match this
      case Some(v) => v
      case None => default
    }
  }

  /** Either a value or the exception raised while computing it. */
  datatype Result<+T, +E> = Success(value: T) | Failure(error: E)
}
