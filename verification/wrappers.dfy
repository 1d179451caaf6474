/** Optional values (the model's stand-in for Python's `None` and
    JavaScript's `null`/`undefined`) and results that carry either a value
    or an error (the model's stand-in for a raised exception). */
module Wrappers {

  datatype Option<+T> = None | Some(value: T) {

    /** The carried value, or `default` when there is none. */
    function GetOr(default: T): T {
      match this
      case Some(v) => v
      case None => default
    }
  }

  datatype Result<+T, +E> = Ok(value: T) | Err(error: E)
}
