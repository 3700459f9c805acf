/** Optional values and the outcome of a call into the REST store. */
module Wrappers {

  /** A value that may be absent: JavaScript's `null` / `undefined`. */
  datatype Option<+T> = None | Some(value: T) {
    /** The value, or `default` when absent. */
    function GetOr(default: T): T
    {
      match this
      case Some(v) => v
      case None => default
    }
  }

  /** What an awaited store call gives back: the response data, or the error
      it threw (its message). */
  datatype Reply<+T> = Ok(value: T) | Err(error: string)
}
