/** Optional values and results shared by every module of the model.
    `None` stands for JavaScript's `null`/`undefined` and PHP's `null`. */
module Wrappers {

  datatype Option<+T> = None | Some(value: T) {

    /** The wrapped value, or `default` when there is none. */
    function GetOr(default: T): T {
      match this
      case Some(v) => v
      case None => default
    }
  }

  /** `Err` models an exception thrown by the source (its message is kept). */
  datatype Result<+T> = Ok(value: T) | Err(error: string)
}
