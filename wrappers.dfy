/** Optional values and results, the stand-ins for Python's `None` and raised exceptions. */
module Wrappers {

  datatype Option<+T> = None | Some(value: T)
  {
    /** `x if x is not None else d`, the shape of `dict.get(key, d)`. */
    function GetOr(d: T): T
    {
      match this
      case Some(v) => v
      case None => d
    }
  }

  /** A computation that either produced a value or raised with a message. */
  datatype Result<+T> = Success(value: T) | Failure(error: string)
}
