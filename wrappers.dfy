/** Optional values and the outcome of an operation that may throw. */
module Wrappers {

  datatype Option<+T> = None | Some(value: T) {
    /** The wrapped value, or `default` when there is none. */
    function GetOr(default: T): T {
      match this
      case Some(v) => v
      case None => default
    }
  }

  /** What a JavaScript `throw` carries in this model. */
  datatype Exception =
    | TypeError                    // a property read on `undefined` or `null`
    | Error(message: string)       // `new Error(message)`

  /** A value, or the exception thrown while computing it. */
  datatype Result<+T> = Ok(value: T) | Err(error: Exception)
}
