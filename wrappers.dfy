/** Optional values (JavaScript's `undefined`/`null` versus a value) and
    success/failure results (a returned value versus a thrown error). */
module Wrappers {

  datatype Option<+T> = None | Some(value: T) {
    function GetOr(default: T): T {
      match this
      case Some(v) => v
      case None => default
    }
  }

  datatype Result<+R, +E> = Ok(value: R) | Err(error: E)
}
