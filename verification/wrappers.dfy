/** Optional values and results with an error text, for the places where the
    JavaScript code yields `undefined` or throws. */
module Wrappers {

  datatype Option<+T> = None | Some(value: T) {
    function GetOr(default: T): T {
      match this
      case Some(v) => v
      case None => default
    }
  }

  datatype Result<+T> = Ok(value: T) | Error(message: string) {
    predicate IsFailure() {
      Error?
    }
  }
}
