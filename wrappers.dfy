/** Optional values and the outcome of a call that may raise. */
module Wrappers {

  datatype Option<+T> = None | Some(value: T) {
    function GetOr(default: T): T {
      match this
      case Some(v) => v
      case None => default
    }
  }

  /** What a call that can raise an exception produced: its value, or an
      exception that propagated out of it. */
  datatype Outcome<+T> = Returned(value: T) | Raised
}
