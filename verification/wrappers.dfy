/** Option, the model's stand-in for Python's `None` and for JavaScript's
    missing values. */
module Wrappers {

  datatype Option<+T> = None | Some(value: T) {

    /** The wrapped value, or `default` when there is none (Python's `x or default`
        for values that are never falsy themselves). */
    function GetOr(default: T): T {
      match this
      case Some(v) => v
      case None => default
    }
  }
}
