/** Optional values: the model's stand-in for Python's `None` and SQL `NULL`. */
module Wrappers {

  datatype Option<+T> = None | Some(value: T) {

    /**
     * The value, or `default` when there is none (`x if x is not None else default`).
     * With an empty default this is also Python's `x or ""`; with any other default the
     * two differ on an empty value.
     */
    function GetOr(default: T): T {
      match this
      case Some(v) => v
      case None => default
    }
  }
}
