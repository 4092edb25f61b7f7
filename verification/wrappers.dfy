/** Optional values: the model's stand-in for JavaScript's `null`/`undefined`
    (and, for parsed numbers, for `NaN`). */
module Wrappers {

  datatype Option<+T> = None | Some(value: T) {

    /** The value, or `default` when there is none. */
    function GetOr(default: T): T {
      match this
      case Some(v) => v
      case None => default
    }
  }
}
