/** The optional-value type used wherever the source has `T | null`,
    an optional prop or the result of `Array.prototype.find`. */
module Wrappers {
  datatype Option<+T> = None | Some(value: T) {
    /** The value, or `default` when there is none (the `??` fallback). */
    function GetOr(default: T): T {
      match this
      case Some(v) => v
      case None => default
    }
  }
}
