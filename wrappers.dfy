/** The optional value used wherever the source has `undefined` or a failed lookup. */
module Wrappers {

  datatype Option<+T> = None | Some(value: T) {

    /** `x || fallback` / `x ?? fallback` on an optional value. */
    function GetOr(default: T): T {
      match this
      case Some(v) => v
      case None => default
    }
  }
}
