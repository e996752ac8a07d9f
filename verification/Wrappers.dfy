/** Values that may be absent, for the source's `null` and `undefined`. */
module Wrappers {
  datatype Option<+T> = None | Some(value: T) {
    /** The source's `this ?? default`. */
    function GetOr(default: T): T {
      match this
      case Some(v) => v
      case None => default
    }
  }
}
