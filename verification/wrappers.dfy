/** The optional value used wherever the monitor can come up empty:
    a line that does not extract, a memory figure with no denominator. */
module Wrappers {

  datatype Option<+T> = None | Some(value: T) {

    /** The carried value, or `default` when there is none. */
    function GetOr(default: T): T {
      match this
      case Some(v) => v
      case None => default
    }
  }
}
