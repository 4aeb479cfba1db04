/** The optional value every other module uses. */
module Wrappers {

  /** A value that may be missing: a SQL NULL, an absent key, a lookup miss. */
  datatype Option<+T> = None | Some(value: T) {

    /** The value, or `default` when missing (the source's `x ?? default`). */
    function GetOr(default: T): T {
      match this
      case Some(v) => v
      case None => default
    }
  }
}
