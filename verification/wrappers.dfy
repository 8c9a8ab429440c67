/** The optional value PHP expresses with null. */
module Wrappers {

  datatype Option<+T> = None | Some(value: T) {

    /** PHP's `$x ?: $default` for an object-or-null: objects are truthy. */
    function GetOr(default: T): T {
      match this
      case Some(v) => v
      case None => default
    }
  }
}
