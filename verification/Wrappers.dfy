/** The usual optional value. */
module Wrappers {

  datatype Option<+T> = None | Some(value: T) {

    function GetOr(default: T): T {
      match this
      case None => default
      case Some(v) => v
    }
  }
}
