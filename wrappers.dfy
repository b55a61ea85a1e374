/** The optional-value wrapper shared by the reporter models. */
module Wrappers {

  /** A value that may be absent: JavaScript's `undefined` or a falsy field. */
  datatype Option<+T> = None | Some(value: T) {

    /** The wrapped value, or `default` when there is none. */
    function GetOr(default: T): T {
      match this
      case Some(v) => v
      case None => default
    }
  }
}
