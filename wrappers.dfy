/** The optional value used wherever the form deals with something that may be absent
    (the editing target, the auth token, the `msg` field of an error body). */
module Wrappers {

  datatype Option<+T> = None | Some(value: T) {

    /** The value, or `default` when absent (the `x || default` idiom for one value). */
    function GetOr(default: T): T {
      match this
      case Some(v) => v
      case None => default
    }
  }
}
