/** The optional value used throughout the model for JavaScript's `null` /
    `undefined` results and for absent record fields. */
module Wrappers {

  datatype Option<+T> = None | Some(value: T) {

    /** The value, or `default` when there is none (JavaScript's `x ?? default`
        for a field that is either absent or holds a value). */
    function GetOr(default: T): T
    {
      match this
      case Some(v) => v
      case None => default
    }
  }
}
