/** Optional values, used wherever the source has `null`/`undefined` or an absent key. */
module Wrappers {

  datatype Option<+T> = None | Some(value: T) {

    /** The value, or `default` when absent (the source's `x ?? default`). */
    function GetOr(default: T): T {
      match this
      case Some(v) => v
      case None => default
    }

    /** `this` when present, otherwise `other`: the field-wise spread `{...other, ...this}`. */
    function Or(other: Option<T>): Option<T> {
      if Some? then this else other
    }
  }
}
