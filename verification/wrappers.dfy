/** Optional values, used wherever the modelled code may find nothing
    (a missing dictionary key, a regex that does not match, a failed parse). */
module Wrappers {

  datatype Option<+T> = None | Some(value: T) {

    /** The wrapped value, or `default` when there is none (Python's `x or default`
        and `d.get(k, default)` patterns). */
    function GetOr(default: T): T {
      match this
      case Some(v) => v
      case None => default
    }
  }
}
