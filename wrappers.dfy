/** Optional values, for a lookup that may find nothing (a missing storage key,
    a missing mark, a JSON parse that throws). */
module Wrappers {

  datatype Option<+T> = None | Some(value: T) {

    /** The value held, or `default` when there is none. */
    function GetOr(default: T): T {
      match this
      case Some(v) => v
      case None => default
    }
  }
}
