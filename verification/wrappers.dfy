/** Optional values, used where the scraper returns "nothing" (a missing map
    entry, a regular-expression miss, a record dropped by a recovered panic). */
module Wrappers {

  datatype Option<+T> = None | Some(value: T) {

    /** The wrapped value, or `default` when there is none. */
    function GetOr(default: T): T {
      match this
      case Some(v) => v
      case None => default
    }
  }
}
