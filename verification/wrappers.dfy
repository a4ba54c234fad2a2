/** The optional value used wherever the crawler either has something or has nothing
    (a fetch that raised, a missing configuration key, a link that could not be resolved). */
module Wrappers {

  datatype Option<+T> = None | Some(value: T) {

    /** The value, or `default` when there is none. */
    function GetOr(default: T): T {
      match this
      case Some(v) => v
      case None => default
    }
  }
}
