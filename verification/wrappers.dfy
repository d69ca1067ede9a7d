/** The Option type for parses that may fail. */
module Wrappers {

  /** The result of a parse that may fail: `None` is what Kotlin's `toIntOrNull` reports
      as `null`. */
  datatype Option<+T> = None | Some(value: T) {

    /** The wrapped value, or `default` when there is none (Kotlin's `?:` operator). */
    function GetOr(default: T): (r: T)
      ensures Some? ==> r == value
      ensures None? ==> r == default
    {
      match this
      case Some(v) => v
      case None => default
    }
  }
}
