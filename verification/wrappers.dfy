/** Kotlin's nullable values (`T?`) as an Option. */
module Wrappers {
  datatype Option<+T> = None | Some(value: T) {
    /** `?:` — the value, or a default when it is null. */
    function GetOr(default: T): T {
      match this
      case Some(v) => v
      case None => default
    }
  }
}
