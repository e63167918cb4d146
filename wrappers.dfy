/** Optional values: the model's rendering of Python's `None`. */
module Wrappers {

  datatype Option<+T> = None | Some(value: T) {

    /** The value, or `default` when there is none. */
    function GetOr(default: T): T {
      match this
      case Some(v) => v
      case None => default
    }
  }

  /** Python truthiness of an optional integer column: `None` and `0` are falsy. */
  predicate IntTruthy(o: Option<int>) {
    o.Some? && o.value != 0
  }

  /** Python's `s or d` on a string, where the empty string stands for both `None` and `""`. */
  function StrOr(s: string, d: string): string {
    if s != "" then s else d
  }
}
