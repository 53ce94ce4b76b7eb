/** JavaScript's `null` / `undefined` for a value that may be absent, and loosely typed values. */
module Nullable {

  /** `None` stands for `null` or `undefined`; `Some(v)` for a present value. */
  datatype Option<+T> = None | Some(value: T) {

    /** The value, or `default` when absent (JavaScript's `x || default` on a non-empty value). */
    function GetOr(default: T): T {
      match this
      case Some(v) => v
      case None => default
    }
  }

  /** A value the source expects to be a string: a string, or anything else. */
  datatype Value = Str(str: string) | NotString
}
