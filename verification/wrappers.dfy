/** Small helper types and functions shared by every module of the model. */
module Wrappers {

  /** A value that may be absent: `undefined`, `null` or a falsy query field. */
  datatype Option<+T> = None | Some(value: T) {

    /** Returns the value, or `default` when there is none (the `x || d` idiom). */
    function GetOr(default: T): T {
      match this
      case Some(v) => v
      case None => default
    }
  }

  function Min(a: int, b: int): int {
    if a <= b then a else b
  }

  function Max(a: int, b: int): int {
    if a >= b then a else b
  }
}
