/**
 The few JavaScript value notions the application's decisions depend on:
 `null`/`undefined` as an `Option`, truthiness of strings and numbers, and the
 `err instanceof Error ? err.message : fallback` pattern used in catch blocks.
 */
module Js {

  /** `None` stands for `null` or `undefined`. */
  datatype Option<+T> = None | Some(value: T) {

    function GetOr(default: T): T
    {
      match this
      case Some(v) => v
      case None => default
    }
  }

  /** A string-or-null is truthy when it is present and non-empty. */
  predicate Truthy(s: Option<string>)
  {
    s.Some? && s.value != ""
  }

  /** A number-or-null is truthy when it is present and non-zero (NaN is not modelled). */
  predicate TruthyNumber(n: Option<int>)
  {
    n.Some? && n.value != 0
  }

  /** A value caught by a `catch` clause: an `Error` instance carries a message, anything else does not. */
  datatype Thrown = ErrorInstance(message: string) | OtherValue

  /** `err instanceof Error ? err.message : fallback` */
  function MessageOr(err: Thrown, fallback: string): (m: string)
    ensures err.ErrorInstance? ==> m == err.message
    ensures err.OtherValue? ==> m == fallback
  {
    match err
    case ErrorInstance(msg) => msg
    case OtherValue => fallback
  }
}
