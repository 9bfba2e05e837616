/** Optional values, used for JavaScript's `undefined` / `null` and for absent fields, and thrown values. */
module Wrappers {

  datatype Option<+T> = None | Some(value: T) {

    /** The value, or `default` when there is none (JavaScript's `x ?? default`). */
    function GetOr(default: T): T {
      match this
      case Some(v) => v
      case None => default
    }
  }

  /** A thrown JavaScript value: an `Error` with its message, or anything else. */
  datatype Thrown = ErrorWithMessage(message: string) | NotAnError

  /** `e instanceof Error ? e.message : fallback`. */
  function MessageOr(t: Thrown, fallback: string): (m: string)
    ensures t.ErrorWithMessage? ==> m == t.message
    ensures t.NotAnError? ==> m == fallback
  {
    match t
    case ErrorWithMessage(msg) => msg
    case NotAnError => fallback
  }

  /** How an awaited caller-supplied promise (an `onSubmit`) settled. */
  datatype Settled = Resolved | Rejected(thrown: Thrown)
}
