/** Option, the stand-in for JavaScript's `undefined`/`null` and for a
    built-in that can fail (a parse that throws, a number that is NaN). */
module Wrappers {

  datatype Option<+T> = None | Some(value: T) {

    /** The value if present, else the given default. */
    function GetOr(default: T): T {
      match this
      case Some(v) => v
      case None => default
    }
  }

  /** The outcome of evaluating a JavaScript expression that may throw. */
  datatype Eval<+T> = Thrown | Returned(value: T)
}
