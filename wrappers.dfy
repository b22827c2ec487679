/** The optional value used throughout the model for JavaScript's `null`/`undefined`. */
module Wrappers {

  datatype Option<+T> = None | Some(value: T) {

    /** The wrapped value, or `d` when there is none (JavaScript's `x ?? d`). */
    function GetOr(d: T): T {
      match this
      case Some(v) => v
      case None => d
    }
  }

  /** A JavaScript string is truthy when it is present and non-empty. */
  predicate Truthy(s: Option<string>) {
    s.Some? && s.value != ""
  }

  /** A JavaScript number is truthy when it is present and non-zero (NaN is not modelled). */
  predicate NumTruthy(x: Option<real>) {
    x.Some? && x.value != 0.0
  }

  /** `xs && xs.length > 0`: an array that is present and has an element. */
  predicate NonEmpty<T>(xs: Option<seq<T>>) {
    xs.Some? && |xs.value| > 0
  }

  /** `xs || []`: the list, or the empty list when it is missing. */
  function ListOrEmpty<T>(xs: Option<seq<T>>): seq<T> {
    xs.GetOr([])
  }

  /** `s || ""`: the string, or the empty string when it is missing. */
  function OrEmpty(s: Option<string>): string {
    s.GetOr("")
  }
}
