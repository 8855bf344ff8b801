/** Optional values, results, and the JavaScript truthiness rules the
    recruiter tool relies on when it writes `x || fallback` or `if (!x)`. */
module Options {

  /** A field that may be absent (`undefined` in the source). */
  datatype Option<+T> = None | Some(value: T) {
    function GetOr(default: T): T {
      match this
      case Some(v) => v
      case None => default
    }
  }

  /** The settlement of a call that either returns a value or throws an
      error carrying a human-readable message. */
  datatype Result<+R, +E> = Success(value: R) | Failure(error: E)

  /** A string is truthy in JavaScript exactly when it is non-empty. */
  predicate Truthy(s: string) {
    s != ""
  }

  /** An optional string is truthy when it is present and non-empty. */
  predicate Given(o: Option<string>) {
    o.Some? && Truthy(o.value)
  }

  /** `!!flag` on an optional boolean: only a present `true` is truthy. */
  predicate Flag(o: Option<bool>) {
    o == Some(true)
  }

  /** JavaScript `s || fallback` on a string. */
  function Or(s: string, fallback: string): (r: string)
    ensures Truthy(s) ==> r == s
    ensures !Truthy(s) ==> r == fallback
  {
    if s != "" then s else fallback
  }

  /** JavaScript `o || fallback` on an optional string. */
  function OrElse(o: Option<string>, fallback: string): (r: string)
    ensures Given(o) ==> r == o.value
    ensures !Given(o) ==> r == fallback
  {
    if Given(o) then o.value else fallback
  }
}
