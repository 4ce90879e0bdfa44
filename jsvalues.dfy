/** Values as the browser code sees them: possibly-missing JSON fields, outcomes that
    may have thrown, and JavaScript truthiness of strings. */
module JsValues {

  /** A JSON field that may be absent (`undefined` or `null`); everywhere this type is
      used the two behave alike. */
  datatype Option<+T> = None | Some(value: T)

  /** The outcome of something that may throw: a value, or an `Error` with its message. */
  datatype Result<+T> = Success(value: T) | Failure(message: string)

  /** JavaScript truthiness of a possibly-missing string: present and not "". */
  predicate Truthy(s: Option<string>) {
    s.Some? && s.value != ""
  }

  /** The expression `s || fallback` for a possibly-missing string. */
  function Or(s: Option<string>, fallback: string): string {
    if Truthy(s) then s.value else fallback
  }

  /** `s || fallback` is the string itself when it is truthy and the fallback otherwise;
      with a non-empty fallback it is never empty. */
  lemma OrIsTruthyValueOrFallback(s: Option<string>, fallback: string)
    ensures Truthy(s) ==> Or(s, fallback) == s.value
    ensures !Truthy(s) ==> Or(s, fallback) == fallback
    ensures fallback != "" ==> Or(s, fallback) != ""
  {
  }
}
