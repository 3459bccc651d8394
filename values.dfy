/**
 * Small value types shared by the backend and frontend models: optional
 * values (Python `None`, JavaScript `undefined`/`null`), results that carry
 * an error instead of raising, and the truthiness of an optional string,
 * which Python (`if type and value`) and JavaScript (`a || b`) agree on.
 */
module Values {

  datatype Option<+T> = None | Some(value: T)

  datatype Result<+R, +E> = Success(value: R) | Failure(error: E)

  /** A string value is truthy exactly when it is present and not empty. */
  predicate NonEmpty(s: Option<string>)
  {
    s.Some? && s.value != ""
  }

  /** JavaScript `s || fallback` for a string-valued property. */
  function OrElse(s: Option<string>, fallback: string): (r: string)
    ensures NonEmpty(s) ==> r == s.value
    ensures !NonEmpty(s) ==> r == fallback
    ensures fallback != "" ==> r != ""
  {
    if NonEmpty(s) then s.value else fallback
  }
}
