/** Small value types shared by every module: optional values, the outcome of a
    call that may throw, and JavaScript truthiness for optional strings. */
module Base {

  datatype Option<+T> = None | Some(value: T)

  /** The outcome of an awaited call: it either returns a value or throws.
      Error details never influence the control flow of the modelled code. */
  datatype Outcome<+T> = Ok(value: T) | Threw

  /** `!s` in JavaScript for a value typed string: true for undefined and for "". */
  predicate Falsy(s: Option<string>)
  {
    s.None? || s.value == ""
  }

  /** `s || fallback` for an optional string. */
  function OrElse(s: Option<string>, fallback: string): (r: string)
    ensures Falsy(s) ==> r == fallback
    ensures !Falsy(s) ==> r == s.value
  {
    if Falsy(s) then fallback else s.value
  }
}
