/** Option and Result values, and JavaScript's `||` on optional strings. */
module Wrappers {

  datatype Option<+T> = None | Some(value: T)

  /** A value, or the message of the error the source throws instead. */
  datatype Result<+T> = Ok(value: T) | Err(message: string)

  /** JavaScript truthiness of an optional string: null, undefined and "" are falsy. */
  predicate Truthy(x: Option<string>) {
    x.Some? && x.value != ""
  }

  /** `x || fallback` for an optional string `x`. */
  function OrElse(x: Option<string>, fallback: string): (r: string)
    ensures Truthy(x) ==> r == x.value
    ensures !Truthy(x) ==> r == fallback
    ensures r == "" ==> !Truthy(x) && fallback == ""
  {
    if Truthy(x) then x.value else fallback
  }

  /** `x || null`: the empty string becomes absent. */
  function Normalize(x: Option<string>): (r: Option<string>)
    ensures r.Some? <==> Truthy(x)
    ensures r.Some? ==> r == x
  {
    if Truthy(x) then x else None
  }
}
