/** Small shared datatypes: an optional value and the outcome of an HTTP handler. */
module Wrappers {

  /** A value that may be absent: a missing request field, a failed oracle call. */
  datatype Option<+T> = None | Some(value: T)

  /** JavaScript's `value || fallback` on a request field that is a string or
      absent: the empty string is falsy too. */
  function OrDefault(value: Option<string>, fallback: string): (r: string)
    ensures value.Some? && value.value != "" ==> r == value.value
    ensures value.None? || value.value == "" ==> r == fallback
  {
    if value.Some? && value.value != "" then value.value else fallback
  }

  /** What an HTTP handler answers: a JSON body with status 200, or an error with status 400 or 500. */
  datatype Reply<+T> = Ok(body: T) | BadRequest(error: string) | ServerError(error: string)
}
