/**
 * Shapes shared by every HTTP exchange of the client: what goes over the wire and
 * what comes back (a value, or an axios-style failure).
 */
module Http {
  import opened Wrappers

  /** A JSON request or response body, as a list of string fields. */
  datatype Payload = NoPayload | Fields(entries: seq<(string, string)>)

  datatype Verb = Get | Post | Put | Delete

  /** A request as it leaves the browser: verb, absolute URL, headers and body. */
  datatype Outbound = Outbound(verb: Verb, url: string, headers: map<string, string>, body: Payload)

  /** A call made through the shared client: a path relative to the API base URL and a body. */
  datatype ApiCall = ApiCall(verb: Verb, path: string, body: Payload)

  /** `err.response` of an axios error: the status and the `message` field of the body, if any. */
  datatype ErrorResponse = ErrorResponse(status: int, message: Option<string>)

  /**
   * An axios-style rejection. `response` is present when the server answered with a
   * non-2xx status; `requestSent` is `!!err.request` (a request left but nothing came
   * back); `message` is `err.message`.
   */
  datatype Failure = Failure(response: Option<ErrorResponse>, requestSent: bool, message: string)

  /** What an awaited request resolves to (Ok) or rejects with (Fail). */
  datatype HttpResult<+T> = Ok(value: T) | Fail(failure: Failure)

  /** A failure that carries an HTTP status. */
  predicate HasStatus(f: Failure, status: int) {
    f.response.Some? && f.response.value.status == status
  }

  /** The `message` field of the server's error body when the server answered and the
      field is a non-empty string, otherwise the fallback. */
  function ServerMessageOr(f: Failure, fallback: string): (m: string)
    ensures m == fallback || (f.response.Some? && Some(m) == f.response.value.message)
    ensures f.response.Some? && Truthy(f.response.value.message) ==> m == f.response.value.message.value
    ensures !(f.response.Some? && Truthy(f.response.value.message)) ==> m == fallback
    ensures fallback != "" ==> m != ""
  {
    if f.response.Some? && Truthy(f.response.value.message) then f.response.value.message.value
    else fallback
  }
}
