/** What a `fetch` call hands back to the components. The network itself is outside the model:
    every handler receives the outcome of its request as a value of these types. */
module Http {

  datatype Option<T> = None | Some(value: T)

  /** The result of `await response.json()`: either it throws (a body that is not JSON), or it
      gives an object whose `success` field is read for truthiness and whose `error` and `message`
      fields are interpolated into status text (JavaScript prints a missing field as `undefined`). */
  datatype Json = Unparseable(reason: string) | Parsed(success: bool, error: string, message: string)

  /** The outcome of `await fetch(...)`: the promise rejects with an error whose `message` is
      `reason`, or it resolves to a response with its `ok` flag, `statusText` and body. */
  datatype Reply = Threw(reason: string) | Responded(ok: bool, statusText: string, body: Json)

  /** The server reported success: a response whose body parsed with a truthy `success`, whatever
      its HTTP status. */
  predicate ReportsSuccess(reply: Reply) {
    reply.Responded? && reply.body.Parsed? && reply.body.success
  }

  /** The `error.message` that reaches a `catch` when `response.json()` is awaited after a
      resolved fetch, or `None` when the body parsed. */
  function JsonFailure(r: Reply): (m: Option<string>)
    ensures m.Some? <==> r.Threw? || r.body.Unparseable?
  {
    match r
    case Threw(reason) => Some(reason)
    case Responded(_, _, Unparseable(reason)) => Some(reason)
    case Responded(_, _, Parsed(_, _, _)) => None
  }
}
