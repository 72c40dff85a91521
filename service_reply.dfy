/** What the frontend's service calls hand back, and how the stores turn a
    failed call into an error message. */
module ServiceReply {
  import opened Values

  /** A call's outcome: a response body `{success, data, error}`, or a
      thrown error whose response body may hold an `error` string. */
  datatype Reply<T> =
    | Answered(success: bool, data: Option<T>, error: Option<string>)
    | Thrown(responseError: Option<string>)

  /** `error || fallback`: an absent or empty string falls back. */
  function ErrorText(e: Option<string>, fallback: string): (r: string)
    ensures e.Some? && e.value != "" ==> r == e.value
    ensures e.None? || e.value == "" ==> r == fallback
    ensures fallback != "" ==> r != ""
  {
    if e.Some? && e.value != "" then e.value else fallback
  }

  /** The service's error text, whichever way the failure arrived. Its
      ensures are that definition, one per arm. */
  function ReplyError<T>(reply: Reply<T>): (r: Option<string>)
    ensures reply.Answered? ==> r == reply.error
    ensures reply.Thrown? ==> r == reply.responseError
  {
    match reply
    case Answered(_, _, error) => error
    case Thrown(error) => error
  }

  /** `response.success && response.data`: the flag is set and data came
      back (an empty list or object is data). */
  predicate Delivered<T>(reply: Reply<T>)
    ensures reply.Thrown? ==> !Delivered(reply)
    ensures Delivered(reply) ==> reply.success && reply.data.Some?
  {
    reply.Answered? && reply.success && reply.data.Some?
  }
}
