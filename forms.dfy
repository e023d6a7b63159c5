/** What the sign-up and login forms share: the per-field error object, in
    which a missing key is `undefined` and `''` shows no message. */
module Forms {
  import opened Wrappers
  import opened Text

  /** How a form's request ended: the server answered (`response.ok` and the
      body's `error` field), or the request itself failed with a message. */
  datatype Reply = Answered(ok: bool, error: Option<string>) | Failed(message: string)

  predicate Succeeded(reply: Reply) {
    reply.Answered? && reply.ok
  }

  /** The message shown above a form whose request did not succeed:
      `data.error || fallback` for a server refusal, else the failure's own. */
  function FailureMessage(reply: Reply, fallback: string): (m: string)
    ensures reply.Answered? && Truthy(reply.error) ==> m == reply.error.value
    ensures reply.Answered? && !Truthy(reply.error) ==> m == fallback
    ensures reply.Failed? ==> m == reply.message
  {
    match reply
    case Answered(_, error) => Or(error, Some(fallback)).value
    case Failed(message) => message
  }

  /** The error object after typing into `field`: a message that is showing
      there is blanked to `''`; a missing key stays missing. */
  function ClearError<F>(errors: map<F, string>, field: F): (r: map<F, string>)
    ensures r.Keys == errors.Keys
    ensures field in errors ==> r[field] == ""
    ensures forall g :: g in errors && g != field ==> r[g] == errors[g]
  {
    if field in errors && errors[field] != "" then errors[field := ""] else errors
  }
}
