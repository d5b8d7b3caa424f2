/** The public site's API helpers: the choice of the API address from the
    build environment, the unwrapping of list replies, and the contact
    submission's fallback reply. `fetch` is a parameter: the parsed reply,
    or `None` when the request or the parsing threw. */
module PublicApi {
  import opened Js
  import opened Table
  import ContactController

  const ProductionApiUrl: string := "https://anuj-verma-portfolio.onrender.com/api"
  const ProductionBaseUrl: string := "https://anuj-verma-portfolio.onrender.com"

  /** The environment value is used when it is set, non-empty and does not
      mention localhost. */
  predicate Usable(env: Option<string>) {
    env.Some? && env.value != "" && !Includes(env.value, "localhost")
  }

  /** `API_URL` and `API_BASE_URL`: the usable environment value, else the
      production address. */
  function ChooseUrl(env: Option<string>, production: string): (r: string)
    ensures Usable(env) ==> r == env.value
    ensures !Usable(env) ==> r == production
    ensures r == production || (env.Some? && r == env.value && !Includes(r, "localhost"))
  {
    if env.Some? && env.value != "" && !Includes(env.value, "localhost") then env.value else production
  }

  // ------------------------------------------------------------------ replies

  /** A list reply as parsed from the body. */
  datatype ListReply<T> = ListReply(success: bool, data: seq<T>)

  /** `fetchProjects` / `fetchSkills`: the list when the reply says success,
      `[]` when it does not or when anything threw. */
  function Unwrap<T>(reply: Option<ListReply<T>>): (r: seq<T>)
    ensures reply.Some? && reply.value.success ==> r == reply.value.data
    ensures reply.None? || !reply.value.success ==> r == []
  {
    match reply
    case None => []
    case Some(body) => if body.success then body.data else []
  }

  /** What the caller sees is either the served list or nothing at all. */
  lemma UnwrapIsAllOrNothing<T>(reply: Option<ListReply<T>>)
    ensures Unwrap(reply) == [] || (reply.Some? && reply.value.success && Unwrap(reply) == reply.value.data)
  {
  }

  /** The body of a contact submission reply. */
  datatype ContactAck = ContactAck(success: bool, message: string)

  const SendFailed: ContactAck := ContactAck(false, "Failed to send message")

  /** `submitContact`: the parsed body, or the fallback when anything threw. */
  function SubmitResult(reply: Option<ContactAck>): (r: ContactAck)
    ensures reply.Some? ==> r == reply.value
    ensures reply.None? ==> !r.success && r.message == "Failed to send message"
  {
    if reply.Some? then reply.value else SendFailed
  }

  /** The body the backend's `submitContact` sends; the text of a
      validation error is a parameter. */
  function ServerAck(reply: ContactController.ContactReply, validationMessage: string): ContactAck {
    if reply.Created? then ContactAck(true, "Message sent successfully!") else ContactAck(false, validationMessage)
  }

  /** The visitor is told of success exactly when the message was stored:
      a rejected message or a failed request shows failure and stores nothing. */
  lemma SuccessMeansStored(t: seq<ContactController.Contact>, id: Id, body: ContactController.Body, now: int,
                           accepts: ContactController.Contact -> bool, validationMessage: string, delivered: bool)
    ensures var (reply, t') := ContactController.SubmitContact(t, id, body, now, accepts);
      var shown := SubmitResult(if delivered then Some(ServerAck(reply, validationMessage)) else None);
      && (shown.success <==> delivered && t' == t + [ContactController.NewContact(id, body, now)])
      && (delivered && !shown.success ==> t' == t)
  {
  }
}
