/** Requests, responses and the identity provider's invite endpoint, shared
    by the two invitation edge functions. */
module Http {
  import opened Wrappers
  import opened Json

  type Header = (string, string)

  /** A request as the handler sees it: its HTTP method (`req.method`) and its parsed JSON body. */
  datatype Request = Request(verb: string, body: Json)

  /** What a response carries: nothing, a JSON document, or a JavaScript
      value handed to `new Response` and turned into text by the runtime
      (a string is sent as it is). */
  datatype Body = NoBody | JsonText(value: Json) | PlainText(value: Json)

  datatype Response = Response(status: int, headers: seq<Header>, body: Body)

  /** The status a `Response` gets when none is given. */
  const DefaultStatus := 200

  /** The JSON body posted to the provider's `/auth/v1/invite` endpoint. */
  datatype InviteCall = InviteCall(email: Json, redirectTo: Json)

  /** The provider's answer: its status code and its parsed JSON body. */
  datatype ProviderReply = ProviderReply(status: int, body: Json)

  /** `response.ok` of the Fetch Standard: the status is in 200..299, that
      is, in the 2xx class. */
  predicate IsOk(reply: ProviderReply)
    ensures IsOk(reply) <==> reply.status / 100 == 2
  {
    200 <= reply.status <= 299
  }

  /** Where an invited user lands when the request names no redirect. */
  const DefaultRedirect := "https://tap-magic-dashboard.lovable.app/signin"

  /** What one invocation of a handler did: the provider call it made, if
      any, and the response it returned. */
  datatype HandlerRun = HandlerRun(invite: Option<InviteCall>, response: Response)

  /** The request fields the handlers read: `const { email, redirectTo } = body`. */
  function EmailOf(body: Json): (r: Option<Json>) {
    Field(body, "email")
  }

  /** The provider call for a request whose email is present: the email as
      given, and `redirectTo || DefaultRedirect`. */
  function InviteCallFor(body: Json): (c: InviteCall)
    requires Truthy(EmailOf(body))
    ensures Some(c.email) == EmailOf(body)
    ensures Truthy(Field(body, "redirectTo")) ==> Some(c.redirectTo) == Field(body, "redirectTo")
    ensures !Truthy(Field(body, "redirectTo")) ==> c.redirectTo == JString(DefaultRedirect)
  {
    InviteCall(EmailOf(body).value, OrElse(Field(body, "redirectTo"), JString(DefaultRedirect)))
  }

  /** The provider's error text, `data?.message || "Invite failed"`. */
  function ProviderError(data: Json): (e: Json)
    ensures Truthy(Some(e))
    ensures Truthy(Field(data, "message")) ==> Some(e) == Field(data, "message")
    ensures !Truthy(Field(data, "message")) ==> e == JString("Invite failed")
  {
    OrElse(Field(data, "message"), JString("Invite failed"))
  }

  /** The success document `{ status: "invited", user: data }`. */
  function InvitedDocument(data: Json): (d: Json)
    ensures Field(d, "status") == Some(JString("invited"))
    ensures Field(d, "user") == Some(data)
  {
    var members := [("status", JString("invited")), ("user", data)];
    assert members[..1] == [("status", JString("invited"))];
    assert "user" != "status" by { assert "user"[0] != "status"[0]; }
    assert Lookup(members, "status") == Lookup(members[..1], "status");
    JObject(members)
  }

  /** The document `{ error: e }`. */
  function ErrorDocument(e: Json): (d: Json)
    ensures Field(d, "error") == Some(e)
  {
    JObject([("error", e)])
  }
}
