/** The `send-invitation` edge function: answers CORS preflights and turns
    an invite request into one call to the provider's invite endpoint. */
module SendInvitation {
  import opened Wrappers
  import opened Json
  import opened Http

  /** Headers added to every response. The preflight answer carries only
      these; it names no allowed methods. */
  const CorsHeaders: seq<Header> := [
    ("Access-Control-Allow-Origin", "*"),
    ("Access-Control-Allow-Headers", "authorization, x-client-info, apikey, content-type")
  ]

  const JsonHeaders: seq<Header> := [("Content-Type", "application/json")] + CorsHeaders

  /** One invocation of the handler. `reply` is what the provider would
      answer; it matters only when the provider is called. */
  function Handle(req: Request, reply: ProviderReply): (run: HandlerRun)
    // A preflight gets an empty default-status response with the CORS headers.
    ensures req.verb == "OPTIONS" ==>
      run == HandlerRun(None, Response(DefaultStatus, CorsHeaders, NoBody))
    // A missing or falsy email is refused before the provider is called.
    ensures req.verb != "OPTIONS" && !Truthy(EmailOf(req.body)) ==>
      run == HandlerRun(None, Response(400, JsonHeaders, JsonText(ErrorDocument(JString("Missing email")))))
    // Otherwise the provider is called exactly once, with the request's email.
    ensures req.verb != "OPTIONS" && Truthy(EmailOf(req.body)) ==>
      run.invite == Some(InviteCallFor(req.body))
    // A provider failure is forwarded with the provider's status code.
    ensures run.invite.Some? && !IsOk(reply) ==>
      run.response == Response(reply.status, JsonHeaders, JsonText(ErrorDocument(ProviderError(reply.body))))
    // A provider success wraps the provider's data.
    ensures run.invite.Some? && IsOk(reply) ==>
      run.response == Response(DefaultStatus, JsonHeaders, JsonText(InvitedDocument(reply.body)))
  {
    if req.verb == "OPTIONS" then
      HandlerRun(None, Response(DefaultStatus, CorsHeaders, NoBody))
    else if !Truthy(EmailOf(req.body)) then
      HandlerRun(None, Response(400, JsonHeaders, JsonText(ErrorDocument(JString("Missing email")))))
    else
      var call := InviteCallFor(req.body);
      if !IsOk(reply) then
        HandlerRun(Some(call), Response(reply.status, JsonHeaders, JsonText(ErrorDocument(ProviderError(reply.body)))))
      else
        HandlerRun(Some(call), Response(DefaultStatus, JsonHeaders, JsonText(InvitedDocument(reply.body))))
  }

  /** Every response, preflight or not, carries the CORS headers, and every
      non-preflight response also declares a JSON body. */
  lemma EveryResponseHasCors(req: Request, reply: ProviderReply)
    ensures forall h :: h in CorsHeaders ==> h in Handle(req, reply).response.headers
    ensures req.verb != "OPTIONS" ==>
      ("Content-Type", "application/json") in Handle(req, reply).response.headers
  {
    var hs := Handle(req, reply).response.headers;
    assert hs == CorsHeaders || hs == JsonHeaders;
    assert JsonHeaders[0] == ("Content-Type", "application/json");
    forall h | h in CorsHeaders ensures h in hs {
      if hs == JsonHeaders {
        assert JsonHeaders[1..] == CorsHeaders;
      }
    }
  }

  /** An error response always names a non-empty (truthy) error, and its
      status is the provider's exactly when the provider was called. */
  lemma ErrorsAreExplained(req: Request, reply: ProviderReply)
    requires req.verb != "OPTIONS"
    requires !(Truthy(EmailOf(req.body)) && IsOk(reply))
    ensures Handle(req, reply).response.body.JsonText?
    ensures Truthy(Field(Handle(req, reply).response.body.value, "error"))
    ensures Handle(req, reply).response.status == (if Truthy(EmailOf(req.body)) then reply.status else 400)
  {
  }
}
