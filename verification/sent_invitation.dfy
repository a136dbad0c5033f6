/** The `sent-invitation` edge function: the invite handler without CORS
    support and with plain-text error bodies. */
module SentInvitation {
  import opened Wrappers
  import opened Json
  import opened Http
  import SendInvitation

  const JsonHeaders: seq<Header> := [("Content-Type", "application/json")]

  /** One invocation of the handler; the method is never inspected. */
  function Handle(req: Request, reply: ProviderReply): (run: HandlerRun)
    // A missing or falsy email is refused as plain text before any provider call.
    ensures !Truthy(EmailOf(req.body)) ==>
      run == HandlerRun(None, Response(400, [], PlainText(JString("Missing email"))))
    // Otherwise the provider is called exactly once.
    ensures Truthy(EmailOf(req.body)) ==> run.invite == Some(InviteCallFor(req.body))
    // A provider failure is returned as plain text with the provider's status.
    ensures run.invite.Some? && !IsOk(reply) ==>
      run.response == Response(reply.status, [], PlainText(ProviderError(reply.body)))
    // A provider success returns the JSON document wrapping the provider's data.
    ensures run.invite.Some? && IsOk(reply) ==>
      run.response == Response(DefaultStatus, JsonHeaders, JsonText(InvitedDocument(reply.body)))
  {
    if !Truthy(EmailOf(req.body)) then
      HandlerRun(None, Response(400, [], PlainText(JString("Missing email"))))
    else
      var call := InviteCallFor(req.body);
      if !IsOk(reply) then
        HandlerRun(Some(call), Response(reply.status, [], PlainText(ProviderError(reply.body))))
      else
        HandlerRun(Some(call), Response(DefaultStatus, JsonHeaders, JsonText(InvitedDocument(reply.body))))
  }

  /** There is no preflight branch: the outcome does not depend on the
      method, so an OPTIONS request is handled as an invite request. */
  lemma MethodIgnored(req: Request, verb: string, reply: ProviderReply)
    ensures Handle(Request(verb, req.body), reply) == Handle(req, reply)
  {
  }

  /** On every request that is not a preflight, both edge functions make the
      same provider call and answer with the same status code; they differ
      only in headers and in how errors are written. */
  lemma AgreesWithSendInvitation(req: Request, reply: ProviderReply)
    requires req.verb != "OPTIONS"
    ensures Handle(req, reply).invite == SendInvitation.Handle(req, reply).invite
    ensures Handle(req, reply).response.status == SendInvitation.Handle(req, reply).response.status
    ensures Handle(req, reply).response.body.PlainText? <==>
            SendInvitation.Handle(req, reply).response.status != DefaultStatus
              || SendInvitation.Handle(req, reply).response.body != JsonText(InvitedDocument(reply.body))
  {
  }
}
