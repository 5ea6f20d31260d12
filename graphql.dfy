/**
  The GraphQL proxy route. It accepts only POST, resolves the tenant's
  endpoint from the `host` header on its own (independently of the router),
  requires a query, forwards `{query, variables, operationName}` with the
  caller's `Authorization` header when there is one, and relays the backend's
  status and JSON body. Every failure of the call or of decoding its answer
  becomes one fixed server error.

  The network call is not made here: `upstream` is what the backend would
  answer to the request the proxy sends, and the outcome records whether and
  what the proxy sent.
 */
module GraphqlProxy {
  import opened Options
  import opened Http
  import opened Environment
  import opened DomainResolver
  import opened DomainConfig

  /** The decoded request body; `others` holds any further fields the caller sent. */
  datatype GraphqlBody = GraphqlBody(
    query: Option<string>, variables: Option<Json>, operationName: Option<string>, others: map<string, Json>)

  /** The inbound request; a `body` of None is a body that is null or undefined. */
  datatype ProxyRequest = ProxyRequest(
    verb: string, host: Option<string>, authorization: Option<string>, body: Option<GraphqlBody>)

  /** The JSON body sent upstream: exactly these three fields, an absent one left out. */
  datatype ForwardedBody = ForwardedBody(query: string, variables: Option<Json>, operationName: Option<string>)

  datatype FetchRequest = FetchRequest(url: string, verb: string, headers: map<string, string>, body: ForwardedBody)

  /** What the backend did: answered with a status and a body that did or did not decode as JSON, or failed. */
  datatype FetchReply = Reply(status: int, json: Option<Json>) | NetworkError

  datatype ReplyBody = Message(text: string) | Relayed(json: Json)

  datatype ApiReply = ApiReply(status: int, body: ReplyBody)

  datatype ProxyOutcome = ProxyOutcome(reply: ApiReply, endpointLookup: Option<string>, sent: Option<FetchRequest>)

  const MethodNotAllowed: ApiReply := ApiReply(405, Message("Method not allowed"))
  const QueryRequired: ApiReply := ApiReply(400, Message("GraphQL query is required"))
  const ServerError: ApiReply := ApiReply(500, Message("Erreur serveur"))

  /** `!query` is false: the query is present and not the empty text. */
  predicate HasQuery(body: GraphqlBody)
  {
    body.query.Some? && body.query.value != ""
  }

  /** The headers of the forwarded call: the JSON content type, and the caller's authorization verbatim when it is non-empty. */
  function ForwardHeaders(authorization: Option<string>): (headers: map<string, string>)
    ensures "Content-Type" in headers && headers["Content-Type"] == "application/json"
    ensures "Authorization" in headers <==> authorization.Some? && authorization.value != ""
    ensures "Authorization" in headers ==> headers["Authorization"] == authorization.value
    ensures headers.Keys <= {"Content-Type", "Authorization"}
  {
    if authorization.Some? && authorization.value != "" then
      map["Content-Type" := "application/json", "Authorization" := authorization.value]
    else
      map["Content-Type" := "application/json"]
  }

  /** The route handler. */
  function Handle(req: ProxyRequest, env: Settings, upstream: FetchReply): (out: ProxyOutcome)
    ensures req.verb != "POST" ==> out == ProxyOutcome(MethodNotAllowed, None, None)
    ensures req.verb == "POST" ==> out.endpointLookup == Some(ResolveDomain(req.host))
    ensures out.sent.Some? <==> req.verb == "POST" && req.body.Some? && HasQuery(req.body.value)
    ensures req.verb == "POST" && req.body.Some? && !HasQuery(req.body.value) ==> out.reply == QueryRequired
    ensures req.verb == "POST" && req.body.None? ==> out.reply == ServerError
    ensures out.sent.Some? ==>
      var body := req.body.value;
      out.sent.value == FetchRequest(
        GetApiEndpoint(ResolveDomain(req.host), env.wordpressApiUrl), "POST",
        ForwardHeaders(req.authorization),
        ForwardedBody(body.query.value, body.variables, body.operationName))
    ensures out.sent.Some? && upstream.Reply? && upstream.json.Some? ==>
      out.reply == ApiReply(upstream.status, Relayed(upstream.json.value))
    ensures out.sent.Some? && !(upstream.Reply? && upstream.json.Some?) ==> out.reply == ServerError
  {
    if req.verb != "POST" then
      ProxyOutcome(MethodNotAllowed, None, None)
    else
      var domain := ResolveDomain(req.host);
      var endpoint := GetApiEndpoint(domain, env.wordpressApiUrl);
      match req.body
      case None =>
        // destructuring a null or undefined body throws inside the try block
        ProxyOutcome(ServerError, Some(domain), None)
      case Some(body) =>
        if !HasQuery(body) then
          ProxyOutcome(QueryRequired, Some(domain), None)
        else
          var call := FetchRequest(endpoint, "POST", ForwardHeaders(req.authorization),
                                   ForwardedBody(body.query.value, body.variables, body.operationName));
          var reply :=
            match upstream
            case Reply(status, Some(json)) => ApiReply(status, Relayed(json))
            case _ => ServerError;
          ProxyOutcome(reply, Some(domain), Some(call))
  }

  // ---------------------------------------------------------------------------
  // Properties of the proxy

  /** The reply to a failed call does not depend on how the call failed. */
  lemma FailureIsOpaque(req: ProxyRequest, env: Settings, u1: FetchReply, u2: FetchReply)
    requires !(u1.Reply? && u1.json.Some?) && !(u2.Reply? && u2.json.Some?)
    ensures Handle(req, env, u1) == Handle(req, env, u2)
  {
  }

  /** Whether and what the proxy sends does not depend on the backend's answer. */
  lemma CallPrecedesAnswer(req: ProxyRequest, env: Settings, u1: FetchReply, u2: FetchReply)
    ensures Handle(req, env, u1).sent == Handle(req, env, u2).sent
    ensures Handle(req, env, u1).endpointLookup == Handle(req, env, u2).endpointLookup
  {
  }

  /** Every reply is one of the three fixed errors or the backend's own status and body. */
  lemma RepliesAreFixedOrRelayed(req: ProxyRequest, env: Settings, upstream: FetchReply)
    ensures var r := Handle(req, env, upstream).reply;
      r in {MethodNotAllowed, QueryRequired, ServerError} ||
      (upstream.Reply? && upstream.json.Some? && r == ApiReply(upstream.status, Relayed(upstream.json.value)))
  {
  }

  /** An upstream error status, with its payload, passes through unmodified. */
  lemma UpstreamErrorsPassThrough(req: ProxyRequest, env: Settings, status: int, json: Json)
    requires req.verb == "POST" && req.body.Some? && HasQuery(req.body.value)
    requires !IsOk(status)
    ensures Handle(req, env, Reply(status, Some(json))).reply == ApiReply(status, Relayed(json))
  {
  }

  /** The tenant endpoint is the proxy's own resolution of `host`, port dropped. */
  lemma ForwardsToTenant(req: ProxyRequest, env: Settings, upstream: FetchReply, domain: string, port: string)
    requires req.verb == "POST" && req.body.Some? && HasQuery(req.body.value)
    requires req.host == Some(domain + ":" + port)
    requires port != [] && forall j :: 0 <= j < |port| ==> Text.IsDigit(port[j])
    ensures Handle(req, env, upstream).sent.value.url == GetApiEndpoint(domain, env.wordpressApiUrl)
  {
    StripPortOfHostAndPort(domain, port);
  }
}
