/** A run of the controller: the requests it receives, one after another, on its three routes.
    The controller keeps nothing between requests (its two collaborators are fixed at
    construction), so a run is the requests handled one by one; the lemmas below state what that
    promises about responses and about the calls that reach the client. The client itself is not
    stateless: each request sees it as it answers at that moment. */
module Server {
  import opened Java
  import opened Http
  import opened Upstream
  import opened AppAuth

  /** A request to one of the three routes under `/application`. */
  datatype Request =
    | AuthenticateRequest(appInfo: AppInfo)
    | ValidateTokensRequest(appToken: AppToken)
    | ValidateJwtRequest(jwtInfo: JwtInfo)

  /** Routing: each request goes to the handler of its route, which calls the client at most once. */
  function Handle<R, C>(ctl: AppAuthController<R, C>, req: Request): (h: Handled<R, C>)
    ensures |h.calls| <= 1
    ensures req.AuthenticateRequest? ==> h.calls == [] || h.calls[0].AppAuthenticateCall?
    ensures req.ValidateTokensRequest? ==> h.calls == [ValidateTokensCall(req.appToken.appToken, req.appToken.symphonyToken)]
    ensures req.ValidateJwtRequest? ==> h.calls == [VerifyJwtCall(req.jwtInfo.jwt)]
  {
    match req
    case AuthenticateRequest(appInfo) => Authenticate(ctl, appInfo)
    case ValidateTokensRequest(appToken) => ValidateTokens(ctl, appToken)
    case ValidateJwtRequest(jwtInfo) => ValidateJwt(ctl, jwtInfo)
  }

  /** The responses to a run, in request order, and all client calls, in the order made. */
  datatype Run<+R, +C> = Run(responses: seq<Response<Body<R, C>>>, calls: seq<Call>)

  /** Serves the requests in order, with the configured app ID fixed for the whole run. The
      client is given as it answers at the time of each request (`clients[i]` for `reqs[i]`): its
      answers depend on the pod, the clock and earlier handshakes, so they may change between
      requests. One response per request, and at most one client call each. */
  function Serve<R, C>(extAppId: Nullable<string>, clients: seq<ExtensionAppAuthClient<R, C>>, reqs: seq<Request>): (run: Run<R, C>)
    requires |clients| == |reqs|
    ensures |run.responses| == |reqs|
    ensures |run.calls| <= |reqs|
    decreases |reqs|
  {
    if reqs == [] then Run([], [])
    else
      var first := Handle(AppAuthController(clients[0], extAppId), reqs[0]);
      var rest := Serve(extAppId, clients[1..], reqs[1..]);
      Run([first.response] + rest.responses, first.calls + rest.calls)
  }

  /** The controller adds no state of its own: the response to each request of a run is the
      response that request gets when served alone against the client as it then answers,
      whatever requests came before it. */
  lemma {:induction false} ServeRespondsIndependently<R, C>(
    extAppId: Nullable<string>, clients: seq<ExtensionAppAuthClient<R, C>>, reqs: seq<Request>, i: nat)
    requires |clients| == |reqs| && i < |reqs|
    ensures Serve(extAppId, clients, reqs).responses[i] ==
            Handle(AppAuthController(clients[i], extAppId), reqs[i]).response
    decreases |reqs|
  {
    if i > 0 {
      ServeRespondsIndependently(extAppId, clients[1..], reqs[1..], i - 1);
    }
  }

  /** Serving two runs back to back is serving each in turn: responses and client calls of the
      combined run are those of the first run followed by those of the second. */
  lemma {:induction false} ServeConcat<R, C>(
    extAppId: Nullable<string>,
    clientsA: seq<ExtensionAppAuthClient<R, C>>, a: seq<Request>,
    clientsB: seq<ExtensionAppAuthClient<R, C>>, b: seq<Request>)
    requires |clientsA| == |a| && |clientsB| == |b|
    ensures Serve(extAppId, clientsA + clientsB, a + b).responses ==
            Serve(extAppId, clientsA, a).responses + Serve(extAppId, clientsB, b).responses
    ensures Serve(extAppId, clientsA + clientsB, a + b).calls ==
            Serve(extAppId, clientsA, a).calls + Serve(extAppId, clientsB, b).calls
    decreases |a|
  {
    if a == [] {
      assert a + b == b;
      assert clientsA + clientsB == clientsB;
    } else {
      var ab, cs := a + b, clientsA + clientsB;
      assert ab[0] == a[0] && cs[0] == clientsA[0];
      assert ab[1..] == a[1..] + b;
      assert cs[1..] == clientsA[1..] + clientsB;
      ServeConcat(extAppId, clientsA[1..], a[1..], clientsB, b);
      var first, tail := Handle(AppAuthController(clientsA[0], extAppId), a[0]), Serve(extAppId, clientsA[1..], a[1..]);
      var whole, second := Serve(extAppId, cs, ab), Serve(extAppId, clientsB, b);
      assert whole.responses == [first.response] + tail.responses + second.responses;
      assert whole.calls == first.calls + tail.calls + second.calls;
    }
  }

  /** One request makes an `appAuthenticate` call with a given app ID exactly when it is an
      `authenticate` request carrying that ID and the ID is the configured one. */
  lemma HandleAppAuthenticateCount<R, C>(ctl: AppAuthController<R, C>, req: Request, appId: string)
    ensures multiset(Handle(ctl, req).calls)[AppAuthenticateCall(appId)] ==
            if ctl.extAppId == Ref(appId) && req == AuthenticateRequest(AppInfo(Ref(appId))) then 1 else 0
  {
  }

  /** One request passes a given token pair to `validateTokens` exactly when it is a token
      validation request carrying that pair. */
  lemma HandleValidateTokensCount<R, C>(
    ctl: AppAuthController<R, C>, req: Request, appToken: Nullable<string>, symphonyToken: Nullable<string>)
    ensures multiset(Handle(ctl, req).calls)[ValidateTokensCall(appToken, symphonyToken)] ==
            if req == ValidateTokensRequest(AppToken(appToken, symphonyToken)) then 1 else 0
  {
  }

  /** One request passes a given JWT to `verifyJWT` exactly when it is a JWT validation request
      carrying that JWT. */
  lemma HandleVerifyJwtCount<R, C>(ctl: AppAuthController<R, C>, req: Request, jwt: Nullable<string>)
    ensures multiset(Handle(ctl, req).calls)[VerifyJwtCall(jwt)] ==
            if req == ValidateJwtRequest(JwtInfo(jwt)) then 1 else 0
  {
  }

  /** Serving a non-empty run is handling its first request, then serving the rest. */
  lemma ServeStep<R, C>(extAppId: Nullable<string>, clients: seq<ExtensionAppAuthClient<R, C>>, reqs: seq<Request>)
    requires |clients| == |reqs| && reqs != []
    ensures multiset(Serve(extAppId, clients, reqs).calls) ==
            multiset(Handle(AppAuthController(clients[0], extAppId), reqs[0]).calls) +
            multiset(Serve(extAppId, clients[1..], reqs[1..]).calls)
    ensures multiset(reqs) == multiset([reqs[0]]) + multiset(reqs[1..])
  {
    assert reqs == [reqs[0]] + reqs[1..];
  }

  /** Counting `appAuthenticate` calls in a run: with the configured app ID, once per
      `authenticate` request carrying that ID; with any other ID, never; whatever the client
      answers along the way. */
  lemma {:induction false} AppAuthenticateCallCount<R, C>(
    extAppId: Nullable<string>, clients: seq<ExtensionAppAuthClient<R, C>>, reqs: seq<Request>, appId: string)
    requires |clients| == |reqs|
    ensures multiset(Serve(extAppId, clients, reqs).calls)[AppAuthenticateCall(appId)] ==
            if extAppId == Ref(appId)
            then multiset(reqs)[AuthenticateRequest(AppInfo(Ref(appId)))]
            else 0
    decreases |reqs|
  {
    if reqs != [] {
      ServeStep(extAppId, clients, reqs);
      HandleAppAuthenticateCount(AppAuthController(clients[0], extAppId), reqs[0], appId);
      AppAuthenticateCallCount(extAppId, clients[1..], reqs[1..], appId);
    }
  }

  /** Counting `validateTokens` calls in a run: each token pair reaches the client once per
      validation request carrying it, with both tokens unchanged and in their order. */
  lemma {:induction false} ValidateTokensCallCount<R, C>(
    extAppId: Nullable<string>, clients: seq<ExtensionAppAuthClient<R, C>>, reqs: seq<Request>,
    appToken: Nullable<string>, symphonyToken: Nullable<string>)
    requires |clients| == |reqs|
    ensures multiset(Serve(extAppId, clients, reqs).calls)[ValidateTokensCall(appToken, symphonyToken)] ==
            multiset(reqs)[ValidateTokensRequest(AppToken(appToken, symphonyToken))]
    decreases |reqs|
  {
    if reqs != [] {
      ServeStep(extAppId, clients, reqs);
      HandleValidateTokensCount(AppAuthController(clients[0], extAppId), reqs[0], appToken, symphonyToken);
      ValidateTokensCallCount(extAppId, clients[1..], reqs[1..], appToken, symphonyToken);
    }
  }

  /** Counting `verifyJWT` calls in a run: each JWT reaches the client once per JWT validation
      request carrying it, unchanged. */
  lemma {:induction false} VerifyJwtCallCount<R, C>(
    extAppId: Nullable<string>, clients: seq<ExtensionAppAuthClient<R, C>>, reqs: seq<Request>, jwt: Nullable<string>)
    requires |clients| == |reqs|
    ensures multiset(Serve(extAppId, clients, reqs).calls)[VerifyJwtCall(jwt)] ==
            multiset(reqs)[ValidateJwtRequest(JwtInfo(jwt))]
    decreases |reqs|
  {
    if reqs != [] {
      ServeStep(extAppId, clients, reqs);
      HandleVerifyJwtCount(AppAuthController(clients[0], extAppId), reqs[0], jwt);
      VerifyJwtCallCount(extAppId, clients[1..], reqs[1..], jwt);
    }
  }

  /** A run in which no `authenticate` request carries the configured app ID makes no
      `appAuthenticate` call at all. */
  lemma {:induction false} NoMatchNoAppAuthenticate<R, C>(
    extAppId: Nullable<string>, clients: seq<ExtensionAppAuthClient<R, C>>, reqs: seq<Request>)
    requires |clients| == |reqs|
    requires forall k :: 0 <= k < |reqs| ==>
               !(reqs[k].AuthenticateRequest? && reqs[k].appInfo.appId.Ref? && reqs[k].appInfo.appId == extAppId)
    ensures forall c :: c in Serve(extAppId, clients, reqs).calls ==> !c.AppAuthenticateCall?
  {
    forall appId: string
      ensures AppAuthenticateCall(appId) !in Serve(extAppId, clients, reqs).calls
    {
      AppAuthenticateCallCount(extAppId, clients, reqs, appId);
      var req := AuthenticateRequest(AppInfo(Ref(appId)));
      if extAppId == Ref(appId) {
        assert forall k :: 0 <= k < |reqs| ==> reqs[k] != req;
        assert req !in reqs;
      }
    }
  }
}
