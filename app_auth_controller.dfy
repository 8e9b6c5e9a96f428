/** The extension-app authentication controller: three stateless request handlers that check the
    request, delegate to the `ExtensionAppAuthClient` and translate its outcome into a response.
    Each handler returns the response together with the calls it made to the client, so that
    "the client is not called" is a statement about the result. */
module AppAuth {
  import opened Java
  import opened Http
  import opened Upstream

  /** Request body of step 1, `AppInfo`. */
  datatype AppInfo = AppInfo(appId: Nullable<string>)

  /** Request body of step 2, `AppToken`. */
  datatype AppToken = AppToken(appToken: Nullable<string>, symphonyToken: Nullable<string>)

  /** Request body of step 3, `JwtInfo`. */
  datatype JwtInfo = JwtInfo(jwt: Nullable<string>)

  /** A response body: the client's `AuthenticateResponse` or the claims recovered from a JWT. */
  datatype Body<+R, +C> = AuthenticateBody(response: R) | ClaimsBody(claims: C)

  /** The controller's two collaborators, fixed at construction: the client, and the extension
      app ID that `ConfigClient.getExtAppId()` reports (possibly null). */
  datatype AppAuthController<!R, !C> = AppAuthController(
    extAppAuthClient: ExtensionAppAuthClient<R, C>,
    extAppId: Nullable<string>)

  /** What a handler produces: the response and the client calls it made, in order. */
  datatype Handled<+R, +C> = Handled(response: Response<Body<R, C>>, calls: seq<Call>)

  /** The request's app ID is present and exactly equal to the configured one. */
  predicate IdMatches<R, C>(ctl: AppAuthController<R, C>, appInfo: AppInfo)
  {
    appInfo.appId.Ref? && StringEquals(appInfo.appId.value, ctl.extAppId)
  }

  /** Step 1, `authenticate`: reject a missing app ID (400), reject an app ID other than the
      configured one (401) without contacting the client, and otherwise start the handshake with
      the client and report its response (200), its denial (401) or its failure (500). */
  function Authenticate<R, C>(ctl: AppAuthController<R, C>, appInfo: AppInfo): (h: Handled<R, C>)
    // a null app ID is refused first, whatever the configuration or the client
    ensures appInfo.appId.Null? ==> h.response == Build(BadRequest) && h.calls == []
    ensures h.response.status == BadRequest <==> appInfo.appId.Null?
    // the client is called iff the ID matches, then exactly once, with that ID
    ensures h.calls != [] <==> IdMatches(ctl, appInfo)
    ensures IdMatches(ctl, appInfo) ==>
              ctl.extAppId == appInfo.appId && h.calls == [AppAuthenticateCall(appInfo.appId.value)]
    // success, and only success, is 200, carrying the client's response unchanged
    ensures h.response.status == Ok <==>
              IdMatches(ctl, appInfo) &&
              ctl.extAppAuthClient.appAuthenticate(appInfo.appId.value).Authenticated?
    ensures h.response.status == Ok ==>
              h.response.body ==
                Ref(AuthenticateBody(ctl.extAppAuthClient.appAuthenticate(appInfo.appId.value).response))
    ensures h.response.status != Ok ==> h.response.body == Null
    // 401 is a present but mismatched ID, or a denial by the client
    ensures h.response.status == Unauthorized <==>
              (appInfo.appId.Ref? && !IdMatches(ctl, appInfo)) ||
              (IdMatches(ctl, appInfo) &&
               ctl.extAppAuthClient.appAuthenticate(appInfo.appId.value).AppAuthenticateFailed?)
    // 500 is a client fault, and only that
    ensures h.response.status == InternalServerError <==>
              IdMatches(ctl, appInfo) &&
              ctl.extAppAuthClient.appAuthenticate(appInfo.appId.value).SymphonyClientFailed?
  {
    if appInfo.appId.Null? then
      Handled(Build(BadRequest), [])
    else if !StringEquals(appInfo.appId.value, ctl.extAppId) then
      Handled(Build(Unauthorized), [])
    else
      var appId := appInfo.appId.value;
      var response :=
        match ctl.extAppAuthClient.appAuthenticate(appId)
        case Authenticated(authenticateResponse) => OkWith(AuthenticateBody(authenticateResponse))
        case AppAuthenticateFailed => Build(Unauthorized)
        case SymphonyClientFailed => Build(InternalServerError);
      Handled(response, [AppAuthenticateCall(appId)])
  }

  /** Step 2, `validateTokens`: hand the two tokens to the client as they came and answer 200
      with no body when the client accepts the pair, 401 otherwise. */
  function ValidateTokens<R, C>(ctl: AppAuthController<R, C>, appToken: AppToken): (h: Handled<R, C>)
    ensures h.calls == [ValidateTokensCall(appToken.appToken, appToken.symphonyToken)]
    ensures h.response.body == Null
    ensures h.response.status == Ok <==>
              ctl.extAppAuthClient.validateTokens(appToken.appToken, appToken.symphonyToken)
    ensures h.response.status == Ok || h.response.status == Unauthorized
  {
    if ctl.extAppAuthClient.validateTokens(appToken.appToken, appToken.symphonyToken) then
      Handled(Build(Ok), [ValidateTokensCall(appToken.appToken, appToken.symphonyToken)])
    else
      Handled(Build(Unauthorized), [ValidateTokensCall(appToken.appToken, appToken.symphonyToken)])
  }

  /** Step 3, `validateJwt`: hand the JWT to the client and answer 200 with the claims it
      recovered, or 401 with no body when it rejects the JWT. */
  function ValidateJwt<R, C>(ctl: AppAuthController<R, C>, jwtInfo: JwtInfo): (h: Handled<R, C>)
    ensures h.calls == [VerifyJwtCall(jwtInfo.jwt)]
    ensures h.response.status == Ok || h.response.status == Unauthorized
    ensures h.response.status == Ok <==> ctl.extAppAuthClient.verifyJwt(jwtInfo.jwt).Verified?
    ensures h.response.status == Ok ==>
              h.response.body == Ref(ClaimsBody(ctl.extAppAuthClient.verifyJwt(jwtInfo.jwt).claims))
    ensures h.response.status == Unauthorized ==> h.response.body == Null
  {
    match ctl.extAppAuthClient.verifyJwt(jwtInfo.jwt)
    case Verified(claims) => Handled(OkWith(ClaimsBody(claims)), [VerifyJwtCall(jwtInfo.jwt)])
    case JwtRejected => Handled(Build(Unauthorized), [VerifyJwtCall(jwtInfo.jwt)])
  }

  /** Unless the app ID matches, `authenticate` answers the same whatever the client would do:
      the client cannot influence, or learn of, a request it is not given. */
  lemma AuthenticateIgnoresClientUnlessMatched<R, C>(
    client1: ExtensionAppAuthClient<R, C>, client2: ExtensionAppAuthClient<R, C>,
    extAppId: Nullable<string>, appInfo: AppInfo)
    requires !IdMatches(AppAuthController(client1, extAppId), appInfo)
    ensures Authenticate(AppAuthController(client1, extAppId), appInfo) ==
            Authenticate(AppAuthController(client2, extAppId), appInfo)
  {
  }

  /** An app ID that differs from the configured one in a single character, for instance only in
      letter case, is refused with 401 and the client is not called. */
  lemma NearMatchIsUnauthorized<R, C>(ctl: AppAuthController<R, C>, appId: string, i: nat)
    requires ctl.extAppId.Ref? && |appId| == |ctl.extAppId.value|
    requires i < |appId| && appId[i] != ctl.extAppId.value[i]
    ensures Authenticate(ctl, AppInfo(Ref(appId))).response == Build(Unauthorized)
    ensures Authenticate(ctl, AppInfo(Ref(appId))).calls == []
  {
  }

  /** When no extension app ID is configured, every non-null app ID is refused with 401 and the
      client is never called (Java's `equals(null)` is false). */
  lemma UnconfiguredRefusesEveryId<R, C>(client: ExtensionAppAuthClient<R, C>, appId: string)
    ensures Authenticate(AppAuthController(client, Null), AppInfo(Ref(appId))).response ==
            Build(Unauthorized)
    ensures Authenticate(AppAuthController(client, Null), AppInfo(Ref(appId))).calls == []
  {
  }

  /** With a matching app ID, the status names the client's outcome: two clients get the same
      status exactly when their outcomes are of the same kind, so denial (401) and failure (500)
      are never confused. */
  lemma AuthenticateStatusDeterminesOutcome<R, C>(
    client1: ExtensionAppAuthClient<R, C>, client2: ExtensionAppAuthClient<R, C>,
    extAppId: Nullable<string>, appInfo: AppInfo)
    requires IdMatches(AppAuthController(client1, extAppId), appInfo)
    ensures
      var o1 := client1.appAuthenticate(appInfo.appId.value);
      var o2 := client2.appAuthenticate(appInfo.appId.value);
      Authenticate(AppAuthController(client1, extAppId), appInfo).response.status ==
      Authenticate(AppAuthController(client2, extAppId), appInfo).response.status
      <==>
      (o1.Authenticated? && o2.Authenticated?) ||
      (o1.AppAuthenticateFailed? && o2.AppAuthenticateFailed?) ||
      (o1.SymphonyClientFailed? && o2.SymphonyClientFailed?)
  {
  }

  /** `authenticate` answers 200, 400, 401 or 500; the two token checks answer 200 or 401 only. */
  lemma StatusCodes<R, C>(ctl: AppAuthController<R, C>, appInfo: AppInfo, appToken: AppToken, jwtInfo: JwtInfo)
    ensures Code(Authenticate(ctl, appInfo).response.status) in {200, 400, 401, 500}
    ensures Code(ValidateTokens(ctl, appToken).response.status) in {200, 401}
    ensures Code(ValidateJwt(ctl, jwtInfo).response.status) in {200, 401}
  {
  }
}
