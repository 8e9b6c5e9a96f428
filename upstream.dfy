/** The collaborator the controller delegates to, `ExtensionAppAuthClient`, seen only through the
    outcomes of its three operations, and the record of the calls made to it. */
module Upstream {
  import opened Java

  /** What `appAuthenticate(appId)` does: return an `AuthenticateResponse` (of type `R`), throw
      `AppAuthenticateException` (the pod denies the application) or throw
      `SymphonyClientException` (the pod cannot be reached or answers with a fault). */
  datatype AppAuthenticateOutcome<+R> =
    | Authenticated(response: R)
    | AppAuthenticateFailed
    | SymphonyClientFailed

  /** What `verifyJWT(jwt)` does: return the claims it recovered (of type `C`) or throw
      `AppAuthenticateException`. */
  datatype VerifyJwtOutcome<+C> =
    | Verified(claims: C)
    | JwtRejected

  /** The injected `ExtensionAppAuthClient`: each operation is an uninterpreted function of its
      arguments. `validateTokens` answers whether the token pair is valid. */
  datatype ExtensionAppAuthClient<!R, !C> = ExtensionAppAuthClient(
    appAuthenticate: string -> AppAuthenticateOutcome<R>,
    validateTokens: (Nullable<string>, Nullable<string>) -> bool,
    verifyJwt: Nullable<string> -> VerifyJwtOutcome<C>)

  /** One call made to the client, with the arguments it was given. */
  datatype Call =
    | AppAuthenticateCall(appId: string)
    | ValidateTokensCall(appToken: Nullable<string>, symphonyToken: Nullable<string>)
    | VerifyJwtCall(jwt: Nullable<string>)
}
