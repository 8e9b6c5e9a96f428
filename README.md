# Extension-app authentication controller, modelled in Dafny

This project models `AppAuthController` of the Symphony bot SDK. It is the HTTP boundary of the
handshake through which an extension application authenticates itself to a Symphony pod. Its three
stateless handlers are modelled:

- `authenticate` (step 1): a null app ID gives 400. An app ID that is not exactly the configured one
  gives 401, and the client is not called. Otherwise the controller calls
  `ExtensionAppAuthClient.appAuthenticate`. Success gives 200 with its `AuthenticateResponse`.
  `AppAuthenticateException` gives 401. `SymphonyClientException` gives 500.
- `validateTokens` (step 2): the token pair goes to the client unchanged. The answer is 200 with no
  body when the client accepts the pair, and 401 otherwise.
- `validateJwt` (step 3): the JWT goes to the client's `verifyJWT`. The answer is 200 with the
  recovered claims, or 401 with no body on `AppAuthenticateException`.

Modules:

- `Java` (java.dfy): nullable references, and `String.equals` (exact, case-sensitive, false for null).
- `Http` (http.dfy): the statuses used, their codes, and a response as a status plus an optional body.
- `Upstream` (upstream.dfy): the injected `ExtensionAppAuthClient`. Each of its operations is an
  uninterpreted total function whose results are outcome datatypes. The module also defines the
  record of client calls.
- `AppAuth` (app_auth_controller.dfy): the controller and its three handlers. Each handler is a
  function that returns the response together with the client calls it made.
- `Server` (server.dfy): a run of the controller over a sequence of requests. The controller keeps
  no state between requests, so the run handles them one by one. The client is not stateless: its
  answers depend on the pod, the clock and earlier handshakes. So the run gives each request the
  client as it answers at that moment. Inductive lemmas show that the controller adds no state of
  its own: each request gets the response it would get alone against that client. They also trace
  each client call back to the request that caused it, whatever the client answers.

The collaborators are parameters. `ConfigClient.getExtAppId()` is the controller's
`extAppId: Nullable<string>`. `ExtensionAppAuthClient` is a datatype of three functions.
Request-body fields may be null, as in Java. A null token or JWT is passed to the client
unchanged, as the source does.

A null configured ID is not rejected when the controller is built. Since `appId.equals(null)` is
false, every non-null app ID then gets 401 and the client is never called
(`AppAuth.UnconfiguredRefusesEveryId`).

## Model

| member | source | states |
|---|---|---|
| Java.StringEqualsExact | src/main/java/com/symphony/ms/bot/sdk/internal/extapp/authentication/AppAuthController.java:47 | the app-ID comparison is false against null and otherwise holds exactly when both strings have the same length and the same character at every index (case-sensitive) |
| Http.Code | src/main/java/com/symphony/ms/bot/sdk/internal/extapp/authentication/AppAuthController.java:44-61 | OK is 200 and nothing else is; every status is reported as a code in the 200–599 range |
| Http.CodeInjective | src/main/java/com/symphony/ms/bot/sdk/internal/extapp/authentication/AppAuthController.java:56-61 | two statuses have the same code only if they are the same status, so 401 (denied) and 500 (client fault) are distinct on the wire |
| AppAuth.Authenticate | src/main/java/com/symphony/ms/bot/sdk/internal/extapp/authentication/AppAuthController.java:38-63 | a null app ID gives 400 with no client call, whatever else holds. The client is called iff the ID equals the configured one, and then exactly once, with that ID. The response is 200 iff the client succeeds, with the client's response unchanged as body. It is 401 iff the ID is present but mismatched or the client denies. It is 500 iff the client faults. Every non-200 response has no body |
| AppAuth.ValidateTokens | src/main/java/com/symphony/ms/bot/sdk/internal/extapp/authentication/AppAuthController.java:65-74 | the client is called once with `appToken` and `symphonyToken` unchanged and in that order; 200 iff the client says valid, otherwise 401; never a body |
| AppAuth.ValidateJwt | src/main/java/com/symphony/ms/bot/sdk/internal/extapp/authentication/AppAuthController.java:76-86 | the client's `verifyJWT` is called once with the JWT unchanged; 200 iff it verifies, carrying exactly the recovered claims; otherwise 401 with no body |
| AppAuth.AuthenticateIgnoresClientUnlessMatched | src/main/java/com/symphony/ms/bot/sdk/internal/extapp/authentication/AppAuthController.java:42-50 | when the app ID is null or mismatched, the response and call log are the same for any two clients |
| AppAuth.NearMatchIsUnauthorized | src/main/java/com/symphony/ms/bot/sdk/internal/extapp/authentication/AppAuthController.java:47-50 | an app ID that differs from the configured one in a single character (for instance only in letter case) gets 401 with no client call |
| AppAuth.UnconfiguredRefusesEveryId | src/main/java/com/symphony/ms/bot/sdk/internal/extapp/authentication/AppAuthController.java:47-50 | with no configured ID (null), every non-null app ID gets 401 and the client is not called |
| AppAuth.AuthenticateStatusDeterminesOutcome | src/main/java/com/symphony/ms/bot/sdk/internal/extapp/authentication/AppAuthController.java:52-62 | with a matching ID, two clients lead to the same status exactly when their outcomes are of the same kind (success, denial, fault): each outcome maps to one status |
| AppAuth.StatusCodes | src/main/java/com/symphony/ms/bot/sdk/internal/extapp/authentication/AppAuthController.java:38-86 | `authenticate` answers 200, 400, 401 or 500; `validateTokens` and `validateJwt` answer 200 or 401 only |
| Server.Handle | src/main/java/com/symphony/ms/bot/sdk/internal/extapp/authentication/AppAuthController.java:38-86 | the body routes each request to the handler of its route; the contract states that a request makes at most one client call, that an `authenticate` request makes none or an `appAuthenticate` call, and that a validation request makes exactly the call carrying its own tokens or JWT |
| Server.Serve | src/main/java/com/symphony/ms/bot/sdk/internal/extapp/authentication/AppAuthController.java:27-36 | a run, with the client as it answers at each request and the configured ID fixed, gives one response per request and makes no more client calls than there are requests |
| Server.ServeRespondsIndependently | src/main/java/com/symphony/ms/bot/sdk/internal/extapp/authentication/AppAuthController.java:27-36 | the response to the i-th request of a run is the response that request gets on its own, against the client as it answers at that moment: the controller carries nothing from one request to the next |
| Server.ServeConcat | src/main/java/com/symphony/ms/bot/sdk/internal/extapp/authentication/AppAuthController.java:27-36 | serving two runs back to back, each with its own sequence of client states, gives the responses and the client calls of the first run followed by those of the second |
| Server.HandleAppAuthenticateCount | src/main/java/com/symphony/ms/bot/sdk/internal/extapp/authentication/AppAuthController.java:47-54 | one request calls `appAuthenticate` with a given ID exactly when it is an `authenticate` request carrying that ID and that ID is the configured one |
| Server.HandleValidateTokensCount | src/main/java/com/symphony/ms/bot/sdk/internal/extapp/authentication/AppAuthController.java:68-69 | one request passes a given token pair to the client exactly when it is a token-validation request carrying that pair |
| Server.HandleVerifyJwtCount | src/main/java/com/symphony/ms/bot/sdk/internal/extapp/authentication/AppAuthController.java:80-81 | one request passes a given JWT to `verifyJWT` exactly when it is a JWT-validation request carrying that JWT |
| Server.AppAuthenticateCallCount | src/main/java/com/symphony/ms/bot/sdk/internal/extapp/authentication/AppAuthController.java:47-54 | across a run, `appAuthenticate` is called with the configured ID once per `authenticate` request carrying it, and never with any other ID |
| Server.ValidateTokensCallCount | src/main/java/com/symphony/ms/bot/sdk/internal/extapp/authentication/AppAuthController.java:68-69 | across a run, each token pair reaches the client once per token-validation request carrying it |
| Server.VerifyJwtCallCount | src/main/java/com/symphony/ms/bot/sdk/internal/extapp/authentication/AppAuthController.java:80-81 | across a run, each JWT reaches `verifyJWT` once per JWT-validation request carrying it |
| Server.NoMatchNoAppAuthenticate | src/main/java/com/symphony/ms/bot/sdk/internal/extapp/authentication/AppAuthController.java:47-50 | a run in which no `authenticate` request carries the configured ID makes no `appAuthenticate` call at all |

## Left out

- Spring routing, annotations, JSON binding of `AppInfo`, `AppToken` and `JwtInfo`, and the details of
  building a `ResponseEntity`. A response is a status and an optional body. A null request body
  is not modelled, because the framework rejects it before the handler runs.
- Logging (lines 28, 40, 43, 48, 57, 60, 67, 78, 83). It has no effect on any response.
- The internals of `ExtensionAppAuthClient` and `ConfigClient`: calls to the pod, token checks, and
  JWT signature and expiry checks. These classes are not part of this model. Their results are
  uninterpreted outcomes.
- `SymphonyClientException` thrown by `validateTokens` or `verifyJWT`. Those two handlers do not catch
  it, so it escapes to the framework. The model gives those client operations no fault outcome
  and invents no status for it.
- Any other runtime exception from the client in `authenticate`. Such an exception also escapes to
  the framework and is not modelled.
- Java strings as UTF-16 code units. Dafny's `string` is a sequence of Unicode scalar values, so an
  app ID with an unpaired surrogate (which a JSON `\ud800` escape can produce) cannot be written in
  the model. "Same length" in `Java.StringEqualsExact` counts scalar values, not Java's `length()`.
  Equality of two strings is still modelled exactly.
- Concurrency between requests, timeouts and retries. The controller has none of its own, and
  `Server.Serve` takes the requests in one order.
