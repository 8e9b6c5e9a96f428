/** The part of Spring's `ResponseEntity` the controller uses: a status and an optional body. */
module Http {
  import opened Java

  /** The `HttpStatus` values the controller answers with. */
  datatype Status = Ok | BadRequest | Unauthorized | InternalServerError

  /** The numeric HTTP status code of each status. */
  function Code(s: Status): (code: nat)
    ensures 200 <= code < 600
    ensures code == 200 <==> s == Ok
  {
    match s
    case Ok => 200
    case BadRequest => 400
    case Unauthorized => 401
    case InternalServerError => 500
  }

  /** Distinct statuses are reported with distinct codes, so no two outcomes are confused on the wire. */
  lemma CodeInjective(s: Status, t: Status)
    ensures Code(s) == Code(t) <==> s == t
  {
  }

  /** A response: its status and its body, null when the response is built without one. */
  datatype Response<+B> = Response(status: Status, body: Nullable<B>)

  /** `ResponseEntity.status(status).build()` (and `badRequest().build()`, `ok().build()`). */
  function Build<B>(status: Status): Response<B>
  {
    Response(status, Null)
  }

  /** `ResponseEntity.ok(body)`. */
  function OkWith<B>(body: B): Response<B>
  {
    Response(Ok, Ref(body))
  }
}
