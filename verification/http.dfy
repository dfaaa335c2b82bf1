/** The slice of net/http the middleware sees: a request with its path,
    remote address, headers and context values, and the two ways an
    interceptor can end. */
module Http {
  import opened Common
  import Response
  import Jwt

  /** Values attached to the request context. */
  datatype CtxValue = ClaimsValue(claims: Jwt.Claims) | StringValue(s: string)

  /** Headers are keyed by their canonical form (`X-Request-Id`,
      `X-Api-Key`, `Authorization`). */
  datatype Request = Request(
    path: string, remoteAddr: string,
    header: map<string, string>, ctx: map<string, CtxValue>)

  /** http.Header.Get: the value, or "" when the header is absent. */
  function Header(r: Request, name: string): string
  {
    if name in r.header then r.header[name] else ""
  }

  /** The context keys of constants/context.go. */
  const UserContextKey: string := "user_claims"
  const RequestIDContextKey: string := "request_id"

  /** How one interceptor ends: `Forward(req)` calls the wrapped handler
      exactly once, with `req`; `Reply(sent)` writes `sent` and never calls
      the wrapped handler; `Aborted(reason)` is a panic that nothing in the
      chain recovers, so net/http drops the connection without a response
      and the wrapped handler never runs. */
  datatype Decision = Forward(req: Request) | Reply(sent: Response.Sent) | Aborted(reason: string)

  /** How many times the wrapped handler runs. */
  function NextCalls(d: Decision): nat
  {
    if d.Forward? then 1 else 0
  }
}
