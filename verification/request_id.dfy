/** Request-id propagation: an inbound `X-Request-ID` is honoured, an
    absent one is replaced by a generated identifier, and the id is echoed on
    the response and attached to the request context. */
module RequestId {
  import opened Common
  import opened Http

  const HeaderName: string := "X-Request-Id"

  /** The response headers after the interceptor ran, and its decision. */
  datatype Handled = Handled(responseHeader: map<string, string>, decision: Decision)

  /** RequestID, with `generated` standing for the identifier utils.UUID()
      would generate. */
  function RequestID(req: Request, responseHeader: map<string, string>, generated: string): (h: Handled)
    ensures var id := if Header(req, HeaderName) != "" then Header(req, HeaderName) else generated;
      && h.decision.Forward?
      && h.responseHeader == responseHeader[HeaderName := id]
      && h.decision.req == req.(ctx := req.ctx[RequestIDContextKey := StringValue(id)])
    ensures NextCalls(h.decision) == 1
  {
    var inbound := Header(req, HeaderName);
    var id := if inbound == "" then generated else inbound;
    Handled(responseHeader[HeaderName := id],
            Forward(req.(ctx := req.ctx[RequestIDContextKey := StringValue(id)])))
  }

  /** The id on the response and the id in the context are the same, and
      a non-empty inbound id is used whatever identifier could be generated. */
  lemma EchoMatchesContext(req: Request, responseHeader: map<string, string>, generated: string, other: string)
    ensures var h := RequestID(req, responseHeader, generated);
      StringValue(h.responseHeader[HeaderName]) == h.decision.req.ctx[RequestIDContextKey]
    ensures Header(req, HeaderName) != "" ==>
      RequestID(req, responseHeader, generated) == RequestID(req, responseHeader, other)
  {
  }
}
