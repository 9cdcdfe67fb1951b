/** The comments service's middlewares (middleware.go). */
module CommentsMiddleware {
  import opened Http

  /**
   * RequestIDMiddleware: a non-empty inbound X-Request-ID is kept as is,
   * otherwise a fresh UUID is used; the id goes into the request context
   * and onto the response header before the next handler runs, and nothing
   * else of the request changes.
   */
  function RequestIDMiddleware<J>(r: Request, generated: string): (p: Prepared<J>)
    requires IsUuid(generated)
    ensures Get(r.header, RequestIdHeader) != "" ==> p.id == Get(r.header, RequestIdHeader)
    ensures Get(r.header, RequestIdHeader) == "" ==> p.id == generated
    ensures RequestIdKey in p.next.context && p.next.context[RequestIdKey] == p.id
    ensures p.next.verb == r.verb && p.next.path == r.path && p.next.query == r.query
    ensures p.next.header == r.header && p.next.body == r.body
    ensures forall k :: k in r.context && k != RequestIdKey ==> k in p.next.context && p.next.context[k] == r.context[k]
    ensures LoggedId(p.next) == p.id
    ensures p.ops == [SetHeader(RequestIdHeader, p.id)]
  {
    WithRequestId(r, generated)
  }

  /**
   * LoggingMiddleware: the id it logs is the context's, or "unknown"; the
   * request reaches the next handler unchanged.
   */
  function LoggingMiddleware(r: Request): (res: (string, Request))
    ensures res.1 == r
    ensures RequestIdKey !in r.context ==> res.0 == "unknown"
    ensures RequestIdKey in r.context ==> res.0 == r.context[RequestIdKey]
  {
    (LoggedId(r), r)
  }
}
