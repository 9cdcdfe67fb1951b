/**
 * The package-level handlers of the comments service (handlers.go). They
 * repeat the registered handlers' steps but use another censor request;
 * RegisterRoutes does not route to them, so no request reaches them.
 */
module CommentsHandlers {
  import opened Wrappers
  import opened Http
  import opened CommentStore
  import opened CommentsApi

  const TraceIdHeader := "X-Trace-ID"

  /** The URL this version posts to: port 8082, which is the news service's, not the censor's. */
  const TracedCensorUrl := "http://localhost:8082/censor"

  /**
   * The request this checkCensorship builds: the bare content as body, a
   * JSON content type, and the inbound X-Trace-ID copied only when it is
   * non-empty; no request id is forwarded.
   */
  function TracedCensorRequest(content: string, inbound: map<string, string>): (req: CensorRequest)
    ensures req.verb == "POST" && req.url == TracedCensorUrl && req.url != CensorUrl
    ensures req.body == PlainText(content)
    ensures ContentType in req.header && req.header[ContentType] == ApplicationJson
    ensures TraceIdHeader in req.header <==> Get(inbound, TraceIdHeader) != ""
    ensures TraceIdHeader in req.header ==> req.header[TraceIdHeader] == inbound[TraceIdHeader]
    ensures RequestIdHeader !in req.header
  {
    var header := map[ContentType := ApplicationJson];
    var traceId := Get(inbound, TraceIdHeader);
    var header := if traceId != "" then header[TraceIdHeader := traceId] else header;
    CensorRequest("POST", TracedCensorUrl, header, PlainText(content))
  }

  /** checkCensorship(content, r): approval iff that request completes with status 200. */
  function CheckCensorship(content: string, r: Request, censor: CensorClient): (approved: bool)
    ensures approved <==> censor(TracedCensorRequest(content, r.header)) == CensorResp(StatusOK)
  {
    Approves(censor(TracedCensorRequest(content, r.header)))
  }

  /** AddCommentHandler(w, r, db): the add steps with the traced censor request. */
  method AddCommentHandler(store: CommentTable, r: Request, decoded: Option<Comment>, censor: CensorClient, fault: bool)
    returns (ops: CommentsOps, censorCalls: seq<CensorRequest>)
    requires store.Valid()
    modifies store
    ensures store.Valid()
    ensures decoded.None? ==> StatusOf(ops) == StatusBadRequest && censorCalls == [] && store.rows == old(store.rows)
    ensures decoded.Some? ==> censorCalls == [TracedCensorRequest(decoded.value.content, r.header)]
    ensures decoded.Some? && !CheckCensorship(decoded.value.content, r, censor) ==>
              StatusOf(ops) == StatusBadRequest && store.rows == old(store.rows)
    ensures decoded.Some? && CheckCensorship(decoded.value.content, r, censor) ==>
              var c := decoded.value;
              && (fault || !Insertable(c) ==> StatusOf(ops) == StatusInternalServerError && store.rows == old(store.rows))
              && (!fault && Insertable(c) ==>
                    && StatusOf(ops) == StatusOK
                    && BodyOf(ops) == [Json(CommentJson(c.(id := old(store.nextId))))]
                    && store.rows == old(store.rows) + [CommentRow(old(store.nextId), c.newsId, ToColumn(c.parentId), c.content)])
  {
    ops, censorCalls := AddCommentGated(store, decoded, content => TracedCensorRequest(content, r.header), censor, fault);
  }

  /**
   * When the news service answers its unknown path /censor with 404, this
   * gate rejects every comment, so this add handler never stores anything.
   */
  lemma TracedGateRejectsAll(content: string, r: Request, censor: CensorClient)
    requires censor(TracedCensorRequest(content, r.header)) == CensorResp(StatusNotFound)
    ensures !CheckCensorship(content, r, censor)
  {
  }
}
