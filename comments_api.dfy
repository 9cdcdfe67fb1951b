/**
 * The comments service's registered API (api.go): POST /comments adds a
 * comment once the censorship service approves it, GET /comments lists the
 * comments of a news item. Decoding the request body is not modelled: the
 * handler receives the decoded comment, or None when the body is not valid
 * JSON for a comment.
 */
module CommentsApi {
  import opened Wrappers
  import opened Strconv
  import opened Http
  import opened CommentStore
  import CommentsMiddleware
  import Censorship

  const CensorUrl := "http://localhost:8083/censor"

  /** The body of a request to the censor: `{"text": ...}` or the bare text. */
  datatype CensorBody = JsonText(text: string) | PlainText(raw: string)

  datatype CensorRequest = CensorRequest(verb: string, url: string, header: map<string, string>, body: CensorBody)

  /** What client.Do gives back for the censor request. */
  datatype CensorOutcome = CensorTransportErr | CensorResp(status: int)

  type CensorClient = CensorRequest -> CensorOutcome

  /** What the handlers send: the saved comment, or a list of comments. */
  datatype CommentsJson = CommentJson(comment: Comment) | CommentListJson(comments: seq<Comment>)

  type CommentsOps = seq<Op<CommentsJson>>

  /**
   * The request checkCensorship builds: POST to the censorship service with
   * `{"text": content}` and only a Content-Type header, so no request id
   * travels with it. Marshalling a string map and building a request for
   * a fixed URL cannot fail.
   */
  function CensorRequestFor(content: string): (req: CensorRequest)
    ensures req.verb == "POST" && req.url == CensorUrl && req.body == JsonText(content)
    ensures req.header == map[ContentType := ApplicationJson]
    ensures RequestIdHeader !in req.header
  {
    CensorRequest("POST", CensorUrl, map[ContentType := ApplicationJson], JsonText(content))
  }

  /** The gate is fail-closed: only a completed call answered with 200 approves. */
  predicate Approves(outcome: CensorOutcome)
  {
    outcome.CensorResp? && outcome.status == StatusOK
  }

  /** checkCensorship: approval iff the censor's answer to the request for this content is 200. */
  function CheckCensorship(content: string, censor: CensorClient): (approved: bool)
    ensures approved <==> censor(CensorRequestFor(content)) == CensorResp(StatusOK)
    ensures !approved <==> censor(CensorRequestFor(content)).CensorTransportErr? || censor(CensorRequestFor(content)).status != StatusOK
  {
    Approves(censor(CensorRequestFor(content)))
  }

  /** How the censorship service decodes a body it receives; `decodeRaw` stands for JSON decoding of bare text. */
  function CensorDecode(body: CensorBody, decodeRaw: string -> Option<string>): Option<string>
  {
    match body
    case JsonText(text) => Some(text)
    case PlainText(raw) => decodeRaw(raw)
  }

  /**
   * Connected to the censorship service, the gate approves a comment iff its
   * content has none of the forbidden words.
   */
  lemma GateAgreesWithCensor(content: string, censor: CensorClient, words: seq<string>, decodeRaw: string -> Option<string>)
    requires var req := CensorRequestFor(content);
      censor(req) == CensorResp(StatusOf(Censorship.CensorHandler(CensorDecode(req.body, decodeRaw), words)))
    ensures CheckCensorship(content, censor) <==> !Censorship.HasForbiddenWord(content, words)
  {
  }

  /**
   * The add handler's steps, shared by both versions of it: decode, ask
   * the censor with the request `request` builds, save, answer with the
   * saved comment. Nothing is stored unless the censor approved.
   */
  method AddCommentGated(store: CommentTable, decoded: Option<Comment>, request: string -> CensorRequest,
                         censor: CensorClient, fault: bool)
    returns (ops: CommentsOps, censorCalls: seq<CensorRequest>)
    requires store.Valid()
    modifies store
    ensures store.Valid()
    ensures decoded.None? ==> StatusOf(ops) == StatusBadRequest && censorCalls == [] && store.rows == old(store.rows)
    ensures decoded.Some? ==> censorCalls == [request(decoded.value.content)]
    ensures decoded.Some? && !Approves(censor(request(decoded.value.content))) ==>
              StatusOf(ops) == StatusBadRequest && store.rows == old(store.rows)
    ensures decoded.Some? && Approves(censor(request(decoded.value.content))) ==>
              var c := decoded.value;
              && (fault || !Insertable(c) ==> StatusOf(ops) == StatusInternalServerError && store.rows == old(store.rows))
              && (!fault && Insertable(c) ==>
                    && StatusOf(ops) == StatusOK
                    && BodyOf(ops) == [Json(CommentJson(c.(id := old(store.nextId))))]
                    && store.rows == old(store.rows) + [CommentRow(old(store.nextId), c.newsId, ToColumn(c.parentId), c.content)])
    ensures store.rows != old(store.rows) ==> decoded.Some? && Approves(censor(request(decoded.value.content)))
    ensures NeverSets(ops, RequestIdHeader)
  {
    censorCalls := [];
    if decoded.None? {
      ops := Error("Invalid request body", StatusBadRequest);
      return;
    }
    var comment := decoded.value;
    var req := request(comment.content);
    censorCalls := [req];
    if !Approves(censor(req)) {
      ops := Error("Comment rejected by censorship service", StatusBadRequest);
      return;
    }
    var id, err := store.SaveComment(comment, fault);
    if err.Some? {
      ops := Error("Failed to save comment", StatusInternalServerError);
      return;
    }
    comment := comment.(id := id);
    ops := JsonReply(CommentJson(comment));
  }

  /** api.AddCommentHandler: the add steps with checkCensorship's request. */
  method AddCommentHandler(store: CommentTable, decoded: Option<Comment>, censor: CensorClient, fault: bool)
    returns (ops: CommentsOps, censorCalls: seq<CensorRequest>)
    requires store.Valid()
    modifies store
    ensures store.Valid()
    ensures decoded.None? ==> StatusOf(ops) == StatusBadRequest && censorCalls == [] && store.rows == old(store.rows)
    ensures decoded.Some? ==> censorCalls == [CensorRequestFor(decoded.value.content)]
    ensures decoded.Some? && !CheckCensorship(decoded.value.content, censor) ==>
              StatusOf(ops) == StatusBadRequest && store.rows == old(store.rows)
    ensures decoded.Some? && CheckCensorship(decoded.value.content, censor) ==>
              var c := decoded.value;
              && (fault || !Insertable(c) ==> StatusOf(ops) == StatusInternalServerError && store.rows == old(store.rows))
              && (!fault && Insertable(c) ==>
                    && StatusOf(ops) == StatusOK
                    && BodyOf(ops) == [Json(CommentJson(c.(id := old(store.nextId))))]
                    && store.rows == old(store.rows) + [CommentRow(old(store.nextId), c.newsId, ToColumn(c.parentId), c.content)])
    ensures store.rows != old(store.rows) ==> decoded.Some? && CheckCensorship(decoded.value.content, censor)
    ensures NeverSets(ops, RequestIdHeader)
  {
    ops, censorCalls := AddCommentGated(store, decoded, CensorRequestFor, censor, fault);
  }

  /**
   * GetCommentsHandler: `news_id` must be an integer; the answer is every
   * stored comment of that news item (in no promised order), or 500 when
   * the query fails.
   */
  method GetCommentsHandler(store: CommentTable, r: Request, fault: bool) returns (ops: CommentsOps)
    ensures var k := Atoi(Get(r.query, "news_id"));
      && (StatusOf(ops) == StatusBadRequest <==> k.None?)
      && (StatusOf(ops) == StatusInternalServerError <==> k.Some? && (fault || !InInt4(k.value)))
      && (StatusOf(ops) == StatusOK <==> k.Some? && !fault && InInt4(k.value))
      && (StatusOf(ops) == StatusOK ==>
            && |BodyOf(ops)| == 1 && BodyOf(ops)[0].Json? && BodyOf(ops)[0].value.CommentListJson?
            && multiset(BodyOf(ops)[0].value.comments) == multiset(CommentsOf(store.rows, k.value)))
    ensures NeverSets(ops, RequestIdHeader)
  {
    var newsId := Atoi(Get(r.query, "news_id"));
    if newsId.None? {
      ops := Error("Invalid news_id parameter", StatusBadRequest);
      return;
    }
    var comments := store.GetCommentsByNewsID(newsId.value, fault);
    if comments.Err? {
      ops := Error("Failed to get comments", StatusInternalServerError);
      return;
    }
    ops := JsonReply(CommentListJson(comments.value));
  }

  /**
   * The service's router (RegisterRoutes): "/comments" with POST or GET,
   * behind the request-id and logging middlewares, which run only for a
   * matched route. An unknown path is mux's 404, another method its bare 405.
   */
  method Serve(store: CommentTable, r: Request, generated: string, decoded: Option<Comment>,
               censor: CensorClient, fault: bool)
    returns (ops: CommentsOps, censorCalls: seq<CensorRequest>)
    requires store.Valid() && IsUuid(generated)
    modifies store
    ensures store.Valid()
    ensures r.path != "/comments" ==> StatusOf(ops) == StatusNotFound && store.rows == old(store.rows)
    ensures r.path == "/comments" && r.verb != "POST" && r.verb != "GET" ==>
              StatusOf(ops) == StatusMethodNotAllowed && store.rows == old(store.rows)
    ensures r.path == "/comments" && r.verb != "POST" ==> censorCalls == []
    ensures r.path == "/comments" && (r.verb == "POST" || r.verb == "GET") ==>
              var sent := HeaderOf(map[], ops);
              RequestIdHeader in sent && sent[RequestIdHeader] == AdoptOrGenerate(Get(r.header, RequestIdHeader), generated)
    ensures store.rows != old(store.rows) ==>
              r.path == "/comments" && r.verb == "POST" && decoded.Some? && CheckCensorship(decoded.value.content, censor)
    ensures r.path == "/comments" && r.verb == "POST" ==>
              && (decoded.None? ==> StatusOf(ops) == StatusBadRequest && censorCalls == [])
              && (decoded.Some? ==> censorCalls == [CensorRequestFor(decoded.value.content)])
              && (decoded.Some? && !CheckCensorship(decoded.value.content, censor) ==> StatusOf(ops) == StatusBadRequest)
              && (decoded.Some? && CheckCensorship(decoded.value.content, censor) ==>
                    var c := decoded.value;
                    && (fault || !Insertable(c) ==> StatusOf(ops) == StatusInternalServerError && store.rows == old(store.rows))
                    && (!fault && Insertable(c) ==>
                          && StatusOf(ops) == StatusOK
                          && BodyOf(ops) == [Json(CommentJson(c.(id := old(store.nextId))))]
                          && store.rows == old(store.rows) + [CommentRow(old(store.nextId), c.newsId, ToColumn(c.parentId), c.content)]))
    ensures r.path == "/comments" && r.verb == "GET" ==>
              var k := Atoi(Get(r.query, "news_id"));
              && store.rows == old(store.rows)
              && (StatusOf(ops) == StatusBadRequest <==> k.None?)
              && (StatusOf(ops) == StatusInternalServerError <==> k.Some? && (fault || !InInt4(k.value)))
              && (StatusOf(ops) == StatusOK <==> k.Some? && !fault && InInt4(k.value))
              && (StatusOf(ops) == StatusOK ==>
                    && |BodyOf(ops)| == 1 && BodyOf(ops)[0].Json? && BodyOf(ops)[0].value.CommentListJson?
                    && multiset(BodyOf(ops)[0].value.comments) == multiset(CommentsOf(store.rows, k.value)))
  {
    censorCalls := [];
    if r.path != "/comments" {
      ops := Error("404 page not found", StatusNotFound);
      return;
    }
    if r.verb != "POST" && r.verb != "GET" {
      ops := [WriteHeader(StatusMethodNotAllowed)];
      return;
    }
    var p := CommentsMiddleware.RequestIDMiddleware<CommentsJson>(r, generated);
    var (_, next) := CommentsMiddleware.LoggingMiddleware(p.next);
    var handler: CommentsOps;
    if r.verb == "POST" {
      handler, censorCalls := AddCommentHandler(store, decoded, censor, fault);
    } else {
      handler := GetCommentsHandler(store, next, fault);
    }
    ClientSeesRequestId(p, map[], handler);
    assert !Committed(p.ops) && BodyOf(p.ops) == [];
    StatusOfAppend(p.ops, handler);
    BodyOfAppend(p.ops, handler);
    ops := p.ops + handler;
  }
}
