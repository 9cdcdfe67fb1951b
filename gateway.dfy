/**
 * The API gateway: five routes that forward to the news service and the
 * comments service, and one (news details) that combines both. Every
 * downstream call is recorded in a call trace; its outcome is supplied by
 * the caller as a function of the call, since the network is not modelled.
 */
module Gateway {
  import opened Wrappers
  import opened Http

  /** The downstream resources the gateway calls. */
  datatype Target =
    | NewsLast(n: string)                   // news service :8082 /news/{n}
    | NewsSearch(s: string, page: string)   // news service :8082 /news?s=..&page=..
    | NewsDetails(id: string)               // news service :8082 /news/details?id=..
    | CommentsList(newsId: string)          // comments service :8081 /comments?news_id=..
    | CommentsAdd                           // comments service :8081 /comments

  /** An outbound request: method, resource, the X-Request-ID it carries (if any), body. */
  datatype Call = Call(verb: string, target: Target, requestId: Option<string>, body: Bytes)

  /** A response body as io.ReadAll sees it. */
  datatype Body = Data(data: Bytes) | ReadError

  /** What client.Do gives back: a transport error or a response with its status, X-Request-ID and body. */
  datatype Outcome = TransportErr | Resp(status: int, headerId: string, body: Body)

  type Downstream = Call -> Outcome

  /** The combined news-details document: both downstream bodies, embedded as raw JSON. */
  datatype GatewayJson = NewsWithComments(news: Bytes, comments: Bytes)

  type GatewayOps = seq<Op<GatewayJson>>

  /** The calls a handler makes on the client's writer and on the downstream services. */
  datatype Handled = Handled(ops: GatewayOps, calls: seq<Call>)

  /** The X-Request-ID forwardRequest copies from the context, when the context holds one. */
  function CtxId(r: Request): (id: Option<string>)
    ensures id.Some? <==> RequestIdKey in r.context
    ensures id.Some? ==> id.value == r.context[RequestIdKey]
  {
    if RequestIdKey in r.context then Some(r.context[RequestIdKey]) else None
  }

  /** Relay a downstream response: JSON content type, its status, its body byte for byte; a read error is a 500. */
  function Relay(status: int, body: Body, readErrorMsg: string): (ops: GatewayOps)
    ensures body.ReadError? ==> StatusOf(ops) == StatusInternalServerError && BodyOf(ops) == [Text(readErrorMsg)]
    ensures body.Data? ==> StatusOf(ops) == status && BodyOf(ops) == [Raw(body.data)]
    ensures Committed(ops) && NeverSets(ops, RequestIdHeader)
  {
    match body
    case ReadError => Error(readErrorMsg, StatusInternalServerError)
    case Data(data) =>
      var ops := [SetHeader(ContentType, ApplicationJson), WriteHeader(status), Write(Raw(data))];
      assert ops[1..][1..] == [Write(Raw(data))];
      assert BodyOf(ops[1..][1..]) == [Raw(data)] + BodyOf(ops[1..][1..][1..]);
      assert Commits(ops[1]);
      ops
  }

  /**
   * processResponse. The downstream X-Request-ID only replaces the id in
   * the log line; nothing of it reaches the client.
   */
  function ProcessResponse(resp: Outcome): (ops: GatewayOps)
    requires resp.Resp?
    ensures resp.body.ReadError? ==> StatusOf(ops) == StatusInternalServerError
    ensures resp.body.Data? ==> StatusOf(ops) == resp.status && BodyOf(ops) == [Raw(resp.body.data)]
    ensures Committed(ops) && NeverSets(ops, RequestIdHeader)
  {
    Relay(resp.status, resp.body, "Error reading response from service")
  }

  /** Forward one call and relay the answer; a transport error is a 500 with the given message. */
  function Forward(call: Call, downstream: Downstream, contactErrorMsg: string): (h: Handled)
    ensures h.calls == [call]
    ensures downstream(call).TransportErr? ==> StatusOf(h.ops) == StatusInternalServerError
    ensures downstream(call).Resp? ==> h.ops == ProcessResponse(downstream(call))
    ensures NeverSets(h.ops, RequestIdHeader)
  {
    var resp := downstream(call);
    if resp.TransportErr? then Handled(Error(contactErrorMsg, StatusInternalServerError), [call])
    else Handled(ProcessResponse(resp), [call])
  }

  /** getLastNPosts: `n` is required; the request goes to the news service's `/news/{n}`. */
  function GetLastNPosts(r: Request, downstream: Downstream): (h: Handled)
    requires RequestIdKey in r.context
    ensures Get(r.query, "n") == "" ==> StatusOf(h.ops) == StatusBadRequest && h.calls == []
    ensures Get(r.query, "n") != "" ==> h == Forward(Call("GET", NewsLast(Get(r.query, "n")), CtxId(r), []), downstream, "Error contacting news service")
    ensures NeverSets(h.ops, RequestIdHeader)
  {
    var n := Get(r.query, "n");
    if n == "" then Handled(Error("Missing 'n' parameter", StatusBadRequest), [])
    else Forward(Call("GET", NewsLast(n), CtxId(r), []), downstream, "Error contacting news service")
  }

  /** getNews: the search is forwarded as is, with page "1" when none was given. */
  function GetNews(r: Request, downstream: Downstream): (h: Handled)
    requires RequestIdKey in r.context
    ensures |h.calls| == 1 && h.calls[0].target.NewsSearch?
    ensures h.calls[0].target.s == Get(r.query, "s")
    ensures h.calls[0].target.page == if Get(r.query, "page") == "" then "1" else Get(r.query, "page")
    ensures h == Forward(h.calls[0], downstream, "Error contacting news service")
    ensures NeverSets(h.ops, RequestIdHeader)
  {
    var query := Get(r.query, "s");
    var page := if Get(r.query, "page") == "" then "1" else Get(r.query, "page");
    Forward(Call("GET", NewsSearch(query, page), CtxId(r), []), downstream, "Error contacting news service")
  }

  /** The two calls of getNewsDetails, both carrying the id of the request's context. */
  function NewsCall(r: Request, id: string): Call { Call("GET", NewsDetails(id), CtxId(r), []) }

  function CommentsCall(r: Request, id: string): Call { Call("GET", CommentsList(id), CtxId(r), []) }

  /**
   * getNewsDetails: fetch the post, then its comments, and send both in one
   * envelope. `valid` tells whether a body is well-formed JSON, which the
   * encoder checks when it embeds it.
   */
  function GetNewsDetails(r: Request, downstream: Downstream, valid: Bytes -> bool): (h: Handled)
    requires RequestIdKey in r.context
    ensures NeverSets(h.ops, RequestIdHeader)
    ensures forall c :: c in h.calls ==> c.requestId == Some(r.context[RequestIdKey])
    ensures Get(r.query, "id") == "" <==> h.calls == []
    ensures Get(r.query, "id") != "" ==>
      && 1 <= |h.calls| <= 2 && h.calls[0] == NewsCall(r, Get(r.query, "id"))
      && (|h.calls| == 2 ==> h.calls[1] == CommentsCall(r, Get(r.query, "id")))
  {
    var id := Get(r.query, "id");
    if id == "" then Handled(Error("Missing 'id' parameter", StatusBadRequest), [])
    else
      var newsCall := NewsCall(r, id);
      var news := downstream(newsCall);
      if news.TransportErr? then
        Handled(Error("Error contacting news service", StatusInternalServerError), [newsCall])
      else if news.status != StatusOK then
        var ops := Error("Failed to get news details", news.status);
        NeverSetsAppend(ops, ProcessResponse(news), RequestIdHeader);
        Handled(ops + ProcessResponse(news), [newsCall])
      else
        var commentsCall := CommentsCall(r, id);
        Handled(DetailsAfterNews(news, downstream(commentsCall), valid), [newsCall, commentsCall])
  }

  /** The rest of getNewsDetails once the news service answered 200: the comments' status, both reads, the encoding. */
  function DetailsAfterNews(news: Outcome, comments: Outcome, valid: Bytes -> bool): (ops: GatewayOps)
    requires news.Resp?
    ensures NeverSets(ops, RequestIdHeader)
  {
    if comments.TransportErr? then
      Error("Error contacting comments service", StatusInternalServerError)
    else if comments.status != StatusOK then
      var ops := Error("Failed to get comments", comments.status);
      NeverSetsAppend(ops, ProcessResponse(comments), RequestIdHeader);
      ops + ProcessResponse(comments)
    else if news.body.ReadError? then
      Error("Error reading news response", StatusInternalServerError)
    else if comments.body.ReadError? then
      Error("Error reading comments response", StatusInternalServerError)
    else
      var header: GatewayOps := [SetHeader(ContentType, ApplicationJson), WriteHeader(StatusOK)];
      if valid(news.body.data) && valid(comments.body.data) then
        var body: GatewayOps := [Write(Json(NewsWithComments(news.body.data, comments.body.data)))];
        NeverSetsAppend(header, body, RequestIdHeader);
        header + body
      else
        NeverSetsAppend(header, Error<GatewayJson>("Error encoding response", StatusInternalServerError), RequestIdHeader);
        header + Error("Error encoding response", StatusInternalServerError)
  }

  /** Without an id the gateway answers 400 and calls nobody. */
  lemma DetailsMissingId(r: Request, downstream: Downstream, valid: Bytes -> bool)
    requires RequestIdKey in r.context && Get(r.query, "id") == ""
    ensures var h := GetNewsDetails(r, downstream, valid);
            StatusOf(h.ops) == StatusBadRequest && h.calls == []
  {
  }

  /**
   * When the news service fails, the comments service is never called: a
   * transport error is a 500, any other failure status is passed on.
   */
  lemma DetailsNewsFailureShortCircuits(r: Request, downstream: Downstream, valid: Bytes -> bool)
    requires RequestIdKey in r.context
    requires var id := Get(r.query, "id");
      id != "" && (downstream(NewsCall(r, id)).TransportErr? || downstream(NewsCall(r, id)).status != StatusOK)
    ensures var id := Get(r.query, "id");
      var news := downstream(NewsCall(r, id));
      var h := GetNewsDetails(r, downstream, valid);
      && h.calls == [NewsCall(r, id)]
      && StatusOf(h.ops) == (if news.TransportErr? then StatusInternalServerError else news.status)
  {
    var id := Get(r.query, "id");
    var news := downstream(NewsCall(r, id));
    if news.Resp? {
      StatusOfAppend(Error<GatewayJson>("Failed to get news details", news.status), ProcessResponse(news));
    }
  }

  /** When the news service answered 200 but the comments service fails, the whole request fails. */
  lemma DetailsCommentsFailure(r: Request, downstream: Downstream, valid: Bytes -> bool)
    requires RequestIdKey in r.context
    requires var id := Get(r.query, "id");
      && id != "" && downstream(NewsCall(r, id)).Resp? && downstream(NewsCall(r, id)).status == StatusOK
      && (downstream(CommentsCall(r, id)).TransportErr? || downstream(CommentsCall(r, id)).status != StatusOK)
    ensures var id := Get(r.query, "id");
      var comments := downstream(CommentsCall(r, id));
      var h := GetNewsDetails(r, downstream, valid);
      && h.calls == [NewsCall(r, id), CommentsCall(r, id)]
      && StatusOf(h.ops) == (if comments.TransportErr? then StatusInternalServerError else comments.status)
  {
    var id := Get(r.query, "id");
    var comments := downstream(CommentsCall(r, id));
    if comments.Resp? {
      StatusOfAppend(Error<GatewayJson>("Failed to get comments", comments.status), ProcessResponse(comments));
    }
  }

  /**
   * When both services answer 200 with readable, well-formed bodies, the
   * client gets 200 and the envelope holding both bodies unchanged.
   */
  lemma DetailsSuccess(r: Request, downstream: Downstream, valid: Bytes -> bool)
    requires RequestIdKey in r.context
    requires var id := Get(r.query, "id");
      var news := downstream(NewsCall(r, id));
      var comments := downstream(CommentsCall(r, id));
      && id != ""
      && news.Resp? && news.status == StatusOK && news.body.Data? && valid(news.body.data)
      && comments.Resp? && comments.status == StatusOK && comments.body.Data? && valid(comments.body.data)
    ensures var id := Get(r.query, "id");
      var h := GetNewsDetails(r, downstream, valid);
      && StatusOf(h.ops) == StatusOK
      && BodyOf(h.ops) == [Json(NewsWithComments(downstream(NewsCall(r, id)).body.data, downstream(CommentsCall(r, id)).body.data))]
      && h.calls == [NewsCall(r, id), CommentsCall(r, id)]
  {
    var id := Get(r.query, "id");
    var h := GetNewsDetails(r, downstream, valid);
    var part := Json(NewsWithComments(downstream(NewsCall(r, id)).body.data, downstream(CommentsCall(r, id)).body.data));
    var header: GatewayOps := [SetHeader(ContentType, ApplicationJson), WriteHeader(StatusOK)];
    assert h.ops == header + [Write(part)];
    assert h.ops[1..][1..] == [Write(part)];
    assert BodyOf(h.ops[1..][1..]) == [part] + BodyOf(h.ops[1..][1..][1..]);
  }

  /**
   * Only the combined answer is ever a 200 carrying JSON: the status is 200
   * iff both services answered 200 and both bodies were read; in
   * particular no response with the news alone is ever sent.
   */
  lemma {:induction false} DetailsOkIff(r: Request, downstream: Downstream, valid: Bytes -> bool)
    requires RequestIdKey in r.context
    requires Get(r.query, "id") != ""
    ensures var id := Get(r.query, "id");
      var news := downstream(NewsCall(r, id));
      var comments := downstream(CommentsCall(r, id));
      var h := GetNewsDetails(r, downstream, valid);
      StatusOf(h.ops) == StatusOK <==>
        && news.Resp? && news.status == StatusOK && news.body.Data?
        && comments.Resp? && comments.status == StatusOK && comments.body.Data?
  {
    var id := Get(r.query, "id");
    var news := downstream(NewsCall(r, id));
    var comments := downstream(CommentsCall(r, id));
    var h := GetNewsDetails(r, downstream, valid);
    if news.TransportErr? || news.status != StatusOK {
      DetailsNewsFailureShortCircuits(r, downstream, valid);
    } else if comments.TransportErr? || comments.status != StatusOK {
      DetailsCommentsFailure(r, downstream, valid);
    } else if news.body.Data? && comments.body.Data? {
      var header: GatewayOps := [SetHeader(ContentType, ApplicationJson), WriteHeader(StatusOK)];
      assert Commits(header[1]);
      StatusOfAppend(header, h.ops[2..]);
      assert h.ops == header + h.ops[2..];
    }
  }

  /**
   * Both services answered 200 but one body could not be read: the client
   * gets 500 after both calls were made.
   */
  lemma DetailsReadError(r: Request, downstream: Downstream, valid: Bytes -> bool)
    requires RequestIdKey in r.context
    requires var id := Get(r.query, "id");
      var news := downstream(NewsCall(r, id));
      var comments := downstream(CommentsCall(r, id));
      && id != ""
      && news.Resp? && news.status == StatusOK && comments.Resp? && comments.status == StatusOK
      && (news.body.ReadError? || comments.body.ReadError?)
    ensures var id := Get(r.query, "id");
      var h := GetNewsDetails(r, downstream, valid);
      && StatusOf(h.ops) == StatusInternalServerError
      && h.calls == [NewsCall(r, id), CommentsCall(r, id)]
  {
  }

  /**
   * The encoder refusing a body comes after the 200 was sent: the client
   * sees 200 with an error message, while the logging wrapper records 500.
   */
  lemma DetailsEncodeFailureAfterCommit(r: Request, downstream: Downstream, valid: Bytes -> bool)
    requires RequestIdKey in r.context
    requires var id := Get(r.query, "id");
      var news := downstream(NewsCall(r, id));
      var comments := downstream(CommentsCall(r, id));
      && id != ""
      && news.Resp? && news.status == StatusOK && news.body.Data?
      && comments.Resp? && comments.status == StatusOK && comments.body.Data?
      && !(valid(news.body.data) && valid(comments.body.data))
    ensures var h := GetNewsDetails(r, downstream, valid);
      && StatusOf(h.ops) == StatusOK
      && BodyOf(h.ops) == [Text("Error encoding response")]
      && LastWriteHeader(h.ops, StatusOK) == StatusInternalServerError
  {
    var h := GetNewsDetails(r, downstream, valid);
    var header: GatewayOps := [SetHeader(ContentType, ApplicationJson), WriteHeader(StatusOK)];
    var err := Error<GatewayJson>("Error encoding response", StatusInternalServerError);
    assert h.ops == header + err;
    assert Commits(header[1]);
    StatusOfAppend(header, err);
    BodyOfAppend(header, err);
    assert header[1..][1..] == [];
    LastWriteHeaderAppend(header, err, StatusOK);
    ErrorLogsCode<GatewayJson>("Error encoding response", StatusInternalServerError, LastWriteHeader(header, StatusOK));
  }

  /** addComment: only POST is accepted; the body goes to the comments service unchanged. */
  function AddComment(r: Request, downstream: Downstream): (h: Handled)
    requires RequestIdKey in r.context
    ensures r.verb != "POST" ==> StatusOf(h.ops) == StatusMethodNotAllowed && h.calls == []
    ensures r.verb == "POST" ==> h == Forward(Call("POST", CommentsAdd, CtxId(r), r.body), downstream, "Error contacting comments service")
    ensures NeverSets(h.ops, RequestIdHeader)
  {
    if r.verb != "POST" then Handled(Error("Invalid request method", StatusMethodNotAllowed), [])
    else Forward(Call("POST", CommentsAdd, CtxId(r), r.body), downstream, "Error contacting comments service")
  }

  /** getComments: `news_id` is required; the comments service's answer is relayed as is. */
  function GetComments(r: Request, downstream: Downstream): (h: Handled)
    ensures Get(r.query, "news_id") == "" ==> StatusOf(h.ops) == StatusBadRequest && h.calls == []
    ensures Get(r.query, "news_id") != "" ==>
      var call := Call("GET", CommentsList(Get(r.query, "news_id")), CtxId(r), []);
      var resp := downstream(call);
      && h.calls == [call]
      && (resp.TransportErr? ==> StatusOf(h.ops) == StatusInternalServerError)
      && (resp.Resp? && resp.body.ReadError? ==> StatusOf(h.ops) == StatusInternalServerError)
      && (resp.Resp? && resp.body.Data? ==> StatusOf(h.ops) == resp.status && BodyOf(h.ops) == [Raw(resp.body.data)])
    ensures NeverSets(h.ops, RequestIdHeader)
  {
    var newsId := Get(r.query, "news_id");
    if newsId == "" then Handled(Error("Missing 'news_id' parameter", StatusBadRequest), [])
    else
      var call := Call("GET", CommentsList(newsId), CtxId(r), []);
      var resp := downstream(call);
      if resp.TransportErr? then Handled(Error("Error contacting comments service", StatusInternalServerError), [call])
      else Handled(Relay(resp.status, resp.body, "Error reading response from comments service"), [call])
  }

  /** http.ServeMux with exact paths: the handler for a path, or the mux's 404. */
  function Mux(r: Request, downstream: Downstream, valid: Bytes -> bool): (h: Handled)
    requires RequestIdKey in r.context
    ensures NeverSets(h.ops, RequestIdHeader)
    ensures forall c :: c in h.calls ==> c.requestId == Some(r.context[RequestIdKey])
  {
    if r.path == "/news" then GetNews(r, downstream)
    else if r.path == "/news/last" then GetLastNPosts(r, downstream)
    else if r.path == "/news/details" then
      GetNewsDetails(r, downstream, valid)
    else if r.path == "/news/comments" then GetComments(r, downstream)
    else if r.path == "/news/comments/add" then AddComment(r, downstream)
    else Handled(Error("404 page not found", StatusNotFound), [])
  }

  /**
   * The gateway's handler chain: requestIDMiddleware, then the logging
   * middleware, then the mux. Every downstream call carries the chosen id,
   * and the client's X-Request-ID is that id, whatever the services send back.
   */
  function Serve(r: Request, generated: string, downstream: Downstream, valid: Bytes -> bool): (h: Handled)
    requires IsUuid(generated)
    ensures var id := AdoptOrGenerate(Get(r.header, RequestIdHeader), generated);
      && (forall c :: c in h.calls ==> c.requestId == Some(id))
      && RequestIdHeader in HeaderOf(map[], h.ops) && HeaderOf(map[], h.ops)[RequestIdHeader] == id
    ensures var p := WithRequestId<GatewayJson>(r, generated);
      var inner := Mux(p.next, downstream, valid);
      && h.calls == inner.calls
      && StatusOf(h.ops) == StatusOf(inner.ops) && BodyOf(h.ops) == BodyOf(inner.ops)
  {
    var p := WithRequestId<GatewayJson>(r, generated);
    var inner := Mux(p.next, downstream, valid);
    ClientSeesRequestId(p, map[], inner.ops);
    StatusOfAppend(p.ops, inner.ops);
    BodyOfAppend(p.ops, inner.ops);
    assert !Committed(p.ops);
    Handled(p.ops + inner.ops, inner.calls)
  }

  /**
   * logRequestMiddleware around the mux: the client's writer receives the
   * handler's calls unchanged and the logged status is the last WriteHeader's code.
   */
  method LogRequestMiddleware(r: Request, downstream: Downstream, valid: Bytes -> bool) returns (sent: GatewayOps, logged: int)
    requires RequestIdKey in r.context
    ensures sent == Mux(r, downstream, valid).ops
    ensures logged == LastWriteHeader(Mux(r, downstream, valid).ops, StatusOK)
  {
    var h := Mux(r, downstream, valid);
    sent, logged := Record(h.ops);
  }
}
