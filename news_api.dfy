/**
 * The news aggregator's HTTP API (pkg/api): three GET routes over the post
 * store, behind a request-id middleware and a logging middleware. Each
 * handler is a function from the request and the table to the calls it
 * makes on the ResponseWriter. `fault` stands for a database failure of
 * the connection, which the table model does not produce on its own.
 */
module NewsApi {
  import opened Wrappers
  import opened Strconv
  import opened Http
  import PS = PostStore

  /** The JSON documents the handlers encode. */
  datatype Pagination = Pagination(currentPage: int, totalPages: int, itemsPerPage: int)

  datatype NewsJson =
    | PostsJson(posts: seq<PS.Row>)
    | PostJson(post: PS.Row)
    | PageJson(posts: seq<PS.Row>, pagination: Pagination)

  type NewsOps = seq<Op<NewsJson>>

  const ItemsPerPage := 15

  // ---------------------------------------------------------------------
  // Pagination arithmetic of getNews

  /** The page parameter: a positive integer is taken; anything else (missing, malformed, zero, negative) means page 1. */
  function ParsePage(s: string): (page: int)
    ensures 1 <= page && InInt64(page)
    ensures page != 1 ==> Atoi(s) == Some(page)
    ensures Atoi(s).Some? && Atoi(s).value <= 0 ==> page == 1
    ensures Atoi(s).Some? && Atoi(s).value > 0 ==> page == Atoi(s).value
    ensures Atoi(s).None? ==> page == 1
  {
    if s != "" then
      match Atoi(s)
      case Some(p) => if p > 0 then p else 1
      case None => 1
    else 1
  }

  /** Every page number a client can write in decimal is read back as itself. */
  lemma ParsePageItoa(n: int)
    requires 0 < n && InInt64(n)
    ensures ParsePage(Itoa(n)) == n
  {
    AtoiItoa(n);
  }

  /** The offset as the Go code computes it: `(page - 1) * itemsPerPage` in 64-bit int, which wraps. */
  function OffsetAsWritten(page: int): (offset: int)
    requires 1 <= page && InInt64(page)
    ensures InInt64(offset)
    ensures (page - 1) * ItemsPerPage <= MaxInt64 ==> offset == (page - 1) * ItemsPerPage
  {
    Wrap64((page - 1) * ItemsPerPage)
  }

  /** For page 2^62 + 1 the product wraps to -2^62. */
  lemma OffsetAsWrittenWraps()
    ensures OffsetAsWritten(0x4000_0000_0000_0001) == -0x4000_0000_0000_0000
  {
  }

  /**
   * The offset of a page: the first item of the page, `(page - 1) * 15`,
   * capped at the largest 64-bit value, so that it is never negative and a
   * page beyond the last is empty instead of an error.
   */
  function Offset(page: int): (offset: int)
    requires 1 <= page && InInt64(page)
    ensures 0 <= offset <= MaxInt64
    ensures (page - 1) * ItemsPerPage <= MaxInt64 ==> offset == (page - 1) * ItemsPerPage
    ensures (page - 1) * ItemsPerPage > MaxInt64 ==> offset == MaxInt64
  {
    Min((page - 1) * ItemsPerPage, MaxInt64)
  }

  /** `(total + itemsPerPage - 1) / itemsPerPage`: the number of pages needed for `total` items. */
  function TotalPages(total: nat): (pages: nat)
    ensures pages * ItemsPerPage >= total
    ensures total > 0 ==> (pages - 1) * ItemsPerPage < total
    ensures total == 0 <==> pages == 0
  {
    (total + ItemsPerPage - 1) / ItemsPerPage
  }

  /** Pages 1 to TotalPages hold items; every page after the last is empty. */
  lemma {:induction false} PageHoldsItemsIff(total: nat, page: int)
    requires 1 <= page && InInt64(page) && total <= MaxInt64
    ensures Offset(page) < total <==> page <= TotalPages(total)
  {
    var t := TotalPages(total);
    if page <= t {
      assert (page - 1) * ItemsPerPage <= (t - 1) * ItemsPerPage;
    } else {
      assert (page - 1) * ItemsPerPage >= t * ItemsPerPage;
    }
  }

  // ---------------------------------------------------------------------
  // Handlers

  /**
   * getLastNPosts on `/news/{n}`, where the route admits digits only. An n
   * too large for int is a bad request; a database failure is a server
   * error; otherwise the n newest posts are sent as JSON.
   */
  function GetLastNPosts(n: string, table: seq<PS.Row>, fault: bool): (ops: NewsOps)
    requires n != "" && AllDigits(n)
    ensures StatusOf(ops) == StatusBadRequest <==> DigitsValue(n) > MaxInt64
    ensures StatusOf(ops) == StatusInternalServerError <==> DigitsValue(n) <= MaxInt64 && fault
    ensures StatusOf(ops) == StatusOK <==> DigitsValue(n) <= MaxInt64 && !fault
    ensures StatusOf(ops) == StatusOK ==>
      && BodyOf(ops) == [Json(PostsJson(PS.GetLastNPosts(table, DigitsValue(n)).value))]
      && |BodyOf(ops)[0].value.posts| == Min(DigitsValue(n), |table|)
    ensures NeverSets(ops, RequestIdHeader)
  {
    AtoiDigits(n);
    match Atoi(n)
    case None => Error("Invalid number format", StatusBadRequest)
    case Some(k) =>
      var res: Result<seq<PS.Row>, PS.StoreError> := if fault then Err(PS.CouldNotGetPosts) else PS.GetLastNPosts(table, k);
      match res
      case Err(_) => Error("Error retrieving posts", StatusInternalServerError)
      case Ok(posts) => JsonReply<NewsJson>(PostsJson(posts))
  }

  /**
   * getNewsDetails: the `id` query parameter must be present and an
   * integer; the post with that id is sent, a missing post is 404, a
   * failed lookup 500.
   */
  function GetNewsDetails(r: Request, table: seq<PS.Row>, fault: bool): (ops: NewsOps)
    ensures var idStr := Get(r.query, "id");
      && (StatusOf(ops) == StatusBadRequest <==> Atoi(idStr).None?)
      && (StatusOf(ops) == StatusInternalServerError <==>
            Atoi(idStr).Some? && (fault || !PS.InInt4(Atoi(idStr).value)))
      && (StatusOf(ops) == StatusNotFound <==>
            Atoi(idStr).Some? && !fault && PS.InInt4(Atoi(idStr).value) && !PS.IdTaken(table, Atoi(idStr).value))
      && (StatusOf(ops) == StatusOK <==>
            Atoi(idStr).Some? && !fault && PS.InInt4(Atoi(idStr).value) && PS.IdTaken(table, Atoi(idStr).value))
      && (StatusOf(ops) == StatusOK ==>
            exists row :: row in table && row.id == Atoi(idStr).value && BodyOf(ops) == [Json(PostJson(row))])
    ensures NeverSets(ops, RequestIdHeader)
  {
    var idStr := Get(r.query, "id");
    if idStr == "" then Error("Missing 'id' parameter", StatusBadRequest)
    else match Atoi(idStr)
      case None => Error("Invalid 'id' parameter format: must be a number", StatusBadRequest)
      case Some(id) =>
        var res: Result<Option<PS.Row>, PS.StoreError> := if fault then Err(PS.CouldNotGetPost) else PS.GetPostByID(table, id);
        match res
        case Err(_) => Error("Error retrieving post", StatusInternalServerError)
        case Ok(None) => Error("Post not found", StatusNotFound)
        case Ok(Some(post)) => JsonReply<NewsJson>(PostJson(post))
  }

  /**
   * The search behind getNews for a given offset: 15 matching posts from
   * `offset` on, with the count of all matches turned into page numbers.
   */
  function SearchPage(query: string, page: int, offset: int, table: seq<PS.Row>, fault: bool): (ops: NewsOps)
    ensures StatusOf(ops) == if fault || offset < 0 then StatusInternalServerError else StatusOK
    ensures NeverSets(ops, RequestIdHeader)
    ensures !fault && offset >= 0 ==>
      var matching := PS.Matching(table, query);
      && BodyOf(ops) == [Json(PageJson(
           PS.Take(PS.Drop(PS.OrderByPubTimeDesc(matching), offset), ItemsPerPage),
           Pagination(page, TotalPages(|matching|), ItemsPerPage)))]
  {
    var res: Result<(seq<PS.Row>, int), PS.StoreError> :=
      if fault then Err(PS.CouldNotGetPosts) else PS.SearchPostsByTitle(table, query, ItemsPerPage, offset);
    if res.Err? then Error("Error retrieving posts", StatusInternalServerError)
    else
      var total := res.value.1;
      assert total == |PS.Matching(table, query)|;
      JsonReply<NewsJson>(PageJson(res.value.0, Pagination(page, TotalPages(total), ItemsPerPage)))
  }

  /** getNews as the Go code computes it, with the wrapping offset. */
  function GetNewsAsWritten(r: Request, table: seq<PS.Row>, fault: bool): (ops: NewsOps)
    ensures var page := ParsePage(Get(r.query, "page"));
      StatusOf(ops) == if fault || OffsetAsWritten(page) < 0 then StatusInternalServerError else StatusOK
    ensures NeverSets(ops, RequestIdHeader)
    ensures var page := ParsePage(Get(r.query, "page"));
      !fault && OffsetAsWritten(page) >= 0 ==>
      var matching := PS.Matching(table, Get(r.query, "s"));
      && BodyOf(ops) == [Json(PageJson(
           PS.Take(PS.Drop(PS.OrderByPubTimeDesc(matching), OffsetAsWritten(page)), ItemsPerPage),
           Pagination(page, TotalPages(|matching|), ItemsPerPage)))]
  {
    var page := ParsePage(Get(r.query, "page"));
    SearchPage(Get(r.query, "s"), page, OffsetAsWritten(page), table, fault)
  }

  /**
   * getNews: search titles for `s` and send the requested page together
   * with its pagination record. Only a database failure makes it fail; the
   * page holds the matches newest first from the page's offset on, and
   * the total counts every match whatever the page.
   */
  function GetNews(r: Request, table: seq<PS.Row>, fault: bool): (ops: NewsOps)
    ensures StatusOf(ops) == if fault then StatusInternalServerError else StatusOK
    ensures NeverSets(ops, RequestIdHeader)
    ensures !fault ==>
      var q := Get(r.query, "s");
      var page := ParsePage(Get(r.query, "page"));
      var matching := PS.Matching(table, q);
      && BodyOf(ops) == [Json(PageJson(
           PS.Take(PS.Drop(PS.OrderByPubTimeDesc(matching), Offset(page)), ItemsPerPage),
           Pagination(page, TotalPages(|matching|), ItemsPerPage)))]
  {
    var page := ParsePage(Get(r.query, "page"));
    SearchPage(Get(r.query, "s"), page, Offset(page), table, fault)
  }

  /**
   * The wrapping offset turns a request for page 2^62 + 1 into a server
   * error, although no database failure occurred; the corrected offset
   * answers it with an empty page.
   */
  lemma HugePageFailsAsWritten(r: Request, table: seq<PS.Row>)
    requires Get(r.query, "page") == Itoa(0x4000_0000_0000_0001)
    ensures StatusOf(GetNewsAsWritten(r, table, false)) == StatusInternalServerError
    ensures StatusOf(GetNews(r, table, false)) == StatusOK
  {
    ParsePageItoa(0x4000_0000_0000_0001);
    OffsetAsWrittenWraps();
  }

  // ---------------------------------------------------------------------
  // Routing and middleware

  /** The routes of RegisterRoutes, for GET requests. */
  datatype Route = Details | LastN(n: string) | Search | NoRoute

  /** gorilla/mux matching: "/news/details", then "/news/{n:[0-9]+}", then "/news". */
  function RouteOf(path: string): (route: Route)
    ensures route.LastN? ==> route.n != "" && AllDigits(route.n) && path == "/news/" + route.n
  {
    if path == "/news/details" then Details
    else if |path| > 6 && path[..6] == "/news/" && AllDigits(path[6..]) then
      assert path == "/news/" + path[6..];
      LastN(path[6..])
    else if path == "/news" then Search
    else NoRoute
  }

  /** The handler a matched GET request reaches. */
  function Dispatch(route: Route, r: Request, table: seq<PS.Row>, fault: bool): (ops: NewsOps)
    requires !route.NoRoute?
    requires route.LastN? ==> route.n != "" && AllDigits(route.n)
    ensures NeverSets(ops, RequestIdHeader)
  {
    match route
    case Details => GetNewsDetails(r, table, fault)
    case LastN(n) => GetLastNPosts(n, table, fault)
    case Search => GetNews(r, table, fault)
  }

  /**
   * A request through the router. Middlewares run only once a route
   * matched: then the request-id middleware sets the id on the response and
   * in the context the handler sees. An unknown path is mux's plain 404 and
   * a matched path with another method its bare 405.
   */
  function Serve(r: Request, generated: string, table: seq<PS.Row>, fault: bool): (ops: NewsOps)
    requires IsUuid(generated)
    ensures RouteOf(r.path).NoRoute? ==> StatusOf(ops) == StatusNotFound && NeverSets(ops, RequestIdHeader)
    ensures !RouteOf(r.path).NoRoute? && r.verb != "GET" ==> StatusOf(ops) == StatusMethodNotAllowed
    ensures !RouteOf(r.path).NoRoute? && r.verb == "GET" ==>
      var p := WithRequestId<NewsJson>(r, generated);
      var sent := HeaderOf(map[], ops);
      && RequestIdHeader in sent && sent[RequestIdHeader] == AdoptOrGenerate(Get(r.header, RequestIdHeader), generated)
      && ops == p.ops + Dispatch(RouteOf(r.path), p.next, table, fault)
      && StatusOf(ops) == StatusOf(Dispatch(RouteOf(r.path), p.next, table, fault))
      && BodyOf(ops) == BodyOf(Dispatch(RouteOf(r.path), p.next, table, fault))
  {
    var route := RouteOf(r.path);
    if route.NoRoute? then Error("404 page not found", StatusNotFound)
    else if r.verb != "GET" then
      var ops := [WriteHeader(StatusMethodNotAllowed)];
      ops
    else
      var p := WithRequestId<NewsJson>(r, generated);
      var handler := Dispatch(route, p.next, table, fault);
      ClientSeesRequestId(p, map[], handler);
      StatusOfAppend(p.ops, handler);
      BodyOfAppend(p.ops, handler);
      assert !Committed(p.ops);
      p.ops + handler
  }

  /**
   * LoggingMiddleware around a handler whose calls are `ops`: the handler's
   * calls reach the client's writer unchanged, and the log line carries the
   * id of LoggedId and the code of the last WriteHeader, 200 when there was none.
   */
  method LoggingMiddleware(r: Request, ops: NewsOps) returns (sent: NewsOps, loggedId: string, loggedStatus: int)
    ensures sent == ops
    ensures loggedId == LoggedId(r)
    ensures loggedStatus == LastWriteHeader(ops, StatusOK)
  {
    loggedId := LoggedId(r);
    sent, loggedStatus := Record(ops);
  }

  /** Behind the request-id middleware the logging middleware always finds the id. */
  lemma LoggedIdIsRequestId(r: Request, generated: string)
    requires IsUuid(generated)
    ensures LoggedId(WithRequestId<NewsJson>(r, generated).next) == AdoptOrGenerate(Get(r.header, RequestIdHeader), generated)
  {
  }
}
