# News aggregator with comments: a Dafny model

The system is a set of small Go HTTP services:

- **news service** (`News_aggregator`): keeps RSS posts in a PostgreSQL `posts` table. It serves
  - the latest *n* posts;
  - one post by id;
  - a paginated, case-insensitive title search (15 items per page).
- **comments service** (`CommentsService`): stores comments in a `comments` table and lists a news item's comments. It accepts a new comment only after the censorship service approves its text.
- **censorship service**: answers 200 when a text contains none of its forbidden words and 400 otherwise.
- **API gateway**: the only public entry point. It forwards each request to the news or comments service and joins a post with its comments for the details page.

Request ids (`X-Request-ID`) are handled differently by each service:

- **Gateway** (`APIGateway/main.go:22-58`): adopts the caller's id or mints a UUID, echoes it in the response and puts it in the request context. It passes the id downstream. Its log line has the final status but not the id.
- **News service router** (`pkg/api/api.go:161-207`): the same adopt-or-mint middleware. It logs the id together with the last status written.
- **News service entry point** (`cmd/server/main.go:19-32`): runs another middleware before the router's. That middleware overwrites the inbound `X-Request-ID` with the `request_id` query value or a fresh UUID, so the router never sees the caller's header. The entry point is not part of this model (see Left out).
- **Comments service** (`CommentsService/middleware.go:13-54`): adopts or mints the id, echoes it and puts it in the context. It logs the id with the request's duration, not a status.
- **Censorship service**: has no request-id middleware.

## How the model is built

- **HTTP handlers** are pure functions. Each returns the sequence of calls it makes on Go's
  `http.ResponseWriter` (`SetHeader`, `WriteHeader`, `Write`).
- **`Http`** computes what a client sees from that sequence:
  - the first `WriteHeader` wins, and a `Write` first commits 200;
  - header changes after the commit are lost;
  - the body is every write, in order.

  The logging wrappers are the class `Http.StatusRecorder`, which the loop method `Http.Record` replays. They record the *last* code passed to `WriteHeader`.
- **Storage.**
  - The news store is the class `PostStore.Storage`: the committed `rows` plus the SERIAL counter `nextId`. Transactions are `PostStore.Tx`. The SQL queries are functions over the rows.
  - The comments table is the class `CommentStore.CommentTable`.
- **Parameters.** These are not modelled as code; the caller supplies them:
  - the downstream services, the censor and the time parser are functions;
  - a database failure is `fault: bool`;
  - a freshly generated UUID is `generated`;
  - a JSON decoder's outcome is `decoded`.
- **Go integers.** `int` is 64-bit (`Strconv.Wrap64`). PostgreSQL `INT`/`SERIAL` columns are 32-bit (`InInt4`).

Behaviours worth noting:

- **`SavePosts`** (`storage.go:130-146`) runs the whole batch in one transaction. It rolls everything back on the first duplicate link, unparsable date or failed INSERT; it does not skip duplicates. A failed `Begin` or `Commit` also leaves the table unchanged.
- **The gateway** never copies a downstream service's `X-Request-ID` into its reply. The id it returns is always its own (`Gateway.Serve`).
- **Messages.** The error texts sent to clients are English and are modelled verbatim (`"Invalid request body"`, `"Text contains forbidden words"`, …). Only the code comments are Russian.
- **`GET /comments` order.** The query has no `ORDER BY`, so the listed comments are specified as a multiset, not a sequence.
- **`parent_id`** is not checked against existing comments, and **`news_id`** is not checked against existing posts. There are no foreign keys.
- **`CommentsService/api.go`'s censor call** sends a JSON request with no `X-Request-ID` (`CommentsApi.CensorRequestFor`).
- **`CommentsService/handlers.go`.**
  - It posts plain text to `localhost:8082/censor`, the news service's port. That service has no `/censor` route. Its entry point registers a `PathPrefix("/")` file server over `./webapp` (`cmd/server/main.go:68`), which answers 404 because no such file exists. So every comment is rejected (`CommentsHandlers.TracedGateRejectsAll`, stated for a 404 answer).
  - Its handlers are not registered on the router.
  - Its `GetCommentsHandler` is the same code as `api.go`'s, modelled once by `CommentsApi.GetCommentsHandler`.
- **Title search.** The query string is put into `ILIKE '%q%'` without escaping, so `%`, `_` and `\` in a query act as patterns (`SqlLike.UnderscoreMatchesAnyTitle`). The contains-semantics holds only for plain queries (`SqlLike.TitleMatchesIsContains`).
- **Gateway details page.** The envelope is encoded after `WriteHeader(200)`. So when encoding fails, the client gets 200 with the text "Error encoding response", while the log records 500 (`Gateway.DetailsEncodeFailureAfterCommit`).
- **Rejected inserts.** A post insert rejected by the unique `link` constraint still consumes a SERIAL id (`PostStore.InsertPost`).

## Model

| member | source | states |
|---|---|---|
| Strconv.Atoi | News_aggregator/pkg/api/api.go:123 | succeeds iff, after an optional sign, the string is a non-empty run of digits whose signed value fits in int64, and then yields that value; the empty string is an error |
| Strconv.AtoiItoa | News_aggregator/pkg/api/api.go:123 | Atoi reads back every 64-bit value that Itoa writes |
| Strconv.AtoiDigits | News_aggregator/pkg/api/api.go:44-48 | a non-empty run of digits parses exactly when its value fits in int64, to that value |
| Strconv.Wrap64 | News_aggregator/pkg/api/api.go:129-130 | Go int arithmetic: result in int64, unchanged when in range, congruent modulo 2^64 |
| Strings.LowerChar | News_aggregator/pkg/storage/storage.go:247-248 | ASCII case folding: never upper; upper letters shift by 32; others kept |
| Strings.ToLower | News_aggregator/pkg/storage/storage.go:247-248 | same length, each character folded |
| Strings.LowerHasNoUpper | censorship-service/main.go:38 | lower-cased text has no upper-case letter |
| Strings.UpperNeverInLower | censorship-service/main.go:38-40 | a word with an upper-case letter never occurs in lower-cased text |
| Strings.ContainsEmpty | censorship-service/main.go:40 | the empty word occurs in every text |
| SqlLike.PercentMatchesAll | News_aggregator/pkg/storage/storage.go:247-248 | the pattern `%` matches every string |
| SqlLike.LiteralThenPercent | News_aggregator/pkg/storage/storage.go:247-248 | a plain literal followed by `%` matches exactly the strings it prefixes |
| SqlLike.PercentThen | News_aggregator/pkg/storage/storage.go:247-248 | a leading `%` matches when the rest matches some suffix |
| SqlLike.PlainPatternIsContains | News_aggregator/pkg/storage/storage.go:247-248 | `%q%` with a plain q matches exactly the strings containing q |
| SqlLike.LowerKeepsPlain | News_aggregator/pkg/storage/storage.go:247-248 | folding case keeps a query free of wildcards |
| SqlLike.TitleMatchesIsContains | News_aggregator/pkg/storage/storage.go:247-248 | `title ILIKE '%q%'` for a plain q is case-insensitive containment |
| SqlLike.EmptyQueryMatchesAll | News_aggregator/pkg/storage/storage.go:247-248 | an empty search query matches every title |
| SqlLike.UnderscoreMatchesAnyTitle | News_aggregator/pkg/storage/storage.go:247-248 | the unescaped query `_` matches a title that does not contain `_` |
| Http.Get | News_aggregator/pkg/api/api.go:117 | Query().Get / Header.Get: the value when present, "" otherwise |
| Http.StatusOf | News_aggregator/pkg/api/api.go:153-157 | the client's status: 200 until something commits, then the code of the first committing operation (a Write commits 200) |
| Http.BodyOf | News_aggregator/pkg/api/api.go:153-157 | the client's body holds every written part and nothing else; empty when nothing is written |
| Http.HeaderOf | News_aggregator/pkg/api/api.go:153-157 | the header the client receives keeps every field set before, changes a field only through a SetHeader, and is untouched when the first operation commits |
| Http.LastWriteHeader | News_aggregator/pkg/api/api.go:210-218 | the status a wrapper records: the last WriteHeader's code, or its initial value when there is none |
| Http.Error | News_aggregator/pkg/api/api.go:135 | http.Error: the code and message reach the client, the response is committed, no request id header is set |
| Http.JsonReply | News_aggregator/pkg/api/api.go:153-154 | a JSON reply: status 200, the value as body, Content-Type application/json |
| Http.ErrorLogsCode | News_aggregator/pkg/api/api.go:212-215 | the logging wrapper records the code http.Error writes |
| Http.StatusOfAppend | News_aggregator/pkg/api/api.go:210-218 | the status of a concatenation is decided by the first part once it has committed |
| Http.BodyOfAppend | News_aggregator/pkg/api/api.go:210-218 | the body of a concatenation is the concatenation of bodies |
| Http.HeaderOfAppend | News_aggregator/pkg/api/api.go:210-218 | header changes before the commit compose |
| Http.HeaderOfKeeps | News_aggregator/pkg/api/api.go:177 | a header field no later operation sets keeps its value |
| Http.NeverSetsAppend | News_aggregator/pkg/api/api.go:177 | not setting a header is preserved by concatenation |
| Http.LastWriteHeaderAppend | News_aggregator/pkg/api/api.go:212-215 | the recorded code after a concatenation continues from the first part's |
| Http.AdoptOrGenerate | News_aggregator/pkg/api/api.go:164-171 | an inbound id is adopted, an empty one replaced by the generated UUID; never empty |
| Http.WithRequestId | News_aggregator/pkg/api/api.go:161-182 | the id goes to the context under request_id and to the response header, nothing else changes |
| Http.ClientSeesRequestId | News_aggregator/pkg/api/api.go:177 | a handler that does not touch X-Request-ID leaves the middleware's id in the response |
| Http.StatusRecorder.Call | News_aggregator/pkg/api/api.go:210-218 | the wrapper forwards the operation and records each WriteHeader code |
| Http.Record | News_aggregator/pkg/api/api.go:185-207 | replaying a response through the wrapper forwards it unchanged and records the last WriteHeader, 200 if none |
| Http.LoggedId | News_aggregator/pkg/api/api.go:188-191 | the logged id is the context's request_id, or "unknown" when absent |
| PostStore.FirstParseSpec | News_aggregator/pkg/storage/storage.go:97-113 | the first layout that parses wins; no result exactly when every layout fails |
| PostStore.InsertPost | News_aggregator/pkg/storage/storage.go:88-127 | CouldNotParseTime iff no layout parses; an error leaves the rows; a driver fault fails without drawing an id; a success appends one row under the id nextId; the sequence advances by at most one |
| PostStore.ApplyBatch | News_aggregator/pkg/storage/storage.go:130-146 | a failure is the failing post's error wrapped in CouldNotSavePost; the sequence never goes back; the rows only grow, by at most one per post, by exactly one per post on success |
| PostStore.ParsePubTime | News_aggregator/pkg/storage/storage.go:97-115 | the loop over the four layouts returns the first successful parse, None iff all fail |
| PostStore.InsertPostSpec | News_aggregator/pkg/storage/storage.go:88-127 | one insert keeps ids unique and links unique; succeeds iff the date parses and the link is new; appends exactly the post; on error the table is unchanged |
| PostStore.LinkTakenAppend | News_aggregator/pkg/storage/storage.go:72 | the unique link column after an append |
| PostStore.AcceptableStep | News_aggregator/pkg/storage/storage.go:130-146 | a batch after a successful first insert is acceptable iff the whole batch was |
| PostStore.AddsStep | News_aggregator/pkg/storage/storage.go:130-146 | the rows a batch adds are built up post by post |
| PostStore.BatchSucceedsIff | News_aggregator/pkg/storage/storage.go:130-188 | a batch commits iff every date parses and every link is new and distinct; it adds exactly the batch, keeping the table invariant |
| PostStore.Tx.Begin | News_aggregator/pkg/storage/storage.go:131-134 | a transaction starts from the committed rows |
| PostStore.Storage.New | News_aggregator/pkg/storage/storage.go:38-80 | a reset table is empty and its SERIAL starts at 1 |
| PostStore.Storage.SavePost | News_aggregator/pkg/storage/storage.go:88-127 | SavePost performs InsertPost on the table, a driver fault included, and keeps the table invariant |
| PostStore.Storage.SavePostTx | News_aggregator/pkg/storage/storage.go:149-188 | the insert, a driver fault included, goes to the transaction; the committed rows are untouched |
| PostStore.Storage.InsertAll | News_aggregator/pkg/storage/storage.go:138-142 | the loop ends with the error, the transaction rows and the sequence value of ApplyBatch; the committed rows are untouched |
| PostStore.Storage.SavePosts | News_aggregator/pkg/storage/storage.go:130-146 | a failed Begin changes nothing; otherwise the sequence ends where the batch left it; a failed INSERT or a failed Commit leaves the committed rows unchanged; success commits exactly the batch's rows; the table invariant holds throughout |
| PostStore.InsertByPubTime | News_aggregator/pkg/storage/storage.go:195 | inserting into a newest-first list keeps it sorted and is a permutation |
| PostStore.OrderByPubTimeDesc | News_aggregator/pkg/storage/storage.go:195 | ORDER BY pub_time DESC: sorted newest first, a permutation of the input |
| PostStore.SplitMultiset | News_aggregator/pkg/storage/storage.go:195 | LIMIT and its remainder partition the ordered rows |
| PostStore.SortedSplit | News_aggregator/pkg/storage/storage.go:195 | in a newest-first list every row after a cut is no newer than every row before it |
| PostStore.GetLastNPosts | News_aggregator/pkg/storage/storage.go:191-220 | n >= 0 succeeds with min(n, table) rows, newest first, drawn from the table; a negative LIMIT fails |
| PostStore.LatestAreNewest | News_aggregator/pkg/storage/storage.go:195 | no omitted row is newer than a returned one |
| PostStore.GetPostByID | News_aggregator/pkg/storage/storage.go:222-241 | an id outside int4 fails; a missing id gives no post; a found post is in the table and has that id |
| PostStore.Matching | News_aggregator/pkg/storage/storage.go:247-248 | the rows whose titles match, each as often as in the table |
| PostStore.SortedSlice | News_aggregator/pkg/storage/storage.go:254 | a slice of a newest-first list is newest first and drawn from it |
| PostStore.PageOfSorted | News_aggregator/pkg/storage/storage.go:254 | an OFFSET/LIMIT page of a sorted list is sorted, drawn from it, and of the expected length |
| PostStore.SortedKeepsLength | News_aggregator/pkg/storage/storage.go:254 | ordering keeps the number of rows |
| PostStore.MatchingMembers | News_aggregator/pkg/storage/storage.go:254 | every ordered match is a table row with a matching title |
| PostStore.SearchPostsByTitle | News_aggregator/pkg/storage/storage.go:244-273 | fails iff LIMIT or OFFSET is negative; total is the match count; the page is the matches newest first, offset then limited; every row on it matches |
| PostStore.MockStorage.constructor | News_aggregator/pkg/storage/storage.go:25-27 | the mock holds the given posts |
| PostStore.MockStorage.GetLastNPosts | News_aggregator/pkg/storage/storage.go:30-35 | the mock returns the first min(n, len) posts |
| PostStore.DuplicateLinkBatchFails | News_aggregator/pkg/storage/storage.go:130-146 | a batch holding the same post twice is rejected |
| PostStore.SaveThenReadLatest | News_aggregator/pkg/storage/storage_test.go:42-65 | after saving one post, the latest post read back is it |
| PostStore.LowerGo | News_aggregator/pkg/storage/storage_test.go:97 | the folded query "Go" is "go" |
| PostStore.GoAt | News_aggregator/pkg/storage/storage_test.go:97 | a title holding "go" in any case matches "Go" |
| PostStore.NoGo | News_aggregator/pkg/storage/storage_test.go:97 | a title without "go" in any case does not match |
| PostStore.LearningPythonHasNoGo | News_aggregator/pkg/storage/storage_test.go:84 | "Learning Python" holds no "go" |
| PostStore.SearchFirstAndThird | News_aggregator/pkg/storage/storage_test.go:101-114 | over three rows where the first and third match, the search counts two and returns exactly those two rows, as a multiset |
| PostStore.SearchGoInTestTitles | News_aggregator/pkg/storage/storage_test.go:82-122 | searching "Go" over the test titles counts two and returns the first and third rows, so both Go titles, one each |
| PostStore.SearchTwoOfThree | News_aggregator/pkg/storage/storage_test.go:82-122 | saving the three test posts and searching "Go" gives total 2 and two results carrying the two Go titles, one each |
| NewsApi.ParsePage | News_aggregator/pkg/api/api.go:120-126 | page is at least 1; a positive value read by Atoi is taken as is; an unparsable string or a non-positive value leaves 1 |
| NewsApi.ParsePageItoa | News_aggregator/pkg/api/api.go:120-126 | every positive 64-bit page written in decimal is read back |
| NewsApi.OffsetAsWritten | News_aggregator/pkg/api/api.go:129-130 | (page-1)*15 in Go int: equal to the product when it fits |
| NewsApi.OffsetAsWrittenWraps | News_aggregator/pkg/api/api.go:129-130 | page 2^62+1 gives a negative offset |
| NewsApi.Offset | News_aggregator/pkg/api/api.go:129-130 | the corrected offset: never negative, the product when it fits, MaxInt64 otherwise |
| NewsApi.TotalPages | News_aggregator/pkg/api/api.go:139 | ceiling division: enough pages for all matches, none to spare, zero iff none |
| NewsApi.PageHoldsItemsIff | News_aggregator/pkg/api/api.go:129-139 | a page has items exactly when it lies within total_pages |
| NewsApi.GetLastNPosts | News_aggregator/pkg/api/api.go:39-65 | 400 iff n overflows int, 500 iff the store fails, otherwise 200 with min(n, table) posts, newest first |
| NewsApi.GetNewsDetails | News_aggregator/pkg/api/api.go:68-110 | 400 iff id is not an int, 500 on a store error or an id outside int4, 404 iff no such post, 200 with that post otherwise |
| NewsApi.SearchPage | News_aggregator/pkg/api/api.go:132-157 | 500 iff the store fails or the offset is negative; otherwise the page of matches and the pagination block |
| NewsApi.GetNewsAsWritten | News_aggregator/pkg/api/api.go:113-158 | with the wrapping offset: 500 iff the store fails or the offset wrapped negative; otherwise 200 with the matches newest first from that offset, 15 of them, and the page count |
| NewsApi.GetNews | News_aggregator/pkg/api/api.go:113-158 | with the corrected offset: 500 iff the store fails; otherwise 200 with page 'page' of the matches, 15 per page, and the page count |
| NewsApi.HugePageFailsAsWritten | News_aggregator/pkg/api/api.go:120-136 | page=2^62+1 makes the code as written answer 500, the corrected handler 200 |
| NewsApi.RouteOf | News_aggregator/pkg/api/api.go:28-37 | `/news/{n:[0-9]+}` accepts only non-empty digits |
| NewsApi.Dispatch | News_aggregator/pkg/api/api.go:34-36 | no routed handler sets X-Request-ID |
| NewsApi.Serve | News_aggregator/pkg/api/api.go:28-37 | unknown path gives 404 without middleware; non-GET on a route gives 405; otherwise the middleware's id is in the response header and status and body are the handler's |
| NewsApi.LoggingMiddleware | News_aggregator/pkg/api/api.go:185-207 | forwards the response unchanged, logs the context id and the last code written |
| NewsApi.LoggedIdIsRequestId | News_aggregator/pkg/api/api.go:161-207 | the id logged is the one the request id middleware chose |
| Gateway.CtxId | APIGateway/main.go:67-70 | the id forwarded downstream is the context's request_id |
| Gateway.Relay | APIGateway/main.go:87-110 | downstream status and body are relayed; a body read error gives 500 |
| Gateway.ProcessResponse | APIGateway/main.go:87-110 | processResponse relays status and body, 500 on a read error |
| Gateway.Forward | APIGateway/main.go:60-85 | exactly one downstream call; a transport error gives 500; otherwise the response is relayed |
| Gateway.GetLastNPosts | APIGateway/main.go:112-131 | missing n gives 400 and no call; otherwise the call to /news/{n} is forwarded |
| Gateway.GetNews | APIGateway/main.go:134-156 | one call to /news with s and page, page defaulting to "1" |
| Gateway.GetNewsDetails | APIGateway/main.go:159-245 | never sets X-Request-ID; every downstream call carries the context id; no call iff id is missing; otherwise the news call first and, only after it, the comments call |
| Gateway.DetailsMissingId | APIGateway/main.go:160-164 | missing id gives 400 and no downstream call |
| Gateway.DetailsNewsFailureShortCircuits | APIGateway/main.go:166-185 | a failed news call stops there, with its status or 500 |
| Gateway.DetailsCommentsFailure | APIGateway/main.go:189-210 | a failed comments call gives its status or 500, after both calls |
| Gateway.DetailsReadError | APIGateway/main.go:208-221 | both services answered 200 but a body could not be read: 500, after both calls |
| Gateway.DetailsSuccess | APIGateway/main.go:212-244 | both 200 with valid JSON: 200 with news and comments in one envelope, two calls |
| Gateway.DetailsOkIff | APIGateway/main.go:159-245 | the client sees 200 exactly when both services answered 200 and both bodies were read |
| Gateway.DetailsEncodeFailureAfterCommit | APIGateway/main.go:232-244 | an encode failure after WriteHeader(200) reaches the client as 200 with an error text while the log records 500 |
| Gateway.AddComment | APIGateway/main.go:248-271 | non-POST gives 405 and no call; POST forwards the body to /comments |
| Gateway.GetComments | APIGateway/main.go:284-311 | missing news_id gives 400; otherwise one call whose status and body are relayed, 500 on transport or read error |
| Gateway.Mux | APIGateway/main.go:313-326 | no handler sets X-Request-ID; every downstream call carries the context id |
| Gateway.Serve | APIGateway/main.go:22-58 | every downstream call and the response header carry the adopted or generated id; status and body are the mux's |
| Gateway.LogRequestMiddleware | APIGateway/main.go:34-58 | forwards the response unchanged and logs the last written code |
| CommentStore.ToColumn | CommentsService/database.go:42-47 | a nil parent is NULL, a present one its value |
| CommentStore.FromColumn | CommentsService/database.go:70-78 | a NULL parent is read back as none, otherwise its value |
| CommentStore.ParentRoundTrip | CommentsService/database.go:42-78 | a parent id survives a store and read back |
| CommentStore.CommentsOf | CommentsService/database.go:55-82 | the comments of news item k all have news_id k |
| CommentStore.CommentsOfMembers | CommentsService/database.go:55-82 | a comment is listed iff some row of that news item reads back as it |
| CommentStore.CommentTable.Open | CommentsService/database.go:26-32 | a table over existing rows and its SERIAL counter |
| CommentStore.CommentTable.SaveComment | CommentsService/database.go:42-53 | error iff the database fails or a value exceeds int4; on success the row is appended under a fresh id, returned |
| CommentStore.CommentTable.GetCommentsByNewsID | CommentsService/database.go:55-82 | error iff the database fails or news_id exceeds int4; otherwise the comments of that news item, in some order |
| CommentStore.SaveThenList | CommentsService/database.go:42-82 | a saved comment is listed back under its new id |
| Censorship.ContainsForbiddenWords | censorship-service/main.go:37-45 | true iff some forbidden word occurs in the lower-cased text |
| Censorship.UpperCaseWordIgnored | censorship-service/main.go:37-45 | a forbidden word with a capital letter never matches |
| Censorship.MoreWordsRejectMore | censorship-service/main.go:37-45 | adding forbidden words never accepts more texts |
| Censorship.EmptyWordRejectsAll | censorship-service/main.go:37-45 | an empty forbidden word rejects every text |
| Censorship.CensorHandler | censorship-service/main.go:16-35 | 200 with an empty body iff the body decoded and holds no forbidden word; 400 otherwise |
| CommentsMiddleware.RequestIDMiddleware | CommentsService/middleware.go:13-31 | adopts or generates the id, stores it in the context and the response header, changes nothing else |
| CommentsMiddleware.LoggingMiddleware | CommentsService/middleware.go:34-54 | passes the request on; logs its context id or "unknown" |
| CommentsApi.CensorRequestFor | CommentsService/api.go:82-105 | POST JSON to localhost:8083/censor with only Content-Type set, no request id |
| CommentsApi.CheckCensorship | CommentsService/api.go:82-124 | approved iff the censor answered 200; transport errors reject |
| CommentsApi.GateAgreesWithCensor | CommentsService/api.go:82-124 | against the censorship service, the gate approves exactly the texts with no forbidden word |
| CommentsApi.AddCommentGated | CommentsService/api.go:37-61 | undecodable body gives 400 with no censor call; rejected text gives 400 and stores nothing; otherwise 500 on a database error or 200 with the stored comment; nothing is stored without approval |
| CommentsApi.AddCommentHandler | CommentsService/api.go:37-61 | the api.go handler: the gated flow with api.go's censor request; nothing is stored unless checkCensorship approved |
| CommentsApi.GetCommentsHandler | CommentsService/api.go:64-80 | 400 iff news_id is not an int, 500 on a database error, 200 with exactly that item's comments otherwise |
| CommentsApi.Serve | CommentsService/api.go:26-34 | /comments only, else 404; POST and GET routed, others 405; the adopted or generated id in the response header; the table changes only on an approved POST; POST answers as AddCommentHandler and GET as GetCommentsHandler, GET leaving the table unchanged |
| CommentsHandlers.TracedCensorRequest | CommentsService/handlers.go:57-70 | POST plain text to localhost:8082/censor, X-Trace-ID copied only when present, no request id |
| CommentsHandlers.CheckCensorship | CommentsService/handlers.go:57-78 | approved iff that request got 200 |
| CommentsHandlers.AddCommentHandler | CommentsService/handlers.go:12-36 | the same gated flow with the handlers.go censor request |
| CommentsHandlers.TracedGateRejectsAll | CommentsService/handlers.go:57-78 | when that port answers 404, every comment is rejected |

## Left out

- SQL engine: connection and driver failures are the `fault`, `beginFault`, `failAt` and `commitFault` parameters. Transaction isolation and concurrent writers are not modelled.
- PostStore.InsertPost: a driver fault is taken to fail before PostgreSQL draws a SERIAL value. A failure that draws one first is not modelled; ids are not observable on that path.
- Order of equal `pub_time` values: `OrderByPubTimeDesc` breaks ties by table order. PostgreSQL leaves the order of equal values unspecified (`storage.go:195`, `storage.go:254`), so the model fixes one of the orders the database may return.
- PostStore.SearchTwoOfThree: states that both Go titles come back, not the order `storage_test.go:117-122` checks. The test dates all three posts with `time.Now()` at one-second precision, so their timestamps are usually equal, and then their order is the one the point above leaves open. If the clock ticks between two saves, the newer "Advanced Go Concepts" comes first, which is not the order the test expects.
- Empty post lists: `GetLastNPosts` and `SearchPostsByTitle` return a nil slice when no row matches (`storage.go:204`, `storage.go:261`), which encodes as `null` rather than `[]`. The model returns an empty sequence.
- NewsApi.Dispatch: routes `/news` to the corrected `GetNews`. So `page=4611686018427387905` (2^62+1) answers 200 there, where the code as written answers 500; `NewsApi.HugePageFailsAsWritten` and `NewsApi.GetNewsAsWritten` state the as-written behaviour.
- NewsApi.Serve: it inherits that correction from `Dispatch`. It models `RegisterRoutes` alone. The `cmd/server` middleware that overwrites `X-Request-ID` from the `request_id` query value, and that entry point's `PathPrefix("/")` file server, are not part of this model. With them, a path no API route matches reaches the file server instead of mux's 404.
- Time parsing: `time.Parse` is the `TimeParser` parameter. Re-formatting `pub_time` as RFC1123Z on read is left out, so queries return rows (with the integer `pubTime`) rather than `rss.Post` values.
- JSON: encoding and decoding are the `decoded`/`valid` parameters, and the gateway's RawMessage compaction is not modelled. A nil comment slice encoding as `null` rather than `[]` is not modelled.
- Unicode: case folding is ASCII only. PostgreSQL ILIKE and Go's strings.ToLower also fold non-ASCII letters.
- Routing: path cleaning, percent-decoding and URL escaping are not modelled. `url.QueryEscape` of the gateway's forwarded query values is not modelled.
- HTTP statuses: 1xx codes, and the panic on an invalid status code, are left out.
- Gateway GetLastNPosts: the `http.NewRequest` failure on a malformed n is folded into the transport error, which gives the same 500.
- Nil request id: the type assertion `r.Context().Value("request_id").(string)` panics when the id is absent. This is a `requires RequestIdKey in r.context` on the gateway handlers, which only the middleware ever calls.
- Logging: log output and request timing are not modelled; only the logged id and status are.
- SERIAL sequences: exhausting a SERIAL sequence is not modelled.
- Process wiring: the `main` functions of cmd/server and CommentsService, InitDB's connection set-up and the RSS fetcher are not part of this model.
  - `CommentTable.Open` takes the existing rows.
  - The censor's forbidden word list is a parameter.
  - UUID generation is the `generated` parameter, constrained by `IsUuid`.
- CommentStore.CommentTable.SaveComment: a failed insert does not advance `nextId`. PostgreSQL may consume a SERIAL value on some failures; ids are not observable on that path.

## Findings

| source | as written | input that shows it | evidently intended | confidence | as-written member | corrected member |
|---|---|---|---|---|---|---|
| News_aggregator/pkg/api/api.go:129-130 | `offset := (page - 1) * itemsPerPage` in 64-bit `int` wraps for pages above about 6.1e17 | `GET /news?page=4611686018427387905` (2^62+1): the offset wraps to -2^62, PostgreSQL rejects the negative OFFSET and the handler answers 500 | a huge page is simply past the end: 200 with an empty page | not executed | NewsApi.HugePageFailsAsWritten | NewsApi.GetNews |
