/**
 * The slice of Go's net/http that the handlers use, as values.
 *
 * A handler is modelled by the list of calls it makes on its
 * http.ResponseWriter, in order. The client-visible response follows Go's
 * rules: header fields set before the response is committed are sent; the
 * first WriteHeader fixes the status and later ones are superfluous (their
 * code is ignored); a Write before any WriteHeader commits status 200; a
 * handler that writes nothing answers 200 with an empty body. Every Write is
 * delivered, also after a superfluous WriteHeader.
 */
module Http {
  import opened Wrappers

  newtype uint8 = x: int | 0 <= x < 0x100

  type Bytes = seq<uint8>

  const StatusOK := 200
  const StatusBadRequest := 400
  const StatusNotFound := 404
  const StatusMethodNotAllowed := 405
  const StatusInternalServerError := 500

  const RequestIdHeader := "X-Request-ID"
  const ContentType := "Content-Type"
  const ApplicationJson := "application/json"

  /** The context key under which the middlewares store the request id. */
  const RequestIdKey := "request_id"

  /** Something written to a response body: an error message, relayed bytes, or an encoded JSON value. */
  datatype Part<J> = Text(msg: string) | Raw(data: Bytes) | Json(value: J)

  /** One call on a ResponseWriter: Header().Set, WriteHeader or Write. */
  datatype Op<J> = SetHeader(name: string, value: string) | WriteHeader(code: int) | Write(part: Part<J>)

  /** An inbound request after routing; the query and header are single-valued maps. */
  datatype Request = Request(
    verb: string, path: string,
    query: map<string, string>, header: map<string, string>,
    context: map<string, string>, body: Bytes)

  /** Header.Get and URL.Query().Get: the value, or "" when absent. */
  function Get(m: map<string, string>, key: string): (v: string)
    ensures key in m ==> v == m[key]
    ensures key !in m ==> v == ""
  {
    if key in m then m[key] else ""
  }

  /** An operation that commits the response header. */
  predicate Commits<J>(op: Op<J>) { !op.SetHeader? }

  predicate Committed<J>(ops: seq<Op<J>>)
  {
    exists i :: 0 <= i < |ops| && Commits(ops[i])
  }

  /** The status line the client receives. */
  /**
   * The status line the client receives: fixed by the first operation that
   * commits (a WriteHeader's code, or 200 for a Write); 200 when nothing commits.
   */
  function StatusOf<J>(ops: seq<Op<J>>): (status: int)
    ensures !Committed(ops) ==> status == StatusOK
    ensures forall i :: 0 <= i < |ops| && Commits(ops[i]) && (forall j :: 0 <= j < i ==> !Commits(ops[j])) ==>
              status == (if ops[i].WriteHeader? then ops[i].code else StatusOK)
  {
    if ops == [] then StatusOK
    else match ops[0]
      case WriteHeader(code) => code
      case Write(_) => StatusOK
      case SetHeader(_, _) =>
        assert forall i :: 1 <= i < |ops| ==> ops[i] == ops[1..][i - 1];
        StatusOf(ops[1..])
  }

  /** The body the client receives: every write, in order, and nothing else. */
  function BodyOf<J>(ops: seq<Op<J>>): (body: seq<Part<J>>)
    ensures |body| <= |ops|
    ensures (forall i :: 0 <= i < |ops| ==> !ops[i].Write?) ==> body == []
    ensures forall i :: 0 <= i < |ops| && ops[i].Write? ==> ops[i].part in body
    ensures forall p :: p in body ==> Write(p) in ops
  {
    if ops == [] then []
    else
      assert forall i :: 1 <= i < |ops| ==> ops[i] == ops[1..][i - 1];
      match ops[0]
      case Write(p) => [p] + BodyOf(ops[1..])
      case _ => BodyOf(ops[1..])
  }

  /**
   * The header fields the client receives, starting from those already set
   * in h: fields are only added or replaced, and only by a SetHeader made
   * before the response commits.
   */
  function HeaderOf<J>(h: map<string, string>, ops: seq<Op<J>>): (sent: map<string, string>)
    ensures h.Keys <= sent.Keys
    ensures forall k :: k in sent && (k !in h || sent[k] != h[k]) ==> SetHeader(k, sent[k]) in ops
    ensures Committed(ops) && Commits(ops[0]) ==> sent == h
    decreases ops
  {
    if ops == [] then h
    else match ops[0]
      case SetHeader(k, v) =>
        assert forall i :: 1 <= i < |ops| ==> ops[i] == ops[1..][i - 1];
        HeaderOf(h[k := v], ops[1..])
      case _ => h
  }

  /** The code the logging wrappers record: that of the last WriteHeader call, `initial` when there is none. */
  function LastWriteHeader<J>(ops: seq<Op<J>>, initial: int): (code: int)
    ensures (forall i :: 0 <= i < |ops| ==> !ops[i].WriteHeader?) ==> code == initial
    ensures forall i :: 0 <= i < |ops| && ops[i].WriteHeader? && (forall j :: i < j < |ops| ==> !ops[j].WriteHeader?) ==>
              code == ops[i].code
  {
    if ops == [] then initial
    else
      assert forall i :: 1 <= i < |ops| ==> ops[i] == ops[1..][i - 1];
      LastWriteHeader(ops[1..], if ops[0].WriteHeader? then ops[0].code else initial)
  }

  /** No operation sets the given header field. */
  predicate NeverSets<J>(ops: seq<Op<J>>, name: string)
  {
    forall i :: 0 <= i < |ops| ==> !(ops[i].SetHeader? && ops[i].name == name)
  }

  /** http.Error: plain-text headers, the status, then the message. */
  function Error<J>(msg: string, code: int): (ops: seq<Op<J>>)
    ensures StatusOf(ops) == code && BodyOf(ops) == [Text(msg)]
    ensures Committed(ops) && NeverSets(ops, RequestIdHeader)
  {
    var ops := [SetHeader(ContentType, "text/plain; charset=utf-8"),
                SetHeader("X-Content-Type-Options", "nosniff"),
                WriteHeader(code), Write(Text(msg))];
    var last := [Write(Text(msg))];
    assert last[1..] == [] && BodyOf(last) == [Text(msg)];
    assert ops[1..][1..][1..] == last;
    assert BodyOf(ops[1..][1..]) == [Text(msg)];
    assert BodyOf(ops[1..]) == [Text(msg)];
    assert Commits(ops[2]);
    ops
  }

  /** A handler's success path: JSON content type, then the encoded value, with the implicit status 200. */
  function JsonReply<J>(v: J): (ops: seq<Op<J>>)
    ensures StatusOf(ops) == StatusOK && BodyOf(ops) == [Json(v)]
    ensures var h := HeaderOf(map[], ops); ContentType in h && h[ContentType] == ApplicationJson
    ensures NeverSets(ops, RequestIdHeader)
  {
    var ops := [SetHeader(ContentType, ApplicationJson), Write(Json(v))];
    assert ops[1..] == [Write(Json(v))];
    assert BodyOf(ops[1..]) == [Json(v)] + BodyOf(ops[1..][1..]);
    ops
  }

  /** Behind a logging wrapper, http.Error is logged with its own code. */
  lemma ErrorLogsCode<J>(msg: string, code: int, initial: int)
    ensures LastWriteHeader(Error<J>(msg, code), initial) == code
  {
    var ops := Error<J>(msg, code);
    var rest := ops[1..][1..];
    assert rest == [WriteHeader(code), Write(Text(msg))];
    assert rest[1..] == [Write(Text(msg))] && rest[1..][1..] == [];
    assert LastWriteHeader(rest[1..], code) == code;
    assert LastWriteHeader(rest, initial) == code;
  }

  /** Once the response is committed, later calls cannot change its status. */
  lemma {:induction false} StatusOfAppend<J>(a: seq<Op<J>>, b: seq<Op<J>>)
    ensures StatusOf(a + b) == if Committed(a) then StatusOf(a) else StatusOf(b)
  {
    if a == [] {
      assert a + b == b;
    } else {
      assert (a + b)[0] == a[0] && (a + b)[1..] == a[1..] + b;
      StatusOfAppend(a[1..], b);
      if a[0].SetHeader? {
        assert Committed(a) <==> Committed(a[1..]) by {
          if Committed(a) {
            var i :| 0 <= i < |a| && Commits(a[i]);
            assert a[1..][i - 1] == a[i];
          }
          if Committed(a[1..]) {
            var i :| 0 <= i < |a[1..]| && Commits(a[1..][i]);
            assert a[i + 1] == a[1..][i];
          }
        }
      } else {
        assert Commits(a[0]);
      }
    }
  }

  /** Writes accumulate. */
  lemma {:induction false} BodyOfAppend<J>(a: seq<Op<J>>, b: seq<Op<J>>)
    ensures BodyOf(a + b) == BodyOf(a) + BodyOf(b)
  {
    if a == [] {
      assert a + b == b;
    } else {
      assert (a + b)[0] == a[0] && (a + b)[1..] == a[1..] + b;
      BodyOfAppend(a[1..], b);
    }
  }

  /** Header fields set by the first calls survive until the response is committed. */
  lemma {:induction false} HeaderOfAppend<J>(h: map<string, string>, a: seq<Op<J>>, b: seq<Op<J>>)
    requires forall i :: 0 <= i < |a| ==> a[i].SetHeader?
    ensures HeaderOf(h, a + b) == HeaderOf(HeaderOf(h, a), b)
    decreases a
  {
    if a == [] {
      assert a + b == b;
    } else {
      assert (a + b)[0] == a[0] && (a + b)[1..] == a[1..] + b;
      HeaderOfAppend(h[a[0].name := a[0].value], a[1..], b);
    }
  }

  /** A header field that no later call sets keeps the value it had. */
  lemma {:induction false} HeaderOfKeeps<J>(h: map<string, string>, ops: seq<Op<J>>, name: string)
    requires name in h && NeverSets(ops, name)
    ensures name in HeaderOf(h, ops) && HeaderOf(h, ops)[name] == h[name]
    decreases ops
  {
    if ops != [] && ops[0].SetHeader? {
      assert ops[0].name != name;
      HeaderOfKeeps(h[ops[0].name := ops[0].value], ops[1..], name);
    }
  }

  lemma {:induction false} NeverSetsAppend<J>(a: seq<Op<J>>, b: seq<Op<J>>, name: string)
    requires NeverSets(a, name) && NeverSets(b, name)
    ensures NeverSets(a + b, name)
  {
    forall i | 0 <= i < |a + b|
      ensures !((a + b)[i].SetHeader? && (a + b)[i].name == name)
    {
      if i < |a| { assert (a + b)[i] == a[i]; } else { assert (a + b)[i] == b[i - |a|]; }
    }
  }

  /** The logged code is that of the last WriteHeader in the list, or `initial` when there is none. */
  lemma {:induction false} LastWriteHeaderAppend<J>(a: seq<Op<J>>, b: seq<Op<J>>, initial: int)
    ensures LastWriteHeader(a + b, initial) == LastWriteHeader(b, LastWriteHeader(a, initial))
  {
    if a == [] {
      assert a + b == b;
    } else {
      assert (a + b)[0] == a[0] && (a + b)[1..] == a[1..] + b;
      LastWriteHeaderAppend(a[1..], b, if a[0].WriteHeader? then a[0].code else initial);
    }
  }

  /** A well-formed id from uuid.New().String(): 36 characters with dashes at 8, 13, 18 and 23. */
  predicate IsUuid(s: string)
  {
    |s| == 36 && s[8] == '-' && s[13] == '-' && s[18] == '-' && s[23] == '-'
  }

  /**
   * The request-id rule every middleware applies: adopt the inbound
   * X-Request-ID when it is non-empty, otherwise use a freshly generated
   * UUID (supplied by the caller, since generation is random).
   */
  function AdoptOrGenerate(inbound: string, generated: string): (id: string)
    requires IsUuid(generated)
    ensures id != ""
    ensures inbound != "" ==> id == inbound
    ensures inbound == "" ==> id == generated
  {
    if inbound != "" then inbound else generated
  }

  /** What a request-id middleware hands to the next handler. */
  datatype Prepared<J> = Prepared(id: string, next: Request, ops: seq<Op<J>>)

  /**
   * Choose the id, store it in the request context and set it on the
   * response header; the next handler runs on `next` and its calls follow `ops`.
   */
  function WithRequestId<J>(r: Request, generated: string): (p: Prepared<J>)
    requires IsUuid(generated)
    ensures p.id == AdoptOrGenerate(Get(r.header, RequestIdHeader), generated)
    ensures p.next == r.(context := r.context[RequestIdKey := p.id])
    ensures p.ops == [SetHeader(RequestIdHeader, p.id)]
  {
    var id := AdoptOrGenerate(Get(r.header, RequestIdHeader), generated);
    Prepared(id, r.(context := r.context[RequestIdKey := id]), [SetHeader(RequestIdHeader, id)])
  }

  /**
   * Whatever the next handler does, the client sees the chosen id in its
   * response header, provided the handler never sets that field itself.
   */
  lemma ClientSeesRequestId<J>(p: Prepared<J>, h: map<string, string>, handler: seq<Op<J>>)
    requires p.ops == [SetHeader(RequestIdHeader, p.id)]
    requires NeverSets(handler, RequestIdHeader)
    ensures var sent := HeaderOf(h, p.ops + handler);
            RequestIdHeader in sent && sent[RequestIdHeader] == p.id
  {
    HeaderOfAppend(h, p.ops, handler);
    assert p.ops[1..] == [];
    HeaderOfKeeps(h[RequestIdHeader := p.id], handler, RequestIdHeader);
  }

  /**
   * The logging middlewares' writer wrapper (responseWriter in the news
   * API, responseWriterWrapper in the gateway): it passes every call on to
   * the underlying writer and remembers the code of each WriteHeader.
   */
  class StatusRecorder<J> {
    var statusCode: int
    /** The calls passed on to the wrapped writer, in order. */
    var forwarded: seq<Op<J>>

    constructor (initial: int)
      ensures statusCode == initial && forwarded == []
    {
      statusCode := initial;
      forwarded := [];
    }

    /** WriteHeader records the code and forwards; Header().Set and Write only forward. */
    method Call(op: Op<J>)
      modifies this
      ensures forwarded == old(forwarded) + [op]
      ensures statusCode == if op.WriteHeader? then op.code else old(statusCode)
    {
      if op.WriteHeader? {
        statusCode := op.code;
      }
      forwarded := forwarded + [op];
    }
  }

  /**
   * A handler run behind the wrapper, which starts at 200: the wrapped writer
   * receives exactly the handler's calls, and the code logged afterwards is
   * that of the last WriteHeader, or 200 when there was none.
   */
  method Record<J>(ops: seq<Op<J>>) returns (forwarded: seq<Op<J>>, logged: int)
    ensures forwarded == ops
    ensures logged == LastWriteHeader(ops, StatusOK)
    ensures (forall i :: 0 <= i < |ops| ==> !ops[i].WriteHeader?) ==> logged == StatusOK
  {
    var rw := new StatusRecorder<J>(StatusOK);
    var i := 0;
    while i < |ops|
      invariant 0 <= i <= |ops|
      invariant rw.forwarded == ops[..i]
      invariant LastWriteHeader(ops, StatusOK) == LastWriteHeader(ops[i..], rw.statusCode)
    {
      assert ops[i..][1..] == ops[i + 1..];
      rw.Call(ops[i]);
      i := i + 1;
    }
    assert ops[..i] == ops;
    forwarded, logged := rw.forwarded, rw.statusCode;
  }

  /** The id a logging middleware logs: the context's request id, or "unknown" when there is none. */
  function LoggedId(r: Request): (id: string)
    ensures RequestIdKey in r.context ==> id == r.context[RequestIdKey]
    ensures RequestIdKey !in r.context ==> id == "unknown"
  {
    if RequestIdKey in r.context then r.context[RequestIdKey] else "unknown"
  }
}
