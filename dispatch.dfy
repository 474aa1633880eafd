/**
 * How the worker's HTTP server answers one request: the request line, the URL prefix and
 * the secret (`_validate_request_header`), the choice of handler among the four handler
 * tables (`_handle_http_request`), the status each exception becomes (`_serve_http`), and
 * how the client maps the status it reads back to an exception class (`call`).
 *
 * Reflection (`getattr` on `raw_`, `api_`, `public_raw_`, `public_api_` names) becomes four
 * explicit tables; the body decoders, the handler's own result and the serializers are
 * inputs (a `World`).
 */
module Dispatch {
  import opened Wrappers
  import opened PyText
  import opened Values
  import opened Responses
  import opened HttpHead
  import opened Streaming

  // ---------------------------------------------------------------- words of a head

  predicate NoSpace(w: string)
  {
    forall j :: 0 <= j < |w| ==> !IsSpace(w[j])
  }

  /** The end of the run of non-whitespace characters that starts at `i`. */
  function WordEnd(s: string, i: nat): (k: nat)
    requires i <= |s|
    ensures i <= k <= |s| && (forall j :: i <= j < k ==> !IsSpace(s[j]))
    ensures k < |s| ==> IsSpace(s[k])
    decreases |s| - i
  {
    if i == |s| || IsSpace(s[i]) then i else WordEnd(s, i + 1)
  }

  /** `s.split()`: the maximal runs of non-whitespace characters, in order. */
  function Words(s: string): (r: seq<string>)
    ensures forall i :: 0 <= i < |r| ==> r[i] != [] && NoSpace(r[i])
    decreases |s|
  {
    if s == [] then []
    else if IsSpace(s[0]) then Words(s[1..])
    else
      var k := WordEnd(s, 0);
      assert NoSpace(s[..k]) by {
        forall j | 0 <= j < k ensures !IsSpace(s[..k][j]) { }
      }
      [s[..k]] + Words(s[k..])
  }

  lemma {:induction false} WordEndAt(s: string, i: nat, k: nat)
    requires i <= k <= |s| && (forall j :: i <= j < k ==> !IsSpace(s[j]))
    requires k < |s| ==> IsSpace(s[k])
    ensures WordEnd(s, i) == k
    decreases k - i
  {
    if i < k {
      WordEndAt(s, i + 1, k);
    }
  }

  /** A word followed by whitespace, or by nothing, is the first word. */
  lemma WordsFront(w: string, rest: string)
    requires w != [] && NoSpace(w)
    requires rest == [] || IsSpace(rest[0])
    ensures Words(w + rest) == [w] + Words(rest)
  {
    var s := w + rest;
    assert s[..|w|] == w && s[|w|..] == rest;
    WordEndAt(s, 0, |w|);
  }

  /** Leading whitespace makes no word. */
  lemma SpaceFront(rest: string)
    ensures Words(" " + rest) == Words(rest)
  {
    assert (" " + rest)[1..] == rest;
  }

  lemma WordThenSpace(w: string, rest: string)
    requires w != [] && NoSpace(w)
    ensures Words(w + " " + rest) == [w] + Words(rest)
  {
    assert w + " " + rest == w + (" " + rest);
    WordsFront(w, " " + rest);
    SpaceFront(rest);
  }

  const NotEnough: string := "not enough values to unpack (expected 3, got "

  /** `method, path, version = head.split(None, 3)[:3]`. */
  function RequestLine(head: string): (r: Result<(string, string, string), Exc>)
    ensures r.Ok? <==> |Words(head)| >= 3
    ensures r.Err? ==> r.error.kind == ValueError
  {
    var ws := Words(head);
    if |ws| < 3 then Err(Exc(ValueError, NotEnough + Decimal(|ws|) + ")"))
    else Ok((ws[0], ws[1], ws[2]))
  }

  /** Three words separated by spaces, then whitespace or nothing, are read back as written. */
  lemma RequestLineOf(m: string, p: string, v: string, rest: string)
    requires m != [] && NoSpace(m) && p != [] && NoSpace(p) && v != [] && NoSpace(v)
    requires rest == [] || IsSpace(rest[0])
    ensures RequestLine(m + " " + p + " " + v + rest) == Ok((m, p, v))
  {
    var s3 := v + rest;
    WordsFront(v, rest);
    var s2 := p + " " + s3;
    WordThenSpace(p, s3);
    var s1 := m + " " + s2;
    WordThenSpace(m, s2);
    Regroup(m, " ", p, v, rest);
  }

  lemma Regroup<T>(a: seq<T>, sp: seq<T>, b: seq<T>, c: seq<T>, rest: seq<T>)
    ensures a + sp + (b + sp + (c + rest)) == a + sp + b + sp + c + rest
  {
  }

  // ---------------------------------------------------------------- authentication

  /**
   * `_validate_request_header`: PermissionError unless the secret occurs somewhere in the
   * request head; a path under `/<secret>/` loses that prefix but keeps its slash.
   */
  function ValidateRequestHeader(path: string, head: string, secret: string): (r: Result<string, ExcKind>)
    ensures r.Err? <==> !Contains(head, secret)
    ensures r.Err? ==> r.error == PermissionError
    ensures r.Ok? ==> r.value == path || "/" + secret + r.value == path
    ensures r.Ok? ==> (StartsWith(r.value, "/") <==> StartsWith(path, "/"))
  {
    if !Contains(head, secret) then Err(PermissionError)
    else if StartsWith(path, "/" + secret + "/") then
      assert path[|secret| + 1] == ("/" + secret + "/")[|secret| + 1];
      assert path == "/" + secret + path[|secret| + 1..];
      Ok(path[|secret| + 1..])
    else Ok(path)
  }

  /** The lookup tables: which names exist under each of the four prefixes. */
  datatype Api = Coroutine | Generator
  datatype Tables = Tables(raw: set<string>, api: map<string, Api>,
                           publicRaw: set<string>, publicApi: map<string, Api>)

  /** The worker's settings that dispatch reads: the secret, `worker_url_path`, the handlers. */
  datatype Site = Site(secret: string, urlPath: string, tables: Tables)

  /** The `worker_url_path` test: a configured prefix must be there and is removed, else AttributeError. */
  function StripUrlPath(path: string, urlPath: string): (r: Result<string, ExcKind>)
    ensures r.Err? <==> urlPath != "" && !StartsWith(path, "/" + urlPath)
    ensures r.Err? ==> r.error == AttributeError
    ensures r.Ok? ==> (if urlPath == "" then r.value == path else "/" + urlPath + r.value == path)
  {
    if urlPath == "" then Ok(path)
    else if StartsWith(path, "/" + urlPath) then
      assert path == "/" + urlPath + path[|urlPath| + 1..];
      Ok(path[|urlPath| + 1..])
    else Err(AttributeError)
  }

  /**
   * The inner `try` of `_serve_http`: a missing URL prefix escapes, a missing secret only
   * clears `authed` and leaves the path as the prefix test left it.
   */
  function Authenticate(path: string, head: string, site: Site): (r: Result<(bool, string), ExcKind>)
    ensures r.Err? <==> StripUrlPath(path, site.urlPath).Err?
    ensures r.Err? ==> r.error == AttributeError
    ensures r.Ok? ==> (r.value.0 <==> Contains(head, site.secret))
    ensures r.Ok? && !r.value.0 ==> r.value.1 == StripUrlPath(path, site.urlPath).value
  {
    match StripUrlPath(path, site.urlPath)
    case Err(k) => Err(k)
    case Ok(p) =>
      match ValidateRequestHeader(p, head, site.secret)
      case Ok(q) => Ok((true, q))
      case Err(_) => Ok((false, p))
  }

  // ---------------------------------------------------------------- handler lookup

  /** What the lookup found: whether a `raw_` handler exists and the `api_` handler's kind. */
  datatype Found = Found(raw: bool, api: Option<Api>)

  function Get(m: map<string, Api>, name: string): (r: Option<Api>)
    ensures r.Some? <==> name in m
  {
    if name in m then Some(m[name]) else None
  }

  /** The private tables are consulted only when authenticated. */
  predicate Private(t: Tables, authed: bool, name: string)
  {
    authed && (name in t.raw || name in t.api)
  }

  predicate Public(t: Tables, name: string)
  {
    name in t.publicRaw || name in t.publicApi
  }

  /**
   * The lookup at the head of `_handle_http_request`: the private tables first, when
   * authenticated, then the public ones; an unresolved name raises AttributeError when
   * authenticated and PermissionError otherwise.
   */
  function Lookup(t: Tables, authed: bool, name: string): (r: Result<Found, ExcKind>)
    ensures Private(t, authed, name) ==> r == Ok(Found(name in t.raw, Get(t.api, name)))
    ensures !Private(t, authed, name) && Public(t, name) ==>
      r == Ok(Found(name in t.publicRaw, Get(t.publicApi, name)))
    ensures r.Err? <==> !Private(t, authed, name) && !Public(t, name)
    ensures r.Err? ==> r.error == (if authed then AttributeError else PermissionError)
  {
    var own := if authed then Found(name in t.raw, Get(t.api, name)) else Found(false, None);
    var found := if own.raw || own.api.Some? then own
                 else Found(name in t.publicRaw, Get(t.publicApi, name));
    if found.raw || found.api.Some? then Ok(found)
    else Err(if authed then AttributeError else PermissionError)
  }

  // ---------------------------------------------------------------- the handler

  const JsonType: string := "application/json"
  const MsgpackType: string := "application/x-msgpack"

  /** Whether the reply is msgpack and whether the request body is decoded. */
  datatype Plan = Plan(msgpack: bool, decode: bool)

  /** A POST names its body's format in Content-Type (KeyError without one); anything else is JSON. */
  function BodyPlan(verb: string, headers: map<string, string>): (r: Result<Plan, Exc>)
    ensures r.Err? <==> verb == "POST" && "Content-Type" !in headers
    ensures r.Err? ==> r.error.kind == KeyError
    ensures r.Ok? ==> (r.value.msgpack <==> verb == "POST" && headers["Content-Type"] == MsgpackType)
    ensures r.Ok? ==> (r.value.decode <==> verb == "POST" && headers["Content-Type"] in {JsonType, MsgpackType})
  {
    if verb != "POST" then Ok(Plan(false, false))
    else if "Content-Type" !in headers then Err(Exc(KeyError, "'Content-Type'"))
    else
      var ct := headers["Content-Type"];
      Ok(Plan(ct == MsgpackType, ct == MsgpackType || ct == JsonType))
  }

  /** `body.pop('_args', [])` on a decoded body: only a dict has that method. */
  function PopArgs(body: Value): (r: Result<Value, Exc>)
    ensures r.Ok? <==> body.VDict?
  {
    match body
    case VDict(m) => Ok(if "_args" in m then m["_args"] else VList([]))
    case VList(_) => Err(Exc(TypeError, "pop expected at most 1 argument, got 2"))
    case _ => Err(Exc(AttributeError, "'" + TypeName(body) + "' object has no attribute 'pop'"))
  }

  /** What `*args` can unpack: a list, a tuple, a string, bytes or a dictionary (its keys). */
  predicate Iterable(v: Value)
  {
    v.VList? || v.VTuple? || v.VStr? || v.VBytes? || v.VDict?
  }

  /** The TypeError a call `f(..., *args)` raises before `f` runs when `args` cannot be iterated. */
  function NotIterable(args: Value): (e: Exc)
    requires !Iterable(args)
    ensures e.kind == TypeError
  {
    Exc(TypeError, "argument after * must be an iterable, not " + TypeName(args))
  }

  /** The positional arguments: none unless the body is decoded, else its `_args`. */
  function Args(plan: Plan, decoded: Result<Value, Exc>): (r: Result<Value, Exc>)
    ensures !plan.decode ==> r == Ok(VList([]))
    ensures plan.decode && decoded.Err? ==> r == Err(decoded.error)
    ensures plan.decode && decoded.Ok? && decoded.value.VDict? ==>
      r == Ok(if "_args" in decoded.value.entries then decoded.value.entries["_args"] else VList([]))
  {
    if !plan.decode then Ok(VList([]))
    else if decoded.Err? then Err(decoded.error)
    else PopArgs(decoded.value)
  }

  /** `_b`: bytes pass, text is UTF-8 encoded, anything else is a TypeError. */
  function AsReplyBytes(v: Value): (r: Result<seq<byte>, Exc>)
    ensures r.Ok? <==> v.VBytes? || v.VStr?
    ensures v.VStr? ==> r == Ok(Utf8(v.s))
  {
    match v
    case VBytes(b) => Ok(b)
    case VStr(s) => Ok(Utf8(s))
    case _ => Err(Exc(TypeError, NoEncoding))
  }

  /**
   * What the code outside this model supplies: what the chosen body decoder returns, what
   * the coroutine handler returns or raises (its `(mimetype, response)` pair), the two
   * serializers, and the text of `traceback.format_exc()`.
   */
  datatype World = World(decoded: Result<Value, Exc>, call: Result<(Value, Value), Exc>,
                         toJson: Serialize, toMsgpack: Serialize, trace: string)

  /** What the handler returns to `_serve_http`. */
  datatype Handled = Background | Answer(code: int, mimetype: seq<byte>, resp: Value)

  /** The handler's error dictionary: with the traceback only for an authenticated caller. */
  function HandlerError(e: Exc, authed: bool, trace: string): (v: Value)
    ensures v.VDict? && "error" in v.entries && v.entries["error"] == VStr(e.msg)
    ensures "traceback" in v.entries <==> authed
  {
    if authed then VDict(map["error" := VStr(e.msg), "traceback" := VStr(trace)]) else ErrorDict(e)
  }

  /** The `except` branch of the handler: a 500 answer in the request's format. */
  function ErrorAnswer(e: Exc, authed: bool, mt: string, ser: Serialize, trace: string): (r: Result<Handled, Exc>)
    ensures r.Ok? <==> ser(HandlerError(e, authed, trace)).Ok?
    ensures r.Ok? ==> r.value == Answer(500, Utf8(mt), VBytes(ser(HandlerError(e, authed, trace)).value))
  {
    match ser(HandlerError(e, authed, trace))
    case Ok(b) => Ok(Answer(500, Utf8(mt), VBytes(b)))
    case Err(e2) => Err(e2)
  }

  /**
   * The `try` around the coroutine handler: a falsy mimetype means "serialize the response
   * in the request's format"; any failure, including a mimetype that is neither text nor
   * bytes, becomes the 500 answer.
   */
  function CallAnswer(authed: bool, mt: string, ser: Serialize, call: Result<(Value, Value), Exc>, trace: string)
    : (r: Result<Handled, Exc>)
    ensures r.Ok? ==> r.value.Answer? && r.value.code in {200, 500}
    ensures r.Ok? && r.value.code == 200 ==> call.Ok?
    ensures call.Ok? && !Truthy(call.value.0) && ser(call.value.1).Ok? ==>
      r == Ok(Answer(200, Utf8(mt), VBytes(ser(call.value.1).value)))
    ensures call.Ok? && call.value.0.VStr? && call.value.0.s != "" ==>
      r == Ok(Answer(200, Utf8(call.value.0.s), call.value.1))
  {
    match call
    case Err(e) => ErrorAnswer(e, authed, mt, ser, trace)
    case Ok((m, resp)) =>
      if !Truthy(m) then
        match ser(resp)
        case Ok(b) => Ok(Answer(200, Utf8(mt), VBytes(b)))
        case Err(e) => ErrorAnswer(e, authed, mt, ser, trace)
      else
        match AsReplyBytes(m)
        case Ok(mb) => Ok(Answer(200, mb, resp))
        case Err(e) => ErrorAnswer(e, authed, mt, ser, trace)
  }

  /**
   * `_handle_http_request`: look the name up, pick the format, decode a POST body; a `raw_`
   * handler or a generator `api_` handler runs in the background and owns the connection,
   * a coroutine `api_` handler is awaited and its result answered.
   */
  function HandleRequest(t: Tables, authed: bool, verb: string, path: string,
                         headers: map<string, string>, w: World): (r: Result<Handled, Exc>)
    ensures Lookup(t, authed, SliceFrom(path, 1)).Err? ==>
      r == Err(Exc(if authed then AttributeError else PermissionError, path))
    ensures r == Ok(Background) ==>
      var f := Lookup(t, authed, SliceFrom(path, 1));
      f.Ok? && (f.value.raw || f.value.api == Some(Generator))
    ensures r.Ok? && r.value.Answer? ==> r.value.code in {200, 500}
  {
    match Lookup(t, authed, SliceFrom(path, 1))
    case Err(k) => Err(Exc(k, path))
    case Ok(found) =>
      match BodyPlan(verb, headers)
      case Err(e) => Err(e)
      case Ok(plan) =>
        var args := Args(plan, w.decoded);
        if args.Err? then Err(args.error)
        else if found.raw || found.api == Some(Generator) then
          if Iterable(args.value) then Ok(Background) else Err(NotIterable(args.value))
        else
          var call := if Iterable(args.value) then w.call else Err(NotIterable(args.value));
          if plan.msgpack then CallAnswer(authed, MsgpackType, w.toMsgpack, call, w.trace)
          else CallAnswer(authed, JsonType, w.toJson, call, w.trace)
  }

  /**
   * A raw or generator handler is started with `*args` outside any `try`: `_args` that
   * cannot be iterated escape as a TypeError, and the request is refused with 400.
   */
  lemma BackgroundArgsNotIterable(site: Site, h: Head, p: string, v: string, rest: string,
                                  unixDomain: bool, w: World, d: map<string, Value>)
    requires p != [] && NoSpace(p) && v != [] && NoSpace(v)
    requires rest == [] || IsSpace(rest[0])
    requires h.header == "POST " + p + " " + v + rest
    requires "Content-Type" in h.headers && h.headers["Content-Type"] == JsonType
    requires site.urlPath == "" && Contains(h.header, site.secret)
    requires !StartsWith(p, "/" + site.secret + "/")
    requires SliceFrom(p, 1) in site.tables.raw
    requires w.decoded == Ok(VDict(d)) && "_args" in d && !Iterable(d["_args"])
    ensures Serve(site, Ok(h), unixDomain, w) == ServeError(NotIterable(d["_args"]), w.toJson, w.trace)
    ensures Serve(site, Ok(h), unixDomain, w).code == 400
  {
    assert h.header == "POST" + " " + p + " " + v + rest;
    RequestLineOf("POST", p, v, rest);
    AuthenticatedAsIs(p, h.header, site);
    assert HandleRequest(site.tables, true, "POST", p, h.headers, w) == Err(NotIterable(d["_args"]));
  }

  /**
   * A coroutine handler is called with `*args` inside the `try`: `_args` that cannot be
   * iterated become the handler's 500 answer, in the request's format.
   */
  lemma CoroutineArgsNotIterable(t: Tables, authed: bool, p: string, headers: map<string, string>,
                                 w: World, d: map<string, Value>)
    requires Lookup(t, authed, SliceFrom(p, 1)) == Ok(Found(false, Some(Coroutine)))
    requires "Content-Type" in headers && headers["Content-Type"] == JsonType
    requires w.decoded == Ok(VDict(d)) && "_args" in d && !Iterable(d["_args"])
    ensures HandleRequest(t, authed, "POST", p, headers, w)
         == ErrorAnswer(NotIterable(d["_args"]), authed, JsonType, w.toJson, w.trace)
  {
    assert |JsonType| != |MsgpackType|;
    assert BodyPlan("POST", headers) == Ok(Plan(false, true));
    HandleCall(t, authed, "POST", p, headers, w, Plan(false, true), d["_args"]);
  }

  /** An unauthenticated request is handled the same whatever the private tables hold. */
  lemma HandleIgnoresPrivate(t: Tables, raw: set<string>, api: map<string, Api>, verb: string,
                             path: string, headers: map<string, string>, w: World)
    ensures HandleRequest(t, false, verb, path, headers, w)
         == HandleRequest(t.(raw := raw, api := api), false, verb, path, headers, w)
  {
    var name := SliceFrom(path, 1);
    assert Lookup(t, false, name) == Lookup(t.(raw := raw, api := api), false, name);
  }

  // ---------------------------------------------------------------- the server's reply

  /** What `_serve_http` leaves behind: bytes written, a connection handed over, or descriptors. */
  datatype Served =
    | Replied(code: int, out: seq<byte>)
    | Detached          // a background task owns the connection and writes to it
    | PassFds           // descriptors are sent; this model stops there
    | Unsent(code: int, e: Exc)   // the error reply itself could not be serialized

  /** The `except` clauses of `_serve_http`: which status each exception class becomes. */
  function ErrorStatus(k: ExcKind): (code: int)
    ensures code in {400, 403, 404, 500}
    ensures code == 403 <==> k == PermissionError
    ensures code == 404 <==> k == AttributeError
    ensures code == 400 <==> k == TypeError || k == UnicodeDecodeError
  {
    match k
    case PermissionError => 403
    case AttributeError => 404
    case TypeError => 400
    case UnicodeDecodeError => 400
    case _ => 500
  }

  /** The error reply: fixed bodies for 403 and 404, a JSON dictionary for 400 and 500. */
  function ServeError(e: Exc, toJson: Serialize, trace: string): (r: Served)
    ensures (r.Replied? || r.Unsent?) && r.code == ErrorStatus(e.kind)
    ensures e.kind == PermissionError ==> r == Replied(403, StatusLine(403) + SorryBlock)
    ensures e.kind == AttributeError ==> r == Replied(404, StatusLine(404) + NotFoundBlock)
    ensures r.Replied? && r.code in {400, 500} ==> StartsWith(r.out, StatusLine(r.code) + JsonBlock)
  {
    var code := ErrorStatus(e.kind);
    if code == 403 then Replied(403, StatusLine(403) + SorryBlock)
    else if code == 404 then Replied(404, StatusLine(404) + NotFoundBlock)
    else
      var v := if code == 400 then ErrorDict(e)
               else VDict(map["error" := VStr(e.msg), "traceback" := VStr(trace)]);
      match toJson(v)
      case Err(e2) => Unsent(code, e2)
      case Ok(b) =>
        PrefixOfAppend(StatusLine(code) + JsonBlock, b);
        Replied(code, StatusLine(code) + JsonBlock + b)
  }

  const FdsMimetype: string := "application/x-fd-magic"
  const BadUtf8: string := "'utf-8' codec can't decode the mimetype"
  const NoFdsOverTcp: string := "Cannot send file descriptors over TCP"
  const NotJoinable: string := "sequence item 2: expected a bytes-like object, "

  /** `_w(l1, mimetype block, response)`: text is UTF-8 encoded, bytes pass, anything else fails. */
  function Joined(resp: Value): (r: Result<seq<byte>, Exc>)
    ensures r.Ok? <==> resp.VBytes? || resp.VStr?
    ensures r.Err? ==> r.error.kind == TypeError
  {
    match resp
    case VBytes(b) => Ok(b)
    case VStr(s) => Ok(Utf8(s))
    case _ => Err(Exc(TypeError, NotJoinable + TypeName(resp) + " found"))
  }

  /** The answer's branch of `_serve_http`: the descriptor mimetype, or the status line, headers and body. */
  function Reply(code: int, mb: seq<byte>, resp: Value, unixDomain: bool): (r: Result<Served, Exc>)
    ensures Utf8Decode(mb).None? ==> r.Err? && r.error.kind == UnicodeDecodeError
    ensures r.Ok? && r.value.Replied? ==> r.value.code == code && StartsWith(r.value.out, StatusLine(code) + MimetypeBlock(mb))
  {
    match Utf8Decode(mb)
    case None => Err(Exc(UnicodeDecodeError, BadUtf8))
    case Some(mt) =>
      if mt == FdsMimetype then
        if unixDomain then Ok(PassFds) else Err(Exc(ValueError, NoFdsOverTcp))
      else
        match Joined(resp)
        case Err(e) => Err(e)
        case Ok(b) =>
          PrefixOfAppend(StatusLine(code) + MimetypeBlock(mb), b);
          Ok(Replied(code, StatusLine(code) + MimetypeBlock(mb) + b))
  }

  /** The outer `try` of `_serve_http`, up to the exception it raises, if any. */
  function Answering(site: Site, got: Result<Head, Exc>, unixDomain: bool, w: World): (r: Result<Served, Exc>)
  {
    match got
    case Err(e) => Err(e)
    case Ok(h) =>
      match RequestLine(h.header)
      case Err(e) => Err(e)
      case Ok((verb, path, _)) =>
        match Authenticate(path, h.header, site)
        case Err(k) => Err(Exc(k, ""))
        case Ok((authed, p)) =>
          match HandleRequest(site.tables, authed, verb, p, h.headers, w)
          case Err(e) => Err(e)
          case Ok(Background) => Ok(Detached)
          case Ok(Answer(code, mb, resp)) => Reply(code, mb, resp, unixDomain)
  }

  /**
   * `_serve_http` on the result of reading the request (`got`), whether the peer is a unix
   * domain socket, and the world: every exception becomes an error reply.
   */
  function Serve(site: Site, got: Result<Head, Exc>, unixDomain: bool, w: World): (r: Served)
    ensures got.Err? ==> r == ServeError(got.error, w.toJson, w.trace)
    ensures r.Replied? ==> r.code in {200, 400, 403, 404, 500}
  {
    match Answering(site, got, unixDomain, w)
    case Ok(s) =>
      assert s.Replied? ==> s.code in {200, 500} by {
        if s.Replied? {
          var h := got.value;
          var (verb, path, _) := RequestLine(h.header).value;
          var (authed, p) := Authenticate(path, h.header, site).value;
          assert HandleRequest(site.tables, authed, verb, p, h.headers, w).Ok?;
        }
      }
      s
    case Err(e) => ServeError(e, w.toJson, w.trace)
  }

  /** With nobody's secret in the head, a name only the private tables hold is refused with 403. */
  lemma UnauthenticatedRefused(site: Site, h: Head, m: string, p: string, v: string, rest: string,
                               unixDomain: bool, w: World)
    requires m != [] && NoSpace(m) && p != [] && NoSpace(p) && v != [] && NoSpace(v)
    requires rest == [] || IsSpace(rest[0])
    requires h.header == m + " " + p + " " + v + rest
    requires site.urlPath == "" && !Contains(h.header, site.secret)
    requires !Public(site.tables, SliceFrom(p, 1))
    ensures Serve(site, Ok(h), unixDomain, w) == Replied(403, StatusLine(403) + SorryBlock)
  {
    RequestLineOf(m, p, v, rest);
    assert Authenticate(p, h.header, site) == Ok((false, p));
  }

  /** An authenticated request for a name in no table is answered 404. */
  lemma UnknownNameNotFound(site: Site, h: Head, m: string, p: string, v: string, rest: string,
                            unixDomain: bool, w: World)
    requires m != [] && NoSpace(m) && p != [] && NoSpace(p) && v != [] && NoSpace(v)
    requires rest == [] || IsSpace(rest[0])
    requires h.header == m + " " + p + " " + v + rest
    requires site.urlPath == "" && Contains(h.header, site.secret)
    requires !StartsWith(p, "/" + site.secret + "/")
    requires !Public(site.tables, SliceFrom(p, 1)) && !Private(site.tables, true, SliceFrom(p, 1))
    ensures Serve(site, Ok(h), unixDomain, w) == Replied(404, StatusLine(404) + NotFoundBlock)
  {
    RequestLineOf(m, p, v, rest);
    AuthenticatedAsIs(p, h.header, site);
  }

  /** With no URL prefix and a path outside `/<secret>/`, a head holding the secret authenticates the path as it is. */
  lemma AuthenticatedAsIs(p: string, head: string, site: Site)
    requires site.urlPath == "" && Contains(head, site.secret) && !StartsWith(p, "/" + site.secret + "/")
    ensures Authenticate(p, head, site) == Ok((true, p))
  {
  }

  /** Without the secret in the head, what the private tables hold makes no difference to the reply. */
  lemma {:induction false} PrivateUnreachable(site: Site, got: Result<Head, Exc>, raw: set<string>,
                                              api: map<string, Api>, unixDomain: bool, w: World)
    requires got.Ok? ==> !Contains(got.value.header, site.secret)
    ensures Serve(site, got, unixDomain, w)
         == Serve(site.(tables := site.tables.(raw := raw, api := api)), got, unixDomain, w)
  {
    var site' := site.(tables := site.tables.(raw := raw, api := api));
    if got.Ok? && RequestLine(got.value.header).Ok? {
      var h := got.value;
      var (verb, path, _) := RequestLine(h.header).value;
      assert Authenticate(path, h.header, site) == Authenticate(path, h.header, site');
      if Authenticate(path, h.header, site).Ok? {
        var (authed, p) := Authenticate(path, h.header, site).value;
        assert !authed;
        HandleIgnoresPrivate(site.tables, raw, api, verb, p, h.headers, w);
      }
    }
  }

  /**
   * An authenticated request other than POST, for a coroutine handler that returns no
   * mimetype, is answered 200 with the JSON serialization of the handler's response.
   */
  lemma JsonAnswer(site: Site, h: Head, m: string, p: string, v: string, rest: string, unixDomain: bool,
                   w: World, resp: Value, b: seq<byte>)
    requires m != [] && NoSpace(m) && m != "POST" && p != [] && NoSpace(p) && v != [] && NoSpace(v)
    requires rest == [] || IsSpace(rest[0])
    requires h.header == m + " " + p + " " + v + rest
    requires site.urlPath == "" && Contains(h.header, site.secret)
    requires !StartsWith(p, "/" + site.secret + "/")
    requires SliceFrom(p, 1) in site.tables.api && SliceFrom(p, 1) !in site.tables.raw
    requires site.tables.api[SliceFrom(p, 1)] == Coroutine
    requires w.call == Ok((VNone, resp)) && w.toJson(resp) == Ok(b)
    ensures Serve(site, Ok(h), unixDomain, w)
         == Replied(200, StatusLine(200) + MimetypeBlock(Utf8(JsonType)) + b)
  {
    RequestLineOf(m, p, v, rest);
    AuthenticatedAsIs(p, h.header, site);
    HandleCoroutine(site.tables, m, p, h.headers, w, resp, b);
    assert |JsonType| != |FdsMimetype|;
    ReplyBytes(200, JsonType, b, unixDomain);
    ServeAnswer(site, h, unixDomain, w, m, p, v, true, p, Answer(200, Utf8(JsonType), VBytes(b)));
  }

  /** One request through `_serve_http` when every step up to the answer succeeds. */
  lemma ServeAnswer(site: Site, h: Head, unixDomain: bool, w: World, verb: string, path: string,
                    version: string, authed: bool, p: string, a: Handled)
    requires RequestLine(h.header) == Ok((verb, path, version))
    requires Authenticate(path, h.header, site) == Ok((authed, p))
    requires HandleRequest(site.tables, authed, verb, p, h.headers, w) == Ok(a) && a.Answer?
    requires Reply(a.code, a.mimetype, a.resp, unixDomain).Ok?
    ensures Serve(site, Ok(h), unixDomain, w) == Reply(a.code, a.mimetype, a.resp, unixDomain).value
  {
  }

  lemma HandleCoroutine(t: Tables, verb: string, p: string, headers: map<string, string>, w: World,
                        resp: Value, b: seq<byte>)
    requires verb != "POST"
    requires SliceFrom(p, 1) in t.api && SliceFrom(p, 1) !in t.raw && t.api[SliceFrom(p, 1)] == Coroutine
    requires w.call == Ok((VNone, resp)) && w.toJson(resp) == Ok(b)
    ensures HandleRequest(t, true, verb, p, headers, w) == Ok(Answer(200, Utf8(JsonType), VBytes(b)))
  {
    assert Lookup(t, true, SliceFrom(p, 1)) == Ok(Found(false, Some(Coroutine)));
    HandleCall(t, true, verb, p, headers, w, Plan(false, false), VList([]));
  }

  /** A coroutine handler's answer, once the name, the format and the arguments are known. */
  lemma HandleCall(t: Tables, authed: bool, verb: string, p: string, headers: map<string, string>, w: World,
                   plan: Plan, a: Value)
    requires Lookup(t, authed, SliceFrom(p, 1)) == Ok(Found(false, Some(Coroutine)))
    requires BodyPlan(verb, headers) == Ok(plan) && Args(plan, w.decoded) == Ok(a)
    ensures var call := if Iterable(a) then w.call else Err(NotIterable(a));
      HandleRequest(t, authed, verb, p, headers, w)
        == if plan.msgpack then CallAnswer(authed, MsgpackType, w.toMsgpack, call, w.trace)
           else CallAnswer(authed, JsonType, w.toJson, call, w.trace)
  {
  }

  /** Any mimetype but the descriptor one, with a bytes response, is written after the status line. */
  lemma ReplyBytes(code: int, mt: string, b: seq<byte>, unixDomain: bool)
    requires mt != FdsMimetype
    ensures Reply(code, Utf8(mt), VBytes(b), unixDomain)
         == Ok(Replied(code, StatusLine(code) + MimetypeBlock(Utf8(mt)) + b))
  {
    Utf8RoundTrip(mt);
  }

  // ---------------------------------------------------------------- the client's side

  /** `int(head.split(None, 2)[1])`: the status code of a reply head. */
  function StatusCode(head: string): (r: Result<int, Exc>)
    ensures r.Ok? ==> |Words(head)| >= 2 && ParseInt(Words(head)[1], 10, true) == Some(r.value)
  {
    var ws := Words(head);
    if |ws| < 2 then Err(Exc(OtherError("IndexError"), "list index out of range"))
    else match ParseInt(ws[1], 10, true)
      case Some(n) => Ok(n)
      case None => Err(Exc(ValueError, "invalid literal for int() with base 10"))
  }

  /** The client reads back the code of every status line the server writes. */
  lemma StatusCodeOf(code: int, rest: string)
    ensures StatusCode("HTTP/1.1" + " " + Decimal(code) + " " + rest) == Ok(code)
  {
    var d := Decimal(code);
    assert d != [] && NoSpace(d) by {
      if code < 0 {
        assert d == "-" + Digits10(-code);
      }
    }
    assert "HTTP/1.1" != [] && NoSpace("HTTP/1.1");
    WordThenSpace(d, rest);
    WordThenSpace("HTTP/1.1", d + " " + rest);
    Regroup2("HTTP/1.1", " ", d, rest);
    DecimalRoundTrip(code, true);
  }

  lemma Regroup2<T>(a: seq<T>, sp: seq<T>, b: seq<T>, rest: seq<T>)
    ensures a + sp + (b + sp + rest) == a + sp + b + sp + rest
  {
  }

  /** The exception class `call` raises for a status that is not a success. */
  function ClientError(code: int): (k: ExcKind)
    ensures k == PermissionError <==> code in {401, 403, 407}
    ensures k == OSError <==> 300 <= code < 400
    ensures k == ValueError <==> 400 <= code < 500 && code !in {401, 403, 407}
    ensures k == RuntimeError <==> !(300 <= code < 500)
  {
    if code in {401, 403, 407} then PermissionError
    else if 300 <= code < 400 then OSError
    else if 400 <= code < 500 then ValueError
    else RuntimeError
  }

  /** What `call` returns: the result, the chunk decoder, or the exception it raises. */
  datatype CallResult = Returned(v: Value) | Decoder | Raised(kind: ExcKind, code: int, error: Value)

  /** An error reply: a dictionary with an `error` entry. */
  predicate IsErrorDict(v: Value)
  {
    v.VDict? && "error" in v.entries
  }

  /**
   * The end of `call`, given the status code, whether the reply is chunked and the decoded
   * result: success returns, a 200 carrying an error counts as 500, and the status picks
   * the exception class. A result that is not a dictionary fails on `'traceback' in result`
   * (TypeError) or on `result.get` (AttributeError).
   */
  function CallOutcome(code: int, chunked: bool, result: Value): (r: CallResult)
    ensures r.Returned? || r.Decoder? <==> code == 200 && !IsErrorDict(result)
    ensures r.Decoder? <==> code == 200 && !IsErrorDict(result) && chunked
    ensures r.Returned? ==> r.v == result
    ensures r.Raised? && result.VDict? ==>
      r.code == (if code == 200 then 500 else code) && r.kind == ClientError(r.code)
      && r.error == (if "error" in result.entries then result.entries["error"] else VNone)
  {
    if code == 200 && !IsErrorDict(result) then
      if chunked then Decoder else Returned(result)
    else
      var c := if code == 200 then 500 else code;
      match result
      case VDict(m) => CallResult.Raised(ClientError(c), c, if "error" in m then m["error"] else VNone)
      case VStr(_) => CallResult.Raised(AttributeError, c, VNone)
      case VList(_) => CallResult.Raised(AttributeError, c, VNone)
      case VTuple(_) => CallResult.Raised(AttributeError, c, VNone)
      case _ => CallResult.Raised(TypeError, c, VNone)
  }

  /**
   * Server and client agree on errors: when the server answers an exception with its error
   * status and an error dictionary, the client raises PermissionError for PermissionError,
   * ValueError for the 400 and 404 replies and RuntimeError for the 500 ones.
   */
  lemma ErrorClassesAgree(e: ExcKind, result: Value)
    requires IsErrorDict(result)
    ensures CallOutcome(ErrorStatus(e), false, result).Raised?
    ensures CallOutcome(ErrorStatus(e), false, result).kind
         == (if e == PermissionError then PermissionError
             else if ErrorStatus(e) == 500 then RuntimeError
             else ValueError)
  {
  }
}
