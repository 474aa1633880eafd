/**
 * The streaming wrapper `_wrap_async_generator`: every `(mimetype, value)` pair an API
 * generator produces is encoded and written as one frame after a `200` chunked head; a
 * failure is reported as a `500` reply when nothing was sent yet and as one more frame
 * otherwise. The generator is given as the pairs it yields and how it ends.
 */
module Streaming {
  import opened Wrappers
  import opened PyText
  import opened Values
  import opened Responses
  import opened Chunked

  /** The encoder `enc`: the serializer the request asked for, or the identity. */
  datatype Enc = Serializer | AsIs

  /** The request's serializer (`to_json` or `to_msgpack`); it may raise. */
  type Serialize = Value -> Result<seq<byte>, Exc>

  /** One `(mimetype, value)` pair the generator yields. */
  datatype Yield = Yield(mimetype: Value, resp: Value)

  /** How the generator ends after its last pair. */
  datatype Ending = Exhausted | Raised(e: Exc)

  // The messages Python gives the TypeErrors below.
  const NoEncoding: string := "encoding without a string argument"
  const NoLenBefore: string := "object of type '"
  const NoLenAfter: string := "' has no len()"
  const NotBytes: string := "data argument must be a bytes-like object, not '"

  /** `enc(v)`. */
  function EncodeValue(enc: Enc, ser: Serialize, v: Value): (r: Result<Value, Exc>)
    ensures enc == AsIs ==> r == Ok(v)
  {
    match enc
    case AsIs => Ok(v)
    case Serializer =>
      match ser(v)
      case Ok(b) => Ok(VBytes(b))
      case Err(e) => Err(e)
  }

  /** `bytes(mt, 'utf-8')`: only text can be encoded. */
  function MimeBytes(mt: Value): (r: Result<seq<byte>, Exc>)
    ensures r.Ok? <==> mt.VStr?
    ensures mt.VStr? ==> r == Ok(Utf8(mt.s))
  {
    match mt
    case VStr(s) => Ok(Utf8(s))
    case _ => Err(Exc(TypeError, NoEncoding))
  }

  /** `len(v)`. */
  function PyLen(v: Value): (r: Result<nat, Exc>)
    ensures v.VBytes? ==> r == Ok(|v.bytes|)
    ensures r.Err? <==> !(v.VStr? || v.VBytes? || v.VList? || v.VTuple? || v.VDict?)
    ensures r.Err? ==> r.error.kind == TypeError
  {
    match v
    case VStr(s) => Ok(|s|)
    case VBytes(b) => Ok(|b|)
    case VList(xs) => Ok(|xs|)
    case VTuple(xs) => Ok(|xs|)
    case VDict(m) => Ok(|m.Keys|)
    case _ => Err(Exc(TypeError, NoLenBefore + TypeName(v) + NoLenAfter))
  }

  /** What `writer.write(v)` accepts: bytes only. */
  function AsBytes(v: Value): (r: Result<seq<byte>, Exc>)
    ensures r.Ok? <==> v.VBytes?
  {
    match v
    case VBytes(b) => Ok(b)
    case _ => Err(Exc(TypeError, NotBytes + TypeName(v) + "'"))
  }

  /** The wrapper's variables: whether nothing was written yet, the mimetype, the encoder, the output. */
  datatype Sending = Sending(first: bool, mt: Value, enc: Enc, out: seq<byte>)

  /**
   * How one pair ends: the wrapper returns, the loop goes on, or something raises (with the
   * variables as they were at that point).
   */
  datatype Turn = Stop | Next(st: Sending) | Raise(at: Sending, e: Exc)

  /** The output the wrapper wrote, and the exception that escapes it, if any. */
  datatype Streamed = Streamed(out: seq<byte>, escaped: Option<Exc>)

  /** The output after a few writes, and the exception that cut them short, if any. */
  datatype Written = Written(out: seq<byte>, failed: Option<Exc>)

  /**
   * Writing one encoded value as a frame: its length in hex and `\r\n`, the value, `\r\n`.
   * Only bytes can be written; anything else has its length line written first and then
   * raises TypeError (or raises at once when it has no length).
   */
  function SendFrame(out: seq<byte>, data: Value): (w: Written)
    ensures StartsWith(w.out, out)
    ensures data.VBytes? ==> w == Written(out + Frame(data.bytes), None)
    ensures w.failed == None <==> data.VBytes?
  {
    match PyLen(data)
    case Err(e) =>
      PrefixOfAppend(out, []);
      Written(out + [], Some(e))
    case Ok(n) =>
      var line := Latin1(Hex(n)) + CRLF;
      match AsBytes(data)
      case Err(e) =>
        PrefixOfAppend(out, line);
        Written(out + line, Some(e))
      case Ok(b) =>
        PrefixOfAppend(out, Frame(b));
        Written(out + Frame(b), None)
  }

  /**
   * One pass of the `async for` body: `(None, None)` stops; the first pair with a mimetype
   * switches to that mimetype and the identity encoder; the first pair writes the head;
   * then the value is encoded and written as one frame.
   */
  function ItemTurn(st: Sending, y: Yield, ser: Serialize): (t: Turn)
    ensures t.Next? ==> !t.st.first && StartsWith(t.st.out, st.out)
    ensures t.Raise? ==> t.at.first == st.first && StartsWith(t.at.out, st.out)
  {
    if y.resp == VNone && y.mimetype == VNone then Stop
    else
      var (mt, enc) := if Truthy(y.mimetype) && st.first then (y.mimetype, AsIs) else (st.mt, st.enc);
      var at := st.(mt := mt, enc := enc);
      var o := Opening(st.out, st.first, mt);
      if o.failed.Some? then Raise(at.(out := o.out), o.failed.value)
      else
        var w := SendValue(o.out, enc, ser, y.resp);
        Prefixes(st.out, o.out, w.out);
        if w.failed.Some? then Raise(at.(out := w.out), w.failed.value)
        else Next(Sending(false, mt, enc, w.out))
  }

  /** The head the first pair writes, `_HTTP_200_CHUNKED_OK % bytes(mt, 'utf-8')`. */
  function Opening(out: seq<byte>, first: bool, mt: Value): (w: Written)
    ensures StartsWith(w.out, out)
    ensures !first ==> w == Written(out, None)
    ensures first && mt.VStr? ==> w == Written(out + ChunkedHead(Utf8(mt.s)), None)
  {
    if !first then
      PrefixOfAppend(out, []);
      Written(out + [], None)
    else
      match MimeBytes(mt)
      case Err(e) =>
        PrefixOfAppend(out, []);
        Written(out + [], Some(e))
      case Ok(m) =>
        PrefixOfAppend(out, ChunkedHead(m));
        Written(out + ChunkedHead(m), None)
  }

  /** `data = enc(resp)`, then the frame of `data`. */
  function SendValue(out: seq<byte>, enc: Enc, ser: Serialize, v: Value): (w: Written)
    ensures StartsWith(w.out, out)
    ensures enc == Serializer && ser(v).Ok? ==> w == Written(out + Frame(ser(v).value), None)
    ensures enc == AsIs ==> w == SendFrame(out, v)
  {
    match EncodeValue(enc, ser, v)
    case Err(e) =>
      assert out[..|out|] == out;
      Written(out, Some(e))
    case Ok(data) => SendFrame(out, data)
  }

  lemma Prefixes(a: seq<byte>, b: seq<byte>, c: seq<byte>)
    requires StartsWith(b, a) && StartsWith(c, b)
    ensures StartsWith(c, a)
  {
    assert c[..|a|] == c[..|b|][..|a|];
  }

  /**
   * The `except` clauses: an OSError closes the connection silently; any other exception
   * is encoded as `{'error': str(e)}` and sent as a `500` reply when nothing was written
   * yet, as one more frame otherwise. What raises inside the handler escapes.
   */
  function Fail(st: Sending, e: Exc, ser: Serialize): (r: Streamed)
    ensures StartsWith(r.out, st.out)
    ensures IsOSError(e.kind) ==> r == Streamed(st.out, None)
  {
    if IsOSError(e.kind) then Streamed(st.out, None)
    else
      match EncodeValue(st.enc, ser, ErrorDict(e))
      case Err(e2) => Streamed(st.out, Some(e2))
      case Ok(data) =>
        if st.first then
          var out := st.out + StatusLine(500);
          match MimeBytes(st.mt)
          case Err(e2) =>
            assert out[..|st.out|] == st.out;
            Streamed(out, Some(e2))
          case Ok(m) =>
            var out' := out + MimetypeBlock(m);
            match AsBytes(data)
            case Err(e2) =>
              assert out'[..|st.out|] == st.out;
              Streamed(out', Some(e2))
            case Ok(b) =>
              assert (out' + b)[..|st.out|] == st.out;
              Streamed(out' + b, None)
        else
          var w := SendFrame(st.out, data);
          Streamed(w.out, w.failed)
  }

  /** How the wrapper ends once the generator is done: quietly, or through the `except` clauses. */
  function Finish(st: Sending, ending: Ending, ser: Serialize): (r: Streamed)
    ensures StartsWith(r.out, st.out)
  {
    match ending
    case Exhausted => Streamed(st.out, None)
    case Raised(e) => Fail(st, e, ser)
  }

  /** The whole wrapper, from state `st`, over the pairs `ys` and then the generator's end. */
  function Stream(st: Sending, ys: seq<Yield>, ending: Ending, ser: Serialize): (r: Streamed)
    ensures StartsWith(r.out, st.out)
    decreases |ys|
  {
    if ys == [] then Finish(st, ending, ser)
    else
      match ItemTurn(st, ys[0], ser)
      case Stop => Streamed(st.out, None)
      case Raise(at, e) => Fail(at, e, ser)
      case Next(st') => Stream(st', ys[1..], ending, ser)
  }

  /** The state `raw_method` starts in. */
  function Begin(mt: Value, enc: Enc): Sending
  {
    Sending(true, mt, enc, [])
  }

  // ---------------------------------------------------------------- what reaches the client

  /**
   * Pairs without a mimetype whose values the serializer turns into `bs`: none of them is
   * the `(None, None)` stop, and none of them raises.
   */
  ghost predicate Serialized(ys: seq<Yield>, ser: Serialize, bs: seq<seq<byte>>)
  {
    |ys| == |bs| && forall i :: 0 <= i < |ys| ==>
      !Truthy(ys[i].mimetype) && ys[i].resp != VNone && ser(ys[i].resp) == Ok(bs[i])
  }

  lemma SerializedTail(ys: seq<Yield>, ser: Serialize, bs: seq<seq<byte>>)
    requires Serialized(ys, ser, bs) && ys != []
    ensures Serialized(ys[1..], ser, bs[1..])
  {
    forall i | 0 <= i < |ys| - 1
      ensures ys[1..][i] == ys[i + 1] && bs[1..][i] == bs[i + 1]
    {
    }
  }

  /** Once the head is out, each serialized value goes out as exactly one frame. */
  lemma ItemFrame(mt: Value, ser: Serialize, y: Yield, b: seq<byte>, out: seq<byte>)
    requires !Truthy(y.mimetype) && y.resp != VNone && ser(y.resp) == Ok(b)
    ensures ItemTurn(Sending(false, mt, Serializer, out), y, ser) == Next(Sending(false, mt, Serializer, out + Frame(b)))
  {
  }

  lemma StreamNext(st: Sending, ys: seq<Yield>, ending: Ending, ser: Serialize, st': Sending)
    requires ys != [] && ItemTurn(st, ys[0], ser) == Next(st')
    ensures Stream(st, ys, ending, ser) == Stream(st', ys[1..], ending, ser)
  {
  }

  lemma FramesAfter(out: seq<byte>, bs: seq<seq<byte>>)
    requires bs != []
    ensures out + Frame(bs[0]) + Frames(bs[1..]) == out + Frames(bs)
  {
    FramesFront(bs);
  }

  /** The first value goes out after the head, under the mimetype of the request. */
  lemma FirstItem(mt: string, ser: Serialize, y: Yield, b: seq<byte>)
    requires !Truthy(y.mimetype) && y.resp != VNone && ser(y.resp) == Ok(b)
    ensures ItemTurn(Begin(VStr(mt), Serializer), y, ser)
      == Next(Sending(false, VStr(mt), Serializer, ChunkedHead(Utf8(mt)) + Frame(b)))
  {
    assert [] + ChunkedHead(Utf8(mt)) == ChunkedHead(Utf8(mt));
  }

  lemma {:induction false} LaterItems(mt: Value, ser: Serialize, ys: seq<Yield>, bs: seq<seq<byte>>,
                                      out: seq<byte>, ending: Ending)
    requires Serialized(ys, ser, bs)
    ensures Stream(Sending(false, mt, Serializer, out), ys, ending, ser)
      == Finish(Sending(false, mt, Serializer, out + Frames(bs)), ending, ser)
    decreases |ys|
  {
    if ys == [] {
      assert out + Frames(bs) == out;
    } else {
      ItemFrame(mt, ser, ys[0], bs[0], out);
      StreamNext(Sending(false, mt, Serializer, out), ys, ending, ser, Sending(false, mt, Serializer, out + Frame(bs[0])));
      SerializedTail(ys, ser, bs);
      LaterItems(mt, ser, ys[1..], bs[1..], out + Frame(bs[0]), ending);
      FramesAfter(out, bs);
    }
  }

  /**
   * The happy path: serialized values go out as the `200` chunked head carrying the
   * request's mimetype, then one frame per value, in order; how the generator ends decides
   * what follows.
   */
  lemma SerializedStream(mt: string, ser: Serialize, ys: seq<Yield>, bs: seq<seq<byte>>, ending: Ending)
    requires Serialized(ys, ser, bs) && ys != []
    ensures Stream(Begin(VStr(mt), Serializer), ys, ending, ser)
      == Finish(Sending(false, VStr(mt), Serializer, ChunkedHead(Utf8(mt)) + Frames(bs)), ending, ser)
  {
    var head := ChunkedHead(Utf8(mt));
    FirstItem(mt, ser, ys[0], bs[0]);
    StreamNext(Begin(VStr(mt), Serializer), ys, ending, ser, Sending(false, VStr(mt), Serializer, head + Frame(bs[0])));
    SerializedTail(ys, ser, bs);
    LaterItems(VStr(mt), ser, ys[1..], bs[1..], head + Frame(bs[0]), ending);
    FramesAfter(head, bs);
  }

  /** A generator that yields nothing and ends normally gets no reply at all. */
  lemma NothingYielded(mt: Value, enc: Enc, ser: Serialize)
    ensures Stream(Begin(mt, enc), [], Exhausted, ser) == Streamed([], None)
  {
  }

  /** A failure before anything was written is a `500` reply carrying `{'error': str(e)}`. */
  lemma FailureFirst(mt: string, ser: Serialize, e: Exc, eb: seq<byte>)
    requires !IsOSError(e.kind) && ser(ErrorDict(e)) == Ok(eb)
    ensures Stream(Begin(VStr(mt), Serializer), [], Raised(e), ser)
      == Streamed(StatusLine(500) + MimetypeBlock(Utf8(mt)) + eb, None)
  {
    var st := Begin(VStr(mt), Serializer);
    StreamEnd(st, [], Raised(e), ser);
    FailFirst(st, mt, e, ser, eb);
    assert [] + StatusLine(500) == StatusLine(500);
  }

  lemma FailFirst(st: Sending, mt: string, e: Exc, ser: Serialize, eb: seq<byte>)
    requires st.first && st.mt == VStr(mt) && st.enc == Serializer
    requires !IsOSError(e.kind) && ser(ErrorDict(e)) == Ok(eb)
    ensures Finish(st, Raised(e), ser) == Streamed(st.out + StatusLine(500) + MimetypeBlock(Utf8(mt)) + eb, None)
  {
  }

  /** A failure after the head is one more frame carrying `{'error': str(e)}`. */
  lemma FailureLater(mt: string, ser: Serialize, ys: seq<Yield>, bs: seq<seq<byte>>, e: Exc, eb: seq<byte>)
    requires Serialized(ys, ser, bs) && ys != []
    requires !IsOSError(e.kind) && ser(ErrorDict(e)) == Ok(eb)
    ensures Stream(Begin(VStr(mt), Serializer), ys, Raised(e), ser)
      == Streamed(ChunkedHead(Utf8(mt)) + Frames(bs) + Frame(eb), None)
  {
    SerializedStream(mt, ser, ys, bs, Raised(e));
    FailFrame(Sending(false, VStr(mt), Serializer, ChunkedHead(Utf8(mt)) + Frames(bs)), e, ser, eb);
  }

  /** Once the head is out, the error report is written as one frame. */
  lemma FailFrame(st: Sending, e: Exc, ser: Serialize, eb: seq<byte>)
    requires !st.first && st.enc == Serializer
    requires !IsOSError(e.kind) && ser(ErrorDict(e)) == Ok(eb)
    ensures Finish(st, Raised(e), ser) == Streamed(st.out + Frame(eb), None)
  {
  }

  /** An OSError (a broken pipe) closes the connection and adds nothing. */
  lemma OSErrorCloses(mt: string, ser: Serialize, ys: seq<Yield>, bs: seq<seq<byte>>, e: Exc)
    requires Serialized(ys, ser, bs) && IsOSError(e.kind)
    ensures Stream(Begin(VStr(mt), Serializer), ys, Raised(e), ser).escaped == None
    ensures ys != [] ==> Stream(Begin(VStr(mt), Serializer), ys, Raised(e), ser).out == ChunkedHead(Utf8(mt)) + Frames(bs)
    ensures ys == [] ==> Stream(Begin(VStr(mt), Serializer), ys, Raised(e), ser).out == []
  {
    if ys != [] {
      SerializedStream(mt, ser, ys, bs, Raised(e));
    }
  }

  /** `(None, None)` ends the reply where it is: later pairs and the generator's end are ignored. */
  lemma StopPair(mt: string, ser: Serialize, ys: seq<Yield>, bs: seq<seq<byte>>, rest: seq<Yield>, ending: Ending)
    requires Serialized(ys, ser, bs) && ys != []
    ensures Stream(Begin(VStr(mt), Serializer), ys + [Yield(VNone, VNone)] + rest, ending, ser)
      == Streamed(ChunkedHead(Utf8(mt)) + Frames(bs), None)
  {
    var all := ys + [Yield(VNone, VNone)] + rest;
    StopAfter(Begin(VStr(mt), Serializer), ys, rest, ending, ser);
    SerializedStream(mt, ser, ys, bs, Exhausted);
  }

  lemma {:induction false} StopAfter(st: Sending, ys: seq<Yield>, rest: seq<Yield>, ending: Ending, ser: Serialize)
    ensures Stream(st, ys + [Yield(VNone, VNone)] + rest, ending, ser) == Stream(st, ys, Exhausted, ser)
    decreases |ys|
  {
    var all := ys + [Yield(VNone, VNone)] + rest;
    if ys == [] {
      assert all[0] == Yield(VNone, VNone);
    } else {
      assert all[0] == ys[0];
      assert all[1..] == ys[1..] + [Yield(VNone, VNone)] + rest;
      match ItemTurn(st, ys[0], ser)
      case Stop =>
      case Raise(_, _) =>
      case Next(st') =>
        StopAfter(st', ys[1..], rest, ending, ser);
    }
  }

  /**
   * The client's view: reading the body after the head back with the decoder gives the
   * serialized values in order (with the corrected frame test, however the body is split
   * into reads).
   */
  lemma ClientSeesItems(mt: string, ser: Serialize, ys: seq<Yield>, bs: seq<seq<byte>>, pieces: seq<seq<byte>>)
    requires Serialized(ys, ser, bs) && ys != []
    requires forall i :: 0 <= i < |pieces| ==> pieces[i] != []
    requires Concat(pieces) == Stream(Begin(VStr(mt), Serializer), ys, Exhausted, ser).out[|ChunkedHead(Utf8(mt))|..]
    ensures Drain([], pieces, true, Taking(true)) == Drained(bs, [])
  {
    var head := ChunkedHead(Utf8(mt));
    SerializedStream(mt, ser, ys, bs, Exhausted);
    assert (head + Frames(bs))[|head|..] == Frames(bs);
    CorrectedAnySplit(pieces, bs);
  }

  /**
   * A generator whose first pair carries a text mimetype switches to the identity encoder:
   * bytes values then go out raw, one frame each, under that mimetype.
   */
  lemma IdentityStream(mt0: Value, ser: Serialize, m: string, b0: seq<byte>, ys: seq<Yield>, bs: seq<seq<byte>>)
    requires m != "" && |ys| == |bs|
    requires forall i :: 0 <= i < |ys| ==> ys[i] == Yield(VNone, VBytes(bs[i]))
    ensures Stream(Begin(mt0, Serializer), [Yield(VStr(m), VBytes(b0))] + ys, Exhausted, ser)
      == Streamed(ChunkedHead(Utf8(m)) + Frames([b0] + bs), None)
  {
    var head := ChunkedHead(Utf8(m));
    var all := [Yield(VStr(m), VBytes(b0))] + ys;
    IdentityFirst(mt0, ser, m, b0);
    assert all[0] == Yield(VStr(m), VBytes(b0)) && all[1..] == ys;
    StreamNext(Begin(mt0, Serializer), all, Exhausted, ser, Sending(false, VStr(m), AsIs, head + Frame(b0)));
    IdentityLater(VStr(m), ser, ys, bs, head + Frame(b0));
    assert ([b0] + bs)[0] == b0 && ([b0] + bs)[1..] == bs;
    FramesAfter(head, [b0] + bs);
  }

  /** The first pair's mimetype replaces the request's and turns encoding off. */
  lemma IdentityFirst(mt0: Value, ser: Serialize, m: string, b0: seq<byte>)
    requires m != ""
    ensures ItemTurn(Begin(mt0, Serializer), Yield(VStr(m), VBytes(b0)), ser)
      == Next(Sending(false, VStr(m), AsIs, ChunkedHead(Utf8(m)) + Frame(b0)))
  {
    assert [] + ChunkedHead(Utf8(m)) == ChunkedHead(Utf8(m));
  }

  lemma {:induction false} IdentityLater(mt: Value, ser: Serialize, ys: seq<Yield>, bs: seq<seq<byte>>, out: seq<byte>)
    requires |ys| == |bs| && forall i :: 0 <= i < |ys| ==> ys[i] == Yield(VNone, VBytes(bs[i]))
    ensures Stream(Sending(false, mt, AsIs, out), ys, Exhausted, ser) == Streamed(out + Frames(bs), None)
    decreases |ys|
  {
    if ys == [] {
      assert out + Frames(bs) == out;
    } else {
      IdentityItem(mt, ser, bs[0], out);
      StreamNext(Sending(false, mt, AsIs, out), ys, Exhausted, ser, Sending(false, mt, AsIs, out + Frame(bs[0])));
      assert forall i :: 0 <= i < |ys| - 1 ==> ys[1..][i] == ys[i + 1] && bs[1..][i] == bs[i + 1];
      IdentityLater(mt, ser, ys[1..], bs[1..], out + Frame(bs[0]));
      FramesAfter(out, bs);
    }
  }

  lemma IdentityItem(mt: Value, ser: Serialize, b: seq<byte>, out: seq<byte>)
    ensures ItemTurn(Sending(false, mt, AsIs, out), Yield(VNone, VBytes(b)), ser)
      == Next(Sending(false, mt, AsIs, out + Frame(b)))
  {
  }

  /**
   * With the identity encoder the error report is the dictionary itself: its length line
   * `1\r\n` goes out, writing the dictionary raises TypeError, and that TypeError escapes.
   */
  lemma IdentityFailureEscapes(out: seq<byte>, mt: Value, ser: Serialize, e: Exc)
    requires !IsOSError(e.kind)
    ensures Stream(Sending(false, mt, AsIs, out), [], Raised(e), ser)
      == Streamed(out + Latin1(Hex(1)) + CRLF, Some(Exc(TypeError, NotBytes + "dict'")))
  {
    var d := ErrorDict(e);
    assert |d.entries.Keys| == 1 by {
      assert d.entries.Keys == {"error"};
    }
    assert PyLen(d) == Ok(1);
    assert TypeName(d) + "'" == "dict'";
    assert NotBytes + TypeName(d) + "'" == NotBytes + (TypeName(d) + "'");
    assert AsBytes(d) == Err(Exc(TypeError, NotBytes + "dict'"));
  }

  // ---------------------------------------------------------------- the wrapper

  /** The stream writer of one connection: the bytes written to it and whether it is closed. */
  class Writer {
    var out: seq<byte>
    var closed: bool

    constructor()
      ensures out == [] && !closed
    {
      out := [];
      closed := false;
    }

    method Write(data: seq<byte>)
      modifies this
      ensures out == old(out) + data && closed == old(closed)
    {
      out := out + data;
    }

    method Close()
      modifies this
      ensures out == old(out) && closed
    {
      closed := true;
    }
  }

  /** `writer.write(b'%x\r\n' % len(data))`, `writer.write(data)`, `writer.write(b'\r\n')`. */
  method WriteFrame(w: Writer, data: Value) returns (failed: Option<Exc>)
    modifies w
    ensures w.out == SendFrame(old(w.out), data).out && failed == SendFrame(old(w.out), data).failed
    ensures w.closed == old(w.closed)
  {
    var n := PyLen(data);
    if n.Err? {
      w.Write([]);
      return Some(n.error);
    }
    w.Write(Latin1(Hex(n.value)) + CRLF);
    var b := AsBytes(data);
    if b.Err? {
      return Some(b.error);
    }
    w.Write(b.value);
    w.Write(CRLF);
    assert w.out == old(w.out) + (Latin1(Hex(|b.value|)) + CRLF + b.value + CRLF);
    return None;
  }

  /** The `except Exception` clause of `raw_method`, writing to `w`. */
  method Report(w: Writer, first: bool, mt: Value, enc: Enc, ser: Serialize, e: Exc) returns (escaped: Option<Exc>)
    requires !IsOSError(e.kind)
    modifies w
    ensures w.out == Fail(Sending(first, mt, enc, old(w.out)), e, ser).out
    ensures escaped == Fail(Sending(first, mt, enc, old(w.out)), e, ser).escaped
    ensures w.closed == old(w.closed)
  {
    var data := EncodeValue(enc, ser, ErrorDict(e));
    if data.Err? {
      return Some(data.error);
    }
    if first {
      w.Write(StatusLine(500));
      var m := MimeBytes(mt);
      if m.Err? {
        return Some(m.error);
      }
      w.Write(MimetypeBlock(m.value));
      var b := AsBytes(data.value);
      if b.Err? {
        return Some(b.error);
      }
      w.Write(b.value);
      escaped := None;
    } else {
      escaped := WriteFrame(w, data.value);
    }
  }

  /**
   * One pass of the `async for` body, writing to `w`: whether the pair stops the wrapper,
   * the mimetype and encoder from then on, and what raised, if anything.
   */
  method Item(w: Writer, first: bool, mt: Value, enc: Enc, ser: Serialize, y: Yield)
    returns (stop: bool, mt': Value, enc': Enc, failed: Option<Exc>)
    modifies w
    ensures var t := ItemTurn(Sending(first, mt, enc, old(w.out)), y, ser);
      match t
      case Stop => stop && w.out == old(w.out)
      case Next(st) => !stop && failed == None && st == Sending(false, mt', enc', w.out)
      case Raise(at, e) => !stop && failed == Some(e) && at == Sending(first, mt', enc', w.out)
    ensures w.closed == old(w.closed)
  {
    if y.resp == VNone && y.mimetype == VNone {
      return true, mt, enc, None;
    }
    stop, mt', enc' := false, mt, enc;
    if Truthy(y.mimetype) && first {
      mt', enc' := y.mimetype, AsIs;
    }
    ghost var o := Opening(old(w.out), first, mt');
    failed := Open(w, first, mt');
    if failed.Some? {
      return;
    }
    ghost var sent := SendValue(o.out, enc', ser, y.resp);
    failed := WriteValue(w, enc', ser, y.resp);
    assert w.out == sent.out && failed == sent.failed;
  }

  /** Writes the head of the reply when this is the first pair. */
  method Open(w: Writer, first: bool, mt: Value) returns (failed: Option<Exc>)
    modifies w
    ensures w.out == Opening(old(w.out), first, mt).out && failed == Opening(old(w.out), first, mt).failed
    ensures w.closed == old(w.closed)
  {
    w.Write([]);
    if first {
      var m := MimeBytes(mt);
      if m.Err? {
        return Some(m.error);
      }
      w.Write(ChunkedHead(m.value));
    }
    return None;
  }

  /** `data = enc(resp)`, then `data` written as one frame. */
  method WriteValue(w: Writer, enc: Enc, ser: Serialize, v: Value) returns (failed: Option<Exc>)
    modifies w
    ensures w.out == SendValue(old(w.out), enc, ser, v).out && failed == SendValue(old(w.out), enc, ser, v).failed
    ensures w.closed == old(w.closed)
  {
    var data := EncodeValue(enc, ser, v);
    if data.Err? {
      return Some(data.error);
    }
    failed := WriteFrame(w, data.value);
  }

  lemma StreamStop(st: Sending, ys: seq<Yield>, ending: Ending, ser: Serialize)
    requires ys != [] && ItemTurn(st, ys[0], ser).Stop?
    ensures Stream(st, ys, ending, ser) == Streamed(st.out, None)
  {
  }

  lemma StreamRaise(st: Sending, ys: seq<Yield>, ending: Ending, ser: Serialize)
    requires ys != [] && ItemTurn(st, ys[0], ser).Raise?
    ensures Stream(st, ys, ending, ser) == Fail(ItemTurn(st, ys[0], ser).at, ItemTurn(st, ys[0], ser).e, ser)
  {
  }

  /** Both `except` clauses, writing to `w`; the connection is closed afterwards either way. */
  method Handle(w: Writer, first: bool, mt: Value, enc: Enc, ser: Serialize, e: Exc) returns (escaped: Option<Exc>)
    modifies w
    ensures w.out == Fail(Sending(first, mt, enc, old(w.out)), e, ser).out
    ensures escaped == Fail(Sending(first, mt, enc, old(w.out)), e, ser).escaped
    ensures w.closed
  {
    if IsOSError(e.kind) {
      escaped := None;
    } else {
      escaped := Report(w, first, mt, enc, ser, e);
    }
    w.Close();
  }

  /**
   * One pass of the loop of `raw_method` on the first of `ys`: either the wrapper is done
   * (stopped, or an exception was handled and the connection closed), or it goes on with
   * the rest of `ys`.
   */
  method Step(w: Writer, first: bool, mt: Value, enc: Enc, ser: Serialize, ys: seq<Yield>, ending: Ending)
    returns (done: bool, escaped: Option<Exc>, mt': Value, enc': Enc)
    requires ys != []
    modifies w
    ensures done ==> w.out == Stream(Sending(first, mt, enc, old(w.out)), ys, ending, ser).out
    ensures done ==> escaped == Stream(Sending(first, mt, enc, old(w.out)), ys, ending, ser).escaped && w.closed
    ensures !done ==>
      Stream(Sending(false, mt', enc', w.out), ys[1..], ending, ser) == Stream(Sending(first, mt, enc, old(w.out)), ys, ending, ser)
  {
    ghost var st := Sending(first, mt, enc, w.out);
    var stop, failed;
    stop, mt', enc', failed := Item(w, first, mt, enc, ser, ys[0]);
    if stop {
      StreamStop(st, ys, ending, ser);
      w.Close();
      return true, None, mt', enc';
    }
    if failed.Some? {
      StreamRaise(st, ys, ending, ser);
      escaped := Handle(w, first, mt', enc', ser, failed.value);
      return true, escaped, mt', enc';
    }
    StreamNext(st, ys, ending, ser, Sending(false, mt', enc', w.out));
    return false, None, mt', enc';
  }

  /**
   * `raw_method`: runs the generator's pairs through the wrapper, writing to `w`, and
   * always leaves the connection closed.
   */
  method RawStream(w: Writer, mt: Value, enc: Enc, ser: Serialize, ys: seq<Yield>, ending: Ending)
    returns (escaped: Option<Exc>)
    modifies w
    ensures w.out == Stream(Sending(true, mt, enc, old(w.out)), ys, ending, ser).out
    ensures escaped == Stream(Sending(true, mt, enc, old(w.out)), ys, ending, ser).escaped
    ensures w.closed
  {
    ghost var whole := Stream(Sending(true, mt, enc, w.out), ys, ending, ser);
    var first, mt', enc' := true, mt, enc;
    var rest := ys;
    while rest != []
      invariant Stream(Sending(first, mt', enc', w.out), rest, ending, ser) == whole
      decreases |rest|
    {
      var done;
      done, escaped, mt', enc' := Step(w, first, mt', enc', ser, rest, ending);
      if done {
        return;
      }
      first, rest := false, rest[1..];
    }
    StreamEnd(Sending(first, mt', enc', w.out), rest, ending, ser);
    escaped := End(w, first, mt', enc', ser, ending);
  }

  /** After the generator's last pair: its exception goes through the handlers; then `finally` closes. */
  method End(w: Writer, first: bool, mt: Value, enc: Enc, ser: Serialize, ending: Ending) returns (escaped: Option<Exc>)
    modifies w
    ensures w.out == Finish(Sending(first, mt, enc, old(w.out)), ending, ser).out
    ensures escaped == Finish(Sending(first, mt, enc, old(w.out)), ending, ser).escaped
    ensures w.closed
  {
    if ending.Raised? {
      escaped := Handle(w, first, mt, enc, ser, ending.e);
    } else {
      escaped := None;
      w.Close();
    }
  }

  lemma StreamEnd(st: Sending, ys: seq<Yield>, ending: Ending, ser: Serialize)
    requires ys == []
    ensures Stream(st, ys, ending, ser) == Finish(st, ending, ser)
  {
  }
}
