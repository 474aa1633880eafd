/**
 * The head reader `_http11`: reads accumulate in a buffer until the first blank line
 * has arrived, the head is decoded as UTF-8 and its `Name: value` lines become a
 * dictionary, and Content-Length decides how many more bytes to read. The connection
 * is given as the sequence of what its reads return; the two timers are left out.
 */
module HttpHead {
  import opened Wrappers
  import opened PyText
  import opened Values

  const LFLF: seq<byte> := [10, 10]
  const CRLFCRLF: seq<byte> := [13, 10, 13, 10]

  /** How many bytes the reader asks for before it has seen a head. */
  const InitialWant: int := 8192

  /** The default of `worker_http_request_max_size`. */
  const DefaultMaxSize: nat := 1024 * 1024

  /**
   * Where the head ends: the first `\n` decides between `\n\n` and `\r\n\r\n` (for a `\n`
   * at index 0, Python's `request[-1]` looks at the last byte), and the head ends at the
   * first occurrence of that blank line. `None` where `index` raises ValueError.
   */
  function Locate(request: seq<byte>): (r: Option<(nat, seq<byte>)>)
    ensures r.Some? ==> (r.value.1 == LFLF || r.value.1 == CRLFCRLF) && MatchAt(request, r.value.1, r.value.0)
  {
    match IndexOf(request, [LF])
    case None => None
    case Some(nl1) =>
      var prev := if nl1 >= 1 then request[nl1 - 1] else request[|request| - 1];
      var eom := if prev == CR then CRLFCRLF else LFLF;
      match IndexOf(request, eom)
      case None => None
      case Some(hend) => Some((hend, eom))
  }

  /** The blank line `Locate` finds is the first of its kind, and its kind follows the first line's ending. */
  lemma LocateFirst(request: seq<byte>)
    requires Locate(request).Some?
    ensures var (hend, eom) := Locate(request).value;
      (forall j :: 0 <= j < hend ==> !MatchAt(request, eom, j))
      && (eom == CRLFCRLF <==> var nl1 := IndexOf(request, [LF]).value;
                               (if nl1 >= 1 then request[nl1 - 1] else request[|request| - 1]) == CR)
  {
    IndexOfFirst(request, Locate(request).value.1);
  }

  /**
   * `dict(l.split(': ', 1) for l in lines)`: a line without `': '` splits into one part,
   * which `dict` refuses with ValueError; a later line overrides an earlier one.
   */
  function HeaderMap(lines: seq<string>): (r: Result<map<string, string>, ExcKind>)
    ensures r.Err? ==> r.error == ValueError
  {
    if lines == [] then Ok(map[])
    else
      match HeaderMap(lines[..|lines| - 1])
      case Err(e) => Err(e)
      case Ok(m) =>
        match SplitOnce(lines[|lines| - 1], ": ")
        case None => Err(ValueError)
        case Some((k, v)) => Ok(m[k := v])
  }

  /** The dictionary is built exactly when every line has a `': '`. */
  lemma {:induction false} HeaderMapOk(lines: seq<string>)
    ensures HeaderMap(lines).Ok? <==> forall i :: 0 <= i < |lines| ==> Contains(lines[i], ": ")
  {
    if lines != [] {
      var init := lines[..|lines| - 1];
      HeaderMapOk(init);
      forall i | 0 <= i < |init|
        ensures init[i] == lines[i]
      {
      }
    }
  }

  /** The name part of a header line (the whole line when it has no `': '`). */
  function FieldName(l: string): string
  {
    match SplitOnce(l, ": ")
    case None => l
    case Some((k, _)) => k
  }

  /** Every key of the dictionary is the name of some line. */
  lemma {:induction false} HeaderMapKeys(lines: seq<string>)
    requires HeaderMap(lines).Ok?
    ensures forall k :: k in HeaderMap(lines).value ==> exists i :: 0 <= i < |lines| && FieldName(lines[i]) == k
  {
    if lines != [] {
      var n := |lines|;
      var init := lines[..n - 1];
      HeaderMapKeys(init);
      forall k | k in HeaderMap(lines).value
        ensures exists i :: 0 <= i < n && FieldName(lines[i]) == k
      {
        if k != FieldName(lines[n - 1]) {
          var i :| 0 <= i < |init| && FieldName(init[i]) == k;
          assert init[i] == lines[i];
        }
      }
    }
  }

  /** Line `i` is in the dictionary, with its own value unless a later line has the same name. */
  ghost predicate LineKept(lines: seq<string>, m: map<string, string>, i: int)
    requires 0 <= i < |lines|
  {
    SplitOnce(lines[i], ": ").Some? && FieldName(lines[i]) in m
    && ((forall j :: i < j < |lines| ==> FieldName(lines[j]) != FieldName(lines[i]))
        ==> m[FieldName(lines[i])] == SplitOnce(lines[i], ": ").value.1)
  }

  lemma HeaderMapLast(lines: seq<string>)
    requires lines != [] && HeaderMap(lines).Ok?
    ensures var last := lines[|lines| - 1];
      HeaderMap(lines[..|lines| - 1]).Ok? && SplitOnce(last, ": ").Some?
      && HeaderMap(lines).value == HeaderMap(lines[..|lines| - 1]).value[FieldName(last) := SplitOnce(last, ": ").value.1]
  {
    var last := lines[|lines| - 1];
    var split := SplitOnce(last, ": ");
    assert HeaderMap(lines[..|lines| - 1]).Ok? && split.Some?;
    assert FieldName(last) == split.value.0;
  }

  /** Each line's name maps to that line's value unless a later line has the same name. */
  lemma {:induction false} HeaderMapValues(lines: seq<string>)
    requires HeaderMap(lines).Ok?
    ensures forall i :: 0 <= i < |lines| ==> LineKept(lines, HeaderMap(lines).value, i)
  {
    if lines != [] {
      var n := |lines|;
      var init := lines[..n - 1];
      HeaderMapValues(init);
      HeaderMapLast(lines);
      var m0 := HeaderMap(init).value;
      var k := FieldName(lines[n - 1]);
      var m := HeaderMap(lines).value;
      assert LineKept(lines, m, n - 1);
      forall i | 0 <= i < n - 1
        ensures LineKept(lines, m, i)
      {
        assert init[i] == lines[i];
        assert LineKept(init, m0, i);
        if forall j :: i < j < n ==> FieldName(lines[j]) != FieldName(lines[i]) {
          forall j | i < j < n - 1
            ensures FieldName(init[j]) != FieldName(init[i])
          {
            assert init[j] == lines[j];
          }
        }
      }
    }
  }

  /** `int(headers.get('Content-Length', 0))`: 0 when absent, ValueError when it is not an integer. */
  function ContentLength(headers: map<string, string>): (r: Result<int, ExcKind>)
    ensures "Content-Length" !in headers ==> r == Ok(0)
    ensures r.Err? ==> r.error == ValueError
  {
    if "Content-Length" !in headers then Ok(0)
    else match ParseInt(headers["Content-Length"], 10, true)
      case None => Err(ValueError)
      case Some(n) => Ok(n)
  }

  /** A length written with `'%d'` is read back. */
  lemma ContentLengthRoundTrip(headers: map<string, string>, n: int)
    ensures ContentLength(headers["Content-Length" := Decimal(n)]) == Ok(n)
  {
    DecimalRoundTrip(n, true);
  }

  /** What the reader returns: the head text, its dictionary and the bytes from `hend + 2` on. */
  datatype Head = Head(header: string, headers: map<string, string>, body: seq<byte>)

  /**
   * The reader's variables between reads: the buffer, how many more bytes it wants, the
   * decoded head once found (`Some("")` when the blank line starts the buffer), where it
   * ends and with which blank line, and the header dictionary.
   */
  datatype Reading = Reading(request: seq<byte>, want: int, header: Option<string>, hend: nat,
                             eom: seq<byte>, headers: map<string, string>)

  const Start: Reading := Reading([], InitialWant, None, 0, [], map[])

  /**
   * The `try` block and what follows it, on a buffer with no head yet: locate the blank line
   * and decode the head; where either fails, the head stays unknown. An empty head is kept
   * as found but never parsed; a non-empty one is split into its header dictionary (after
   * the request or status line) and Content-Length sets how many bytes are still wanted.
   */
  function LookForHead(st: Reading): (r: Result<Reading, ExcKind>)
    ensures r.Ok? ==> r.value.request == st.request
    ensures r.Err? ==> r.error == ValueError
  {
    match Locate(st.request)
    case None => Ok(st)
    case Some((hend, eom)) =>
      match Utf8Decode(st.request[..hend])
      case None => Ok(st)
      case Some(text) =>
        if text == "" then Ok(st.(header := Some(text), hend := hend, eom := eom))
        else
          match HeaderMap(SliceFrom(SplitLines(text), 1))
          case Err(e) => Err(e)
          case Ok(m) =>
            match ContentLength(m)
            case Err(e) => Err(e)
            case Ok(clen) =>
              var want := if clen != 0 then hend + |eom| + clen - |st.request| else 0;
              Ok(Reading(st.request, want, Some(text), hend, eom, m))
  }

  /**
   * One turn of the loop after a non-empty read: append it, refuse a buffer over the limit,
   * and look for the head while none is known.
   */
  function Scan(st: Reading, data: seq<byte>, maxSize: nat): (r: Result<Reading, ExcKind>)
    ensures r.Ok? ==> r.value.request == st.request + data && |r.value.request| <= maxSize
    ensures r.Err? ==> r.error == ValueError
    ensures r.Ok? && st.header.Some? ==> r.value == st.(request := st.request + data, want := st.want - |data|)
  {
    var next := st.(request := st.request + data, want := st.want - |data|);
    if |next.request| > maxSize then Err(ValueError)
    else if st.header.Some? then Ok(next)
    else LookForHead(next)
  }

  /** The loop: stop when nothing more is wanted or a read comes back empty. */
  function Run(st: Reading, incoming: seq<seq<byte>>, maxSize: nat): (r: Result<Reading, ExcKind>)
    ensures r.Err? ==> r.error == ValueError
    decreases |incoming|
  {
    if st.want <= 0 || incoming == [] || incoming[0] == [] then Ok(st)
    else
      match Scan(st, incoming[0], maxSize)
      case Err(e) => Err(e)
      case Ok(next) => Run(next, incoming[1..], maxSize)
  }

  /** How many reads the loop takes. */
  function Taken(st: Reading, incoming: seq<seq<byte>>, maxSize: nat): (k: nat)
    ensures k <= |incoming|
    decreases |incoming|
  {
    if st.want <= 0 || incoming == [] || incoming[0] == [] then 0
    else
      match Scan(st, incoming[0], maxSize)
      case Err(_) => 0
      case Ok(next) => 1 + Taken(next, incoming[1..], maxSize)
  }

  /** After the loop: ValueError unless a non-empty head was found. */
  function Finish(r: Result<Reading, ExcKind>): (h: Result<Head, ExcKind>)
    ensures h.Ok? <==> r.Ok? && r.value.header.Some? && r.value.header.value != ""
    ensures h.Ok? ==> h.value.header == r.value.header.value && h.value.headers == r.value.headers
  {
    match r
    case Err(e) => Err(e)
    case Ok(st) =>
      if st.header.None? || st.header.value == "" then Err(ValueError)
      else Ok(Head(st.header.value, st.headers, SliceFrom(st.request, st.hend + 2)))
  }

  // ---------------------------------------------------------------- what the loop keeps

  /** The head, once known, is the UTF-8 text before the first blank line of the buffer. */
  ghost predicate Framed(st: Reading)
  {
    st.header.Some? && st.header.value != "" ==>
      (st.eom == LFLF || st.eom == CRLFCRLF)
      && MatchAt(st.request, st.eom, st.hend)
      && (forall j :: 0 <= j < st.hend ==> !MatchAt(st.request, st.eom, j))
      && Utf8Decode(st.request[..st.hend]) == Some(st.header.value)
      && HeaderMap(SliceFrom(SplitLines(st.header.value), 1)) == Ok(st.headers)
      && ContentLength(st.headers).Ok?
      && var clen := ContentLength(st.headers).value;
         if clen != 0 then st.want == st.hend + |st.eom| + clen - |st.request| else st.want <= 0
  }

  lemma MatchInPrefix(s: seq<byte>, t: seq<byte>, pat: seq<byte>, j: int)
    requires 0 <= j && j + |pat| <= |s|
    ensures MatchAt(s + t, pat, j) <==> MatchAt(s, pat, j)
  {
    assert (s + t)[j..j + |pat|] == s[j..j + |pat|];
  }

  /** Appending a read keeps a found head where it was. */
  lemma FramedAppend(st: Reading, data: seq<byte>)
    requires Framed(st) && st.header.Some? && st.header.value != ""
    ensures Framed(st.(request := st.request + data, want := st.want - |data|))
  {
    var request := st.request + data;
    MatchInPrefix(st.request, data, st.eom, st.hend);
    forall j | 0 <= j < st.hend
      ensures !MatchAt(request, st.eom, j)
    {
      MatchInPrefix(st.request, data, st.eom, j);
    }
    assert request[..st.hend] == st.request[..st.hend];
  }

  lemma FramedScan(st: Reading, data: seq<byte>, maxSize: nat)
    requires Framed(st) && Scan(st, data, maxSize).Ok?
    ensures Framed(Scan(st, data, maxSize).value)
  {
    var request := st.request + data;
    if st.header.Some? {
      if st.header.value != "" {
        FramedAppend(st, data);
      }
    } else if Locate(request).Some? {
      LocateFirst(request);
    }
  }

  lemma {:induction false} FramedRun(st: Reading, incoming: seq<seq<byte>>, maxSize: nat)
    requires Framed(st) && Run(st, incoming, maxSize).Ok?
    ensures Framed(Run(st, incoming, maxSize).value)
    decreases |incoming|
  {
    if !(st.want <= 0 || incoming == [] || incoming[0] == []) {
      FramedScan(st, incoming[0], maxSize);
      FramedRun(Scan(st, incoming[0], maxSize).value, incoming[1..], maxSize);
    }
  }

  lemma ConcatOneMore(incoming: seq<seq<byte>>, k: nat)
    requires k < |incoming|
    ensures Concat(incoming[..k + 1]) == incoming[0] + Concat(incoming[1..][..k])
  {
    ConcatFront(incoming[..k + 1]);
    assert incoming[..k + 1][1..] == incoming[1..][..k];
  }

  /**
   * The final buffer is the starting one followed by the reads taken, and the loop stopped
   * because nothing more was wanted or the next read was empty.
   */
  lemma {:induction false} RunTakes(st: Reading, incoming: seq<seq<byte>>, maxSize: nat)
    requires Run(st, incoming, maxSize).Ok?
    ensures var fin := Run(st, incoming, maxSize).value; var k := Taken(st, incoming, maxSize);
      fin.request == st.request + Concat(incoming[..k])
      && (fin.want <= 0 || k == |incoming| || incoming[k] == [])
    decreases |incoming|
  {
    if st.want <= 0 || incoming == [] || incoming[0] == [] {
      assert st.request + Concat(incoming[..0]) == st.request;
    } else {
      var next := Scan(st, incoming[0], maxSize).value;
      RunTurn(st, incoming, maxSize);
      assert Taken(st, incoming, maxSize) == 1 + Taken(next, incoming[1..], maxSize);
      RunTakes(next, incoming[1..], maxSize);
      TakesOneMore(st.request, next.request, Run(st, incoming, maxSize).value, incoming, Taken(next, incoming[1..], maxSize));
    }
  }

  lemma TakesOneMore(request: seq<byte>, next: seq<byte>, fin: Reading, incoming: seq<seq<byte>>, k: nat)
    requires incoming != [] && next == request + incoming[0] && k <= |incoming[1..]|
    requires fin.request == next + Concat(incoming[1..][..k])
    requires fin.want <= 0 || k == |incoming[1..]| || incoming[1..][k] == []
    ensures fin.request == request + Concat(incoming[..k + 1])
    ensures fin.want <= 0 || k + 1 == |incoming| || incoming[k + 1] == []
  {
    ConcatOneMore(incoming, k);
    assert k + 1 < |incoming| ==> incoming[k + 1] == incoming[1..][k];
  }

  /** The buffer never grows past the limit. */
  lemma {:induction false} RunWithin(st: Reading, incoming: seq<seq<byte>>, maxSize: nat)
    requires |st.request| <= maxSize && Run(st, incoming, maxSize).Ok?
    ensures |Run(st, incoming, maxSize).value.request| <= maxSize
    decreases |incoming|
  {
    if !(st.want <= 0 || incoming == [] || incoming[0] == []) {
      RunWithin(Scan(st, incoming[0], maxSize).value, incoming[1..], maxSize);
    }
  }

  lemma SplitAround<T>(r: seq<T>, h: nat, p: seq<T>)
    requires h + |p| <= |r| && r[h..h + |p|] == p
    ensures r == r[..h] + p + r[h + |p|..]
  {
  }

  lemma FramedFinal(st: Reading)
    requires Framed(st) && st.header.Some? && st.header.value != ""
    ensures st.hend + |st.eom| <= |st.request|
    ensures st.eom == LFLF ==> st.request == st.request[..st.hend] + LFLF + SliceFrom(st.request, st.hend + 2)
    ensures st.eom == CRLFCRLF ==>
      st.request == st.request[..st.hend] + CRLF + SliceFrom(st.request, st.hend + 2)
      && StartsWith(SliceFrom(st.request, st.hend + 2), CRLF)
  {
    var r := st.request;
    var h := st.hend;
    assert r[h..h + |st.eom|] == st.eom;
    assert r[h..h + 2] == r[h..h + |st.eom|][..2];
    SplitAround(r, h, st.eom[..2]);
    if st.eom == CRLFCRLF {
      assert r[h + 2..][..2] == r[h + 2..h + 4] == st.eom[2..];
    }
  }

  /**
   * What `_http11` returns: the head is the UTF-8 text before the first blank line of the
   * buffer; the buffer is exactly the reads taken before the loop stopped and within the
   * limit; and the body skips only `hend + 2` bytes, so with `\n` line endings it is exactly
   * what follows the blank line, while with `\r\n` it still starts with the blank line's CRLF.
   */
  lemma HeadBody(incoming: seq<seq<byte>>, maxSize: nat)
    requires Finish(Run(Start, incoming, maxSize)).Ok?
    ensures var st := Run(Start, incoming, maxSize).value;
      var head := Finish(Run(Start, incoming, maxSize)).value;
      var k := Taken(Start, incoming, maxSize);
      st.request == Concat(incoming[..k]) && (st.want <= 0 || k == |incoming| || incoming[k] == [])
      && |st.request| <= maxSize
      && (st.eom == LFLF || st.eom == CRLFCRLF)
      && MatchAt(st.request, st.eom, st.hend)
      && Utf8Decode(st.request[..st.hend]) == Some(head.header)
      && (forall j :: 0 <= j < st.hend ==> !MatchAt(st.request, st.eom, j))
      && (st.eom == LFLF ==> st.request == st.request[..st.hend] + LFLF + head.body)
      && (st.eom == CRLFCRLF ==> st.request == st.request[..st.hend] + CRLF + head.body
                                 && StartsWith(head.body, CRLF))
  {
    var st := Run(Start, incoming, maxSize).value;
    RunTakes(Start, incoming, maxSize);
    RunWithin(Start, incoming, maxSize);
    assert [] + Concat(incoming[..Taken(Start, incoming, maxSize)]) == Concat(incoming[..Taken(Start, incoming, maxSize)]);
    FramedRun(Start, incoming, maxSize);
    FramedFinal(st);
  }

  /**
   * With a Content-Length of `n` other than 0, the reader has read on until the buffer holds
   * `hend + len(eom) + n` bytes, unless a read came back empty first.
   */
  lemma ContentLengthReached(incoming: seq<seq<byte>>, maxSize: nat, n: int)
    requires Finish(Run(Start, incoming, maxSize)).Ok?
    requires ContentLength(Run(Start, incoming, maxSize).value.headers) == Ok(n) && n != 0
    requires Taken(Start, incoming, maxSize) < |incoming| && incoming[Taken(Start, incoming, maxSize)] != []
    ensures var st := Run(Start, incoming, maxSize).value; |st.request| >= st.hend + |st.eom| + n
  {
    RunTakes(Start, incoming, maxSize);
    FramedRun(Start, incoming, maxSize);
  }

  /** Once the buffer holds the head and `n` body bytes, the reader reads no more. */
  lemma NoReadPastLength(st: Reading, incoming: seq<seq<byte>>, maxSize: nat, n: int)
    requires Framed(st) && st.header.Some? && st.header.value != ""
    requires ContentLength(st.headers) == Ok(n) && n != 0
    requires |st.request| >= st.hend + |st.eom| + n
    ensures Run(st, incoming, maxSize) == Ok(st)
  {
  }

  /** A read that takes the buffer over the limit raises ValueError. */
  lemma TooLarge(st: Reading, data: seq<byte>, more: seq<seq<byte>>, maxSize: nat)
    requires st.want > 0 && data != [] && |st.request + data| > maxSize
    ensures Run(st, [data] + more, maxSize) == Err(ValueError)
  {
  }

  lemma NoMatchInPrefix(s: seq<byte>, t: seq<byte>, pat: seq<byte>)
    requires !Contains(s + t, pat)
    ensures !Contains(s, pat)
  {
    IndexOfFirst(s + t, pat);
    if Contains(s, pat) {
      var j := IndexOf(s, pat).value;
      MatchInPrefix(s, t, pat, j);
    }
  }

  /** Without any `\n` in the buffer and the reads still to come, no head is ever found. */
  lemma {:induction false} NoNewlineNoHead(st: Reading, incoming: seq<seq<byte>>, maxSize: nat)
    requires st.header.None? && !Contains(st.request + Concat(incoming), [LF])
    ensures Run(st, incoming, maxSize).Ok? ==> Run(st, incoming, maxSize).value.header.None?
    decreases |incoming|
  {
    if !(st.want <= 0 || incoming == [] || incoming[0] == []) && Scan(st, incoming[0], maxSize).Ok? {
      var request := st.request + incoming[0];
      ConcatFront(incoming);
      assert st.request + Concat(incoming) == request + Concat(incoming[1..]);
      NoMatchInPrefix(request, Concat(incoming[1..]), [LF]);
      NoNewlineNoHead(Scan(st, incoming[0], maxSize).value, incoming[1..], maxSize);
    }
  }

  /** A connection that never sends a `\n` ends in ValueError. */
  lemma NoNewlineIsError(incoming: seq<seq<byte>>, maxSize: nat)
    requires !Contains(Concat(incoming), [LF])
    ensures Finish(Run(Start, incoming, maxSize)) == Err(ValueError)
  {
    assert Start.request + Concat(incoming) == Concat(incoming);
    NoNewlineNoHead(Start, incoming, maxSize);
  }

  /** A head, once set, is never looked for again. */
  lemma {:induction false} HeaderKept(st: Reading, incoming: seq<seq<byte>>, maxSize: nat)
    requires st.header.Some? && Run(st, incoming, maxSize).Ok?
    ensures Run(st, incoming, maxSize).value.header == st.header
    decreases |incoming|
  {
    if !(st.want <= 0 || incoming == [] || incoming[0] == []) {
      HeaderKept(Scan(st, incoming[0], maxSize).value, incoming[1..], maxSize);
    }
  }

  /**
   * A first read that starts with the blank line `\n\n` (and does not end in CR) gives the
   * empty head, which is never parsed and ends in ValueError.
   */
  lemma BlankHeadIsError(incoming: seq<seq<byte>>, maxSize: nat)
    requires incoming != [] && |incoming[0]| <= maxSize
    requires StartsWith(incoming[0], LFLF) && incoming[0][|incoming[0]| - 1] != CR
    ensures Finish(Run(Start, incoming, maxSize)) == Err(ValueError)
  {
    var r := incoming[0];
    LocateBlankFirst(r);
    RunTurn(Start, incoming, maxSize);
    var st := Scan(Start, r, maxSize).value;
    assert st.header == Some("");
    if Run(st, incoming[1..], maxSize).Ok? {
      HeaderKept(st, incoming[1..], maxSize);
    }
  }

  lemma LocateBlankFirst(r: seq<byte>)
    requires StartsWith(r, LFLF) && r[|r| - 1] != CR
    ensures Locate([] + r) == Some((0, LFLF)) && Utf8Decode(([] + r)[..0]) == Some("")
  {
    assert [] + r == r;
    assert MatchAt(r, [LF], 0);
    IndexOfAt(r, [LF], 0);
    assert MatchAt(r, LFLF, 0);
    IndexOfAt(r, LFLF, 0);
  }

  // ---------------------------------------------------------------- the reader

  lemma RunTurn(st: Reading, incoming: seq<seq<byte>>, maxSize: nat)
    requires st.want > 0 && incoming != [] && incoming[0] != []
    ensures Run(st, incoming, maxSize)
      == if Scan(st, incoming[0], maxSize).Err? then Err(ValueError)
         else Run(Scan(st, incoming[0], maxSize).value, incoming[1..], maxSize)
  {
  }

  lemma RunStop(st: Reading, incoming: seq<seq<byte>>, maxSize: nat)
    requires st.want <= 0 || incoming == [] || incoming[0] == []
    ensures Run(st, incoming, maxSize) == Ok(st)
  {
  }

  /**
   * The read loop of `_http11` with the reads of the connection given as `incoming`: it ends
   * in the state the loop above describes, or raises.
   */
  method ReadLoop(incoming: seq<seq<byte>>, maxSize: nat) returns (r: Result<Reading, ExcKind>)
    ensures r == Run(Start, incoming, maxSize)
  {
    var request: seq<byte> := [];
    var want := InitialWant;
    var header: Option<string> := None;
    var hend: nat := 0;
    var eom: seq<byte> := [];
    var headers: map<string, string> := map[];
    var i := 0;
    while want > 0
      invariant 0 <= i <= |incoming|
      invariant Run(Start, incoming, maxSize) == Run(Reading(request, want, header, hend, eom, headers), incoming[i..], maxSize)
      decreases |incoming| - i
    {
      if i == |incoming| || incoming[i] == [] {
        break;
      }
      ghost var before := Reading(request, want, header, hend, eom, headers);
      var data := incoming[i];
      RunTurn(before, incoming[i..], maxSize);
      assert incoming[i..][1..] == incoming[i + 1..];
      i := i + 1;
      want := want - |data|;
      request := request + data;
      if |request| > maxSize {
        return Err(ValueError);
      }
      if header.None? {
        var found := LookForHead(Reading(request, want, header, hend, eom, headers));
        if found.Err? {
          return Err(found.error);
        }
        want, header, hend, eom, headers := found.value.want, found.value.header, found.value.hend, found.value.eom, found.value.headers;
        assert found.value == Reading(request, want, header, hend, eom, headers);
      }
      assert Scan(before, data, maxSize) == Ok(Reading(request, want, header, hend, eom, headers));
    }
    RunStop(Reading(request, want, header, hend, eom, headers), incoming[i..], maxSize);
    return Ok(Reading(request, want, header, hend, eom, headers));
  }

  /** `_http11`: the read loop, then ValueError unless a non-empty head was found. */
  method ReadHead(incoming: seq<seq<byte>>, maxSize: nat) returns (r: Result<Head, ExcKind>)
    ensures r == Finish(Run(Start, incoming, maxSize))
  {
    var end := ReadLoop(incoming, maxSize);
    if end.Err? {
      return Err(end.error);
    }
    var st := end.value;
    if st.header.None? || st.header.value == "" {
      return Err(ValueError);
    }
    return Ok(Head(st.header.value, st.headers, SliceFrom(st.request, st.hend + 2)));
  }
}
