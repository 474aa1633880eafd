/**
 * The frame format of streamed replies: every item the server produces is written as
 * `<hex length>\r\n<data>\r\n` (a subset of the chunked transfer coding of section 7.1 of
 * RFC 9112 with no extensions, no trailers and no last-chunk), and the client takes
 * frames off the front of a buffer that grows with each read of the connection.
 */
module Chunked {
  import opened Wrappers
  import opened PyText
  import opened Values

  /** The bytes the streaming writer emits for one item. */
  function Frame(d: seq<byte>): (f: seq<byte>)
    ensures |f| == |Hex(|d|)| + 2 + |d| + 2
  {
    Latin1(Hex(|d|)) + CRLF + d + CRLF
  }

  /** The frames of several items, one after the other. */
  function Frames(ds: seq<seq<byte>>): seq<byte>
  {
    if ds == [] then [] else Frame(ds[0]) + Frames(ds[1..])
  }

  /**
   * `_http11_chunk`: split the buffer at its first CRLF, read the part before it as a
   * hexadecimal `int`, and when at least that many bytes follow, return them and what
   * remains after skipping two more bytes. When `waitForTrailer` holds, the frame is only
   * taken once its closing CRLF has arrived too (the corrected test, see Findings).
   */
  function TakeChunk(buffer: seq<byte>, waitForTrailer: bool): (r: (Option<seq<byte>>, seq<byte>))
    ensures r.0.None? ==> r.1 == buffer
    ensures r.0.Some? ==> |r.1| < |buffer| && IsSuffix(r.1, buffer)
    ensures !Contains(buffer, CRLF) ==> r == (None, buffer)
  {
    match SplitOnce(buffer, CRLF)
    case None => (None, buffer)
    case Some((ln, data)) =>
      match ParseInt(Latin1Text(ln), 16, false)
      case None => (None, buffer)
      case Some(n) =>
        if |data| >= (if waitForTrailer then n + 2 else n) then
          var rest := SliceFrom(data, n + 2);
          SuffixAfter(ln + CRLF, data, rest);
          (Some(SliceTo(data, n)), rest)
        else (None, buffer)
  }

  lemma SuffixAfter(p: seq<byte>, data: seq<byte>, rest: seq<byte>)
    requires IsSuffix(rest, data)
    ensures IsSuffix(rest, p + data)
  {
    assert (p + data)[|p + data| - |rest|..] == data[|data| - |rest|..];
  }

  lemma Latin1TextOfAscii(s: string)
    requires forall i :: 0 <= i < |s| ==> s[i] as int < 256
    ensures Latin1Text(Latin1(s)) == s
  {
  }

  /** After a line with no carriage return, the first CRLF is the one that ends the line. */
  lemma FirstCrlfAfterLine(h: seq<byte>, x: seq<byte>)
    requires forall i :: 0 <= i < |h| ==> h[i] != CR
    ensures IndexOf(h + CRLF + x, CRLF) == Some(|h|)
  {
    var b := h + CRLF + x;
    assert b[|h|..|h| + 2] == CRLF;
    forall j | 0 <= j < |h|
      ensures !MatchAt(b, CRLF, j)
    {
      assert b[j] == h[j];
    }
    IndexOfAt(b, CRLF, |h|);
  }

  /** A hexadecimal length line contains no carriage return, so the first CRLF follows it. */
  lemma FirstCrlfAfterLength(d: seq<byte>, t: seq<byte>)
    ensures IndexOf(Frame(d) + t, CRLF) == Some(|Hex(|d|)|)
  {
    var h := Latin1(Hex(|d|));
    HexLineHasNoCr(|d|);
    assert Frame(d) + t == h + CRLF + (d + CRLF + t);
    FirstCrlfAfterLine(h, d + CRLF + t);
  }

  lemma HexLineHasNoCr(n: nat)
    ensures forall i :: 0 <= i < |Latin1(Hex(n))| ==> Latin1(Hex(n))[i] != CR
  {
    var h := Hex(n);
    forall i | 0 <= i < |h|
      ensures Latin1(h)[i] != CR
    {
      assert '0' <= h[i] <= '9' || 'a' <= h[i] <= 'f';
    }
  }

  /** The length line of a frame reads back as the item's length. */
  lemma LengthLine(d: seq<byte>)
    ensures ParseInt(Latin1Text(Latin1(Hex(|d|))), 16, false) == Some(|d|)
  {
    Latin1TextOfAscii(Hex(|d|));
    HexRoundTrip(|d|, false);
  }

  /** Taking a frame off the front of a buffer gives back the framed item and exactly the rest. */
  lemma TakeFrame(d: seq<byte>, rest: seq<byte>, waitForTrailer: bool)
    ensures TakeChunk(Frame(d) + rest, waitForTrailer) == (Some(d), rest)
  {
    var h := Latin1(Hex(|d|));
    var b := Frame(d) + rest;
    FirstCrlfAfterLength(d, rest);
    var data := d + CRLF + rest;
    assert b == h + CRLF + data;
    assert SplitOnce(b, CRLF) == Some((h, data));
    LengthLine(d);
    assert SliceTo(data, |d|) == d;
    assert SliceFrom(data, |d| + 2) == rest;
  }

  /** Occurrences inside a prefix are occurrences in the whole. */
  lemma PrefixMatch(b: seq<byte>, f: seq<byte>, pat: seq<byte>, j: int)
    requires |b| <= |f| && b == f[..|b|]
    requires 0 <= j && j + |pat| <= |b|
    ensures MatchAt(b, pat, j) <==> MatchAt(f, pat, j)
  {
    assert b[j..j + |pat|] == f[j..j + |pat|];
  }

  /** In a prefix of a frame that contains a CRLF, the first one still follows the length line. */
  lemma FirstCrlfOfPartial(d: seq<byte>, b: seq<byte>)
    requires |b| <= |Frame(d)| && b == Frame(d)[..|b|]
    requires Contains(b, CRLF)
    ensures IndexOf(b, CRLF) == Some(|Hex(|d|)|)
  {
    var f := Frame(d);
    var k := |Hex(|d|)|;
    FirstCrlfAfterLength(d, []);
    assert f + [] == f;
    IndexOfFirst(f, CRLF);
    var j := IndexOf(b, CRLF).value;
    PrefixMatch(b, f, CRLF, j);
    assert k <= j;
    PrefixMatch(b, f, CRLF, k);
    forall i | 0 <= i < k
      ensures !MatchAt(b, CRLF, i)
    {
      PrefixMatch(b, f, CRLF, i);
    }
    IndexOfAt(b, CRLF, k);
  }

  /**
   * With the corrected test, a buffer that holds only part of the next frame yields
   * nothing and is left as it is.
   */
  lemma TakePartialFrame(d: seq<byte>, b: seq<byte>)
    requires |b| < |Frame(d)| && b == Frame(d)[..|b|]
    ensures TakeChunk(b, true) == (None, b)
  {
    if Contains(b, CRLF) {
      var h := Latin1(Hex(|d|));
      PartialSplit(d, b);
      LengthLine(d);
      assert |b[|h| + 2..]| < |d| + 2;
    }
  }

  lemma PartialSplit(d: seq<byte>, b: seq<byte>)
    requires |b| < |Frame(d)| && b == Frame(d)[..|b|]
    requires Contains(b, CRLF)
    ensures |Latin1(Hex(|d|))| + 2 <= |b|
    ensures SplitOnce(b, CRLF) == Some((Latin1(Hex(|d|)), b[|Latin1(Hex(|d|))| + 2..]))
  {
    var h := Latin1(Hex(|d|));
    FirstCrlfOfPartial(d, b);
    SplitOnceAt(b, CRLF, |h|);
    assert Frame(d)[..|h|] == h;
    assert b[..|h|] == Frame(d)[..|h|];
  }

  // ---------------------------------------------------------------- the decoder loop

  /** How the client turns each chunk into a value, chosen from the reply's Content-Type. */
  datatype Codec = Msgpack | Json | Identity

  /** One value the decoder yields: what `codec` makes of the chunk `data`. */
  datatype Item = Item(codec: Codec, data: seq<byte>)

  /** The decoder choice in `_chunk_decoder`: a reply without Content-Type raises KeyError. */
  function CodecFor(hdrs: map<string, string>): (r: Result<Codec, ExcKind>)
    ensures r.Err? <==> "Content-Type" !in hdrs
    ensures r.Ok? ==> (r.value == Msgpack <==> hdrs["Content-Type"] == "application/x-msgpack")
    ensures r.Ok? ==> (r.value == Json <==> hdrs["Content-Type"] == "application/json")
  {
    if "Content-Type" !in hdrs then Err(KeyError)
    else if hdrs["Content-Type"] == "application/x-msgpack" then Ok(Msgpack)
    else if hdrs["Content-Type"] == "application/json" then Ok(Json)
    else Ok(Identity)
  }

  /** What the generator has produced once it stops, and the bytes it drops. */
  datatype Drained = Drained(chunks: seq<seq<byte>>, leftover: seq<byte>)

  /** A step that takes one frame off the front of a buffer, as `_http11_chunk` does. */
  type Taker = seq<byte> -> (Option<seq<byte>>, seq<byte>)

  /** A step that leaves the buffer alone when it takes nothing and shortens it when it takes a frame. */
  ghost predicate Consumes(take: Taker)
  {
    forall b :: (take(b).0.None? ==> take(b).1 == b) && (take(b).0.Some? ==> |take(b).1| < |b|)
  }

  /** `_http11_chunk` as the decoder calls it, with the written (`false`) or corrected (`true`) test. */
  function Taking(waitForTrailer: bool): (take: Taker)
    ensures Consumes(take)
    ensures forall b :: take(b) == TakeChunk(b, waitForTrailer)
  {
    b => TakeChunk(b, waitForTrailer)
  }

  /**
   * The generator loop of `_chunk_decoder`, with the connection given as the sequence
   * `incoming` of what its reads return: take a frame if one is complete, otherwise read
   * more (an empty read, or the end of `incoming`, closes the reader), and stop once the
   * reader is closed and no frame can be taken.
   */
  function Drain(buffer: seq<byte>, incoming: seq<seq<byte>>, reading: bool, take: Taker): (r: Drained)
    requires Consumes(take)
    decreases |incoming| + (if reading then 1 else 0), |buffer|
  {
    var (chunk, rest) := take(buffer);
    if chunk.Some? then
      var d := Drain(rest, incoming, reading, take);
      Drained([chunk.value] + d.chunks, d.leftover)
    else if !reading then Drained([], buffer)
    else if incoming == [] || incoming[0] == [] then
      Drain(buffer, if incoming == [] then [] else incoming[1..], false, take)
    else Drain(buffer + incoming[0], incoming[1..], reading, take)
  }

  /**
   * The decoder stops only when the reader is closed and no complete frame is buffered, and
   * what it drops is a suffix of the bytes it was given.
   */
  lemma {:induction false} DrainStopsWhenNothingLeft(buffer: seq<byte>, incoming: seq<seq<byte>>, reading: bool, take: Taker)
    requires Consumes(take)
    ensures take(Drain(buffer, incoming, reading, take).leftover).0.None?
    decreases |incoming| + (if reading then 1 else 0), |buffer|
  {
    var (chunk, rest) := take(buffer);
    if chunk.Some? {
      DrainStopsWhenNothingLeft(rest, incoming, reading, take);
    } else if !reading {
    } else if incoming == [] || incoming[0] == [] {
      DrainStopsWhenNothingLeft(buffer, if incoming == [] then [] else incoming[1..], false, take);
    } else {
      DrainStopsWhenNothingLeft(buffer + incoming[0], incoming[1..], reading, take);
    }
  }

  // The ways one turn of the decoder loop can go.

  lemma DrainTakes(b: seq<byte>, incoming: seq<seq<byte>>, reading: bool, take: Taker, c: seq<byte>, rest: seq<byte>)
    requires Consumes(take) && take(b) == (Some(c), rest)
    ensures Drain(b, incoming, reading, take)
      == Drained([c] + Drain(rest, incoming, reading, take).chunks, Drain(rest, incoming, reading, take).leftover)
  {
  }

  lemma DrainReads(b: seq<byte>, incoming: seq<seq<byte>>, take: Taker)
    requires Consumes(take) && take(b).0.None? && incoming != [] && incoming[0] != []
    ensures Drain(b, incoming, true, take) == Drain(b + incoming[0], incoming[1..], true, take)
  {
  }

  lemma DrainCloses(b: seq<byte>, incoming: seq<seq<byte>>, take: Taker)
    requires Consumes(take) && take(b).0.None? && (incoming == [] || incoming[0] == [])
    ensures Drain(b, incoming, true, take) == Drain(b, if incoming == [] then [] else incoming[1..], false, take)
  {
  }

  lemma DrainStops(b: seq<byte>, incoming: seq<seq<byte>>, take: Taker)
    requires Consumes(take) && take(b).0.None?
    ensures Drain(b, incoming, false, take) == Drained([], b)
  {
  }

  lemma DrainEnds(b: seq<byte>, incoming: seq<seq<byte>>, take: Taker)
    requires Consumes(take) && take(b).0.None? && (incoming == [] || incoming[0] == [])
    ensures Drain(b, incoming, true, take) == Drained([], b)
  {
    DrainCloses(b, incoming, take);
    DrainStops(b, if incoming == [] then [] else incoming[1..], take);
  }

  lemma NoFrameInEmpty(w: bool)
    ensures TakeChunk([], w) == (None, [])
  {
    assert !Contains([], CRLF);
  }

  lemma FramesFront(ds: seq<seq<byte>>)
    requires ds != []
    ensures Frames(ds) == Frame(ds[0]) + Frames(ds[1..])
  {
  }

  /** The step gives back the framed item and exactly the rest whenever a whole frame is buffered. */
  ghost predicate TakesWholeFrames(take: Taker)
  {
    forall d, b :: StartsWith(b, Frame(d)) ==> take(b) == (Some(d), b[|Frame(d)|..])
  }

  /** The step takes nothing while only part of the next frame is buffered. */
  ghost predicate WaitsOnPartialFrames(take: Taker)
  {
    forall d, b :: |b| < |Frame(d)| && b == Frame(d)[..|b|] ==> take(b).0.None?
  }

  lemma TakingWholeFrames(w: bool)
    ensures TakesWholeFrames(Taking(w))
  {
    forall d, b | StartsWith(b, Frame(d))
      ensures Taking(w)(b) == (Some(d), b[|Frame(d)|..])
    {
      assert b == Frame(d) + b[|Frame(d)|..];
      TakeFrame(d, b[|Frame(d)|..], w);
    }
  }

  lemma CorrectedWaits()
    ensures WaitsOnPartialFrames(Taking(true))
  {
    forall d, b | |b| < |Frame(d)| && b == Frame(d)[..|b|]
      ensures Taking(true)(b).0.None?
    {
      TakePartialFrame(d, b);
    }
  }

  /** A whole stream already in the buffer is taken apart into exactly the written items. */
  lemma {:induction false} DrainWholeFrames(ds: seq<seq<byte>>, take: Taker)
    requires Consumes(take) && TakesWholeFrames(take) && take([]).0.None?
    ensures Drain(Frames(ds), [], true, take) == Drained(ds, [])
    decreases |ds|
  {
    if ds == [] {
      DrainEnds([], [], take);
    } else {
      DrainWholeFrames(ds[1..], take);
      FramesFront(ds);
      assert take(Frames(ds)) == (Some(ds[0]), Frames(ds[1..]));
      DrainTakes(Frames(ds), [], true, take, ds[0], Frames(ds[1..]));
      assert [ds[0]] + ds[1..] == ds;
    }
  }

  /** With the written test too, a stream that arrives in one piece yields every item. */
  lemma AsWrittenWholeStream(ds: seq<seq<byte>>)
    ensures Drain([], [Frames(ds)], true, Taking(false)).chunks == ds
  {
    var take := Taking(false);
    NoFrameInEmpty(false);
    TakingWholeFrames(false);
    DrainWholeFrames(ds, take);
    if Frames(ds) != [] {
      DrainReads([], [Frames(ds)], take);
      assert [] + Frames(ds) == Frames(ds);
      assert [Frames(ds)][1..] == [];
    } else {
      DrainEnds([], [Frames(ds)], take);
    }
  }

  /** `buffer` followed by the reads still to come is the stream of frames of `ds`. */
  predicate Pending(buffer: seq<byte>, incoming: seq<seq<byte>>, ds: seq<seq<byte>>)
  {
    (forall i :: 0 <= i < |incoming| ==> incoming[i] != []) && buffer + Concat(incoming) == Frames(ds)
  }

  /**
   * A step that takes whole frames and waits on partial ones yields exactly the written
   * items, in order and with nothing left over, however the stream is split into reads.
   */
  lemma {:induction false} DrainAnySplit(buffer: seq<byte>, incoming: seq<seq<byte>>, ds: seq<seq<byte>>, take: Taker)
    requires Consumes(take) && TakesWholeFrames(take) && WaitsOnPartialFrames(take)
    requires Pending(buffer, incoming, ds)
    ensures Drain(buffer, incoming, true, take) == Drained(ds, [])
    decreases |incoming|, |buffer|, 1
  {
    if ds == [] {
      PendingNothing(buffer, incoming, take);
      DrainEnds([], [], take);
    } else if |buffer| >= |Frame(ds[0])| {
      AnySplitWholeFrame(buffer, incoming, ds, take);
    } else {
      AnySplitPartialFrame(buffer, incoming, ds, take);
    }
  }

  lemma PendingNothing(buffer: seq<byte>, incoming: seq<seq<byte>>, take: Taker)
    requires WaitsOnPartialFrames(take) && Pending(buffer, incoming, [])
    ensures buffer == [] && incoming == [] && take([]).0.None?
  {
    if incoming != [] {
      ConcatFront(incoming);
    }
    var d: seq<byte> := [];
    assert |buffer| < |Frame(d)| && buffer == Frame(d)[..|buffer|];
  }

  lemma {:induction false} AnySplitWholeFrame(buffer: seq<byte>, incoming: seq<seq<byte>>, ds: seq<seq<byte>>, take: Taker)
    requires Consumes(take) && TakesWholeFrames(take) && WaitsOnPartialFrames(take)
    requires Pending(buffer, incoming, ds) && ds != [] && |buffer| >= |Frame(ds[0])|
    ensures Drain(buffer, incoming, true, take) == Drained(ds, [])
    decreases |incoming|, |buffer|, 0
  {
    var rest := buffer[|Frame(ds[0])|..];
    WholeFrameStep(buffer, incoming, ds, take);
    DrainTakes(buffer, incoming, true, take, ds[0], rest);
    DrainAnySplit(rest, incoming, ds[1..], take);
    assert [ds[0]] + ds[1..] == ds;
  }

  lemma WholeFrameStep(buffer: seq<byte>, incoming: seq<seq<byte>>, ds: seq<seq<byte>>, take: Taker)
    requires TakesWholeFrames(take)
    requires Pending(buffer, incoming, ds) && ds != [] && |buffer| >= |Frame(ds[0])|
    ensures take(buffer) == (Some(ds[0]), buffer[|Frame(ds[0])|..])
    ensures Pending(buffer[|Frame(ds[0])|..], incoming, ds[1..])
  {
    var f := Frame(ds[0]);
    FramesFront(ds);
    CommonPrefix(buffer, Concat(incoming), f, Frames(ds[1..]));
    assert StartsWith(buffer, f);
  }

  /** When `a + b == f + g` and `a` is at least as long as `f`, `a` starts with `f` and the rest lines up. */
  lemma CommonPrefix<T>(a: seq<T>, b: seq<T>, f: seq<T>, g: seq<T>)
    requires a + b == f + g && |a| >= |f|
    ensures a[..|f|] == f && a[|f|..] + b == g
  {
    assert a[..|f|] == (a + b)[..|f|];
    assert a[|f|..] + b == (a + b)[|f|..];
  }

  lemma {:induction false} AnySplitPartialFrame(buffer: seq<byte>, incoming: seq<seq<byte>>, ds: seq<seq<byte>>, take: Taker)
    requires Consumes(take) && TakesWholeFrames(take) && WaitsOnPartialFrames(take)
    requires Pending(buffer, incoming, ds) && ds != [] && |buffer| < |Frame(ds[0])|
    ensures Drain(buffer, incoming, true, take) == Drained(ds, [])
    decreases |incoming|, |buffer|, 0
  {
    PartialFrameStep(buffer, incoming, ds, take);
    DrainReads(buffer, incoming, take);
    DrainAnySplit(buffer + incoming[0], incoming[1..], ds, take);
  }

  lemma PartialFrameStep(buffer: seq<byte>, incoming: seq<seq<byte>>, ds: seq<seq<byte>>, take: Taker)
    requires WaitsOnPartialFrames(take)
    requires Pending(buffer, incoming, ds) && ds != [] && |buffer| < |Frame(ds[0])|
    ensures take(buffer).0.None? && incoming != [] && incoming[0] != []
    ensures Pending(buffer + incoming[0], incoming[1..], ds)
  {
    var f := Frame(ds[0]);
    PrefixOfFirstFrame(buffer, Concat(incoming), ds);
    assert buffer == f[..|buffer|];
    PendingRead(buffer, incoming, ds);
  }

  lemma PrefixOfFirstFrame(buffer: seq<byte>, later: seq<byte>, ds: seq<seq<byte>>)
    requires ds != [] && |buffer| <= |Frame(ds[0])| && buffer + later == Frames(ds)
    ensures buffer == Frame(ds[0])[..|buffer|]
    ensures |buffer| + |later| >= |Frame(ds[0])|
  {
    FramesFront(ds);
    assert buffer == (buffer + later)[..|buffer|];
  }

  lemma PendingRead(buffer: seq<byte>, incoming: seq<seq<byte>>, ds: seq<seq<byte>>)
    requires Pending(buffer, incoming, ds) && incoming != []
    ensures incoming[0] != [] && Pending(buffer + incoming[0], incoming[1..], ds)
  {
    ConcatFront(incoming);
    assert buffer + Concat(incoming) == (buffer + incoming[0]) + Concat(incoming[1..]);
    forall i | 0 <= i < |incoming[1..]|
      ensures incoming[1..][i] != []
    {
      assert incoming[1..][i] == incoming[i + 1];
    }
  }

  /** With the corrected test, any split of the written stream into reads yields every item. */
  lemma CorrectedAnySplit(incoming: seq<seq<byte>>, ds: seq<seq<byte>>)
    requires forall i :: 0 <= i < |incoming| ==> incoming[i] != []
    requires Concat(incoming) == Frames(ds)
    ensures Drain([], incoming, true, Taking(true)) == Drained(ds, [])
  {
    TakingWholeFrames(true);
    CorrectedWaits();
    assert [] + Concat(incoming) == Concat(incoming);
    DrainAnySplit([], incoming, ds, Taking(true));
  }

  // A stream that ends in the middle of a frame.

  /** `buffer` followed by the reads still to come is the frames of `ds`, then `p`, a proper prefix of one more frame. */
  predicate Truncated(buffer: seq<byte>, incoming: seq<seq<byte>>, ds: seq<seq<byte>>, d: seq<byte>, p: seq<byte>)
  {
    (forall i :: 0 <= i < |incoming| ==> incoming[i] != []) &&
    |p| < |Frame(d)| && p == Frame(d)[..|p|] &&
    buffer + Concat(incoming) == Frames(ds) + p
  }

  /**
   * When the connection closes part-way through a frame, the decoder yields the items of the
   * whole frames, in order, raises nothing, and silently drops the partial frame.
   */
  lemma {:induction false} DrainTruncated(buffer: seq<byte>, incoming: seq<seq<byte>>, ds: seq<seq<byte>>,
                                          d: seq<byte>, p: seq<byte>, take: Taker)
    requires Consumes(take) && TakesWholeFrames(take) && WaitsOnPartialFrames(take)
    requires Truncated(buffer, incoming, ds, d, p)
    ensures Drain(buffer, incoming, true, take) == Drained(ds, p)
    decreases |incoming|, |buffer|
  {
    if ds != [] && |buffer| >= |Frame(ds[0])| {
      var rest := buffer[|Frame(ds[0])|..];
      TruncatedWholeStep(buffer, incoming, ds, d, p);
      TakesWhole(take, ds[0], buffer);
      DrainTakes(buffer, incoming, true, take, ds[0], rest);
      DrainTruncated(rest, incoming, ds[1..], d, p, take);
      assert [ds[0]] + ds[1..] == ds;
    } else {
      TruncatedPartialStep(buffer, incoming, ds, d, p);
      WaitsOn(take, if ds == [] then d else ds[0], buffer);
      if incoming == [] {
        DrainEnds(buffer, incoming, take);
      } else {
        TruncatedRead(buffer, incoming, ds, d, p);
        DrainReads(buffer, incoming, take);
        DrainTruncated(buffer + incoming[0], incoming[1..], ds, d, p, take);
      }
    }
  }

  /** With a whole next frame buffered, the buffer starts with it, and what follows it is again truncated. */
  lemma TruncatedWholeStep(buffer: seq<byte>, incoming: seq<seq<byte>>, ds: seq<seq<byte>>,
                           d: seq<byte>, p: seq<byte>)
    requires Truncated(buffer, incoming, ds, d, p) && ds != [] && |buffer| >= |Frame(ds[0])|
    ensures StartsWith(buffer, Frame(ds[0]))
    ensures Truncated(buffer[|Frame(ds[0])|..], incoming, ds[1..], d, p)
  {
    var f := Frame(ds[0]);
    FramesFront(ds);
    assert Frames(ds) + p == f + (Frames(ds[1..]) + p);
    CommonPrefix(buffer, Concat(incoming), f, Frames(ds[1..]) + p);
    assert StartsWith(buffer, f);
  }

  /** Short of a whole next frame, the buffer is a proper prefix of that frame, or of the partial one. */
  lemma TruncatedPartialStep(buffer: seq<byte>, incoming: seq<seq<byte>>, ds: seq<seq<byte>>,
                             d: seq<byte>, p: seq<byte>)
    requires Truncated(buffer, incoming, ds, d, p) && (ds == [] || |buffer| < |Frame(ds[0])|)
    ensures var e := if ds == [] then d else ds[0]; |buffer| < |Frame(e)| && buffer == Frame(e)[..|buffer|]
    ensures incoming == [] ==> ds == [] && buffer == p
  {
    if ds == [] {
      TruncatedLast(buffer, incoming, d, p);
    } else {
      FramesFront(ds);
      FrontOf(buffer, Concat(incoming), Frame(ds[0]), Frames(ds[1..]) + p);
    }
  }

  /** Once only the partial frame is left, the buffer is a prefix of it. */
  lemma TruncatedLast(buffer: seq<byte>, incoming: seq<seq<byte>>, d: seq<byte>, p: seq<byte>)
    requires Truncated(buffer, incoming, [], d, p)
    ensures |buffer| < |Frame(d)| && buffer == Frame(d)[..|buffer|]
    ensures incoming == [] ==> buffer == p
  {
    assert p + [] == p;
    FrontOf(buffer, Concat(incoming), p, []);
  }

  lemma TakesWhole(take: Taker, d: seq<byte>, b: seq<byte>)
    requires TakesWholeFrames(take) && StartsWith(b, Frame(d))
    ensures take(b) == (Some(d), b[|Frame(d)|..])
  {
  }

  lemma WaitsOn(take: Taker, d: seq<byte>, b: seq<byte>)
    requires WaitsOnPartialFrames(take)
    requires |b| < |Frame(d)| && b == Frame(d)[..|b|]
    ensures take(b).0.None?
  {
  }

  /** When `a + b == f + g` and `a` is no longer than `f`, `a` is a prefix of `f`. */
  lemma FrontOf<T>(a: seq<T>, b: seq<T>, f: seq<T>, g: seq<T>)
    requires a + b == f + g && |a| <= |f|
    ensures a == f[..|a|]
  {
    assert a == (a + b)[..|a|];
  }

  lemma TruncatedRead(buffer: seq<byte>, incoming: seq<seq<byte>>, ds: seq<seq<byte>>, d: seq<byte>, p: seq<byte>)
    requires Truncated(buffer, incoming, ds, d, p) && incoming != []
    ensures Truncated(buffer + incoming[0], incoming[1..], ds, d, p)
  {
    ConcatFront(incoming);
    assert buffer + Concat(incoming) == (buffer + incoming[0]) + Concat(incoming[1..]);
    forall i | 0 <= i < |incoming[1..]|
      ensures incoming[1..][i] != []
    {
      assert incoming[1..][i] == incoming[i + 1];
    }
  }

  /**
   * With the corrected test, a stream cut off inside a frame decodes to exactly the items of
   * its whole frames; the bytes of the partial frame are what is dropped.
   */
  lemma CorrectedTruncated(incoming: seq<seq<byte>>, ds: seq<seq<byte>>, d: seq<byte>, p: seq<byte>)
    requires forall i :: 0 <= i < |incoming| ==> incoming[i] != []
    requires |p| < |Frame(d)| && p == Frame(d)[..|p|]
    requires Concat(incoming) == Frames(ds) + p
    ensures Drain([], incoming, true, Taking(true)) == Drained(ds, p)
  {
    TakingWholeFrames(true);
    CorrectedWaits();
    assert [] + Concat(incoming) == Concat(incoming);
    DrainTruncated([], incoming, ds, d, p, Taking(true));
  }

  /** The two reads that show the written test losing items (see Findings). */
  const SplitAfterData: seq<seq<byte>> := [
    [53, 13, 10, 104, 101, 108, 108, 111],                // "5\r\nhello"
    [13, 10, 53, 13, 10, 119, 111, 114, 108, 100, 13, 10] // "\r\n5\r\nworld\r\n"
  ]

  const Hello: seq<byte> := [104, 101, 108, 108, 111]
  const World: seq<byte> := [119, 111, 114, 108, 100]

  /** The two reads together are exactly what the writer sends for "hello" then "world". */
  lemma SplitAfterDataIsTwoFrames()
    ensures Concat(SplitAfterData) == Frames([Hello, World])
  {
    FramesOfTwo(Hello, World);
    FrameOfFive(Hello);
    FrameOfFive(World);
    var r0 := SplitAfterData[0];
    var r1 := SplitAfterData[1];
    assert Frame(Hello) + Frame(World) == r0 + r1;
    assert SplitAfterData[..1] == [r0];
    assert Concat([r0]) == Concat([]) + r0;
  }

  lemma FramesOfTwo(a: seq<byte>, b: seq<byte>)
    ensures Frames([a, b]) == Frame(a) + Frame(b)
  {
    FramesFront([a, b]);
    FramesFront([b]);
    assert [a, b][1..] == [b];
    assert [b][1..] == [];
  }

  lemma FrameOfFive(d: seq<byte>)
    requires |d| == 5
    ensures Frame(d) == [53, 13, 10] + d + [13, 10]
  {
    assert Hex(5) == "5";
  }

  /** As written, the first read yields "hello" and skips two bytes it has not seen yet. */
  lemma TakeFirstRead()
    ensures TakeChunk(SplitAfterData[0], false) == (Some(Hello), [])
  {
    var r0 := SplitAfterData[0];
    assert r0[0..2][0] == 53;
    assert MatchAt(r0, CRLF, 1) && !MatchAt(r0, CRLF, 0);
    IndexOfAt(r0, CRLF, 1);
    assert r0 == [53] + CRLF + Hello;
    assert SplitOnce(r0, CRLF) == Some(([53], Hello));
    assert Latin1Text([53]) == "5" == Hex(5);
    HexRoundTrip(5, false);
    assert ParseInt(Latin1Text([53]), 16, false) == Some(5);
    assert SliceTo(Hello, 5) == Hello;
    assert SliceFrom(Hello, 7) == [];
  }

  /** The next read then starts with the CRLF, whose empty length line never parses. */
  lemma TakeSecondRead()
    ensures TakeChunk(SplitAfterData[1], false) == (None, SplitAfterData[1])
  {
    var r1 := SplitAfterData[1];
    assert MatchAt(r1, CRLF, 0);
    IndexOfAt(r1, CRLF, 0);
    assert r1 == [] + CRLF + r1[2..];
    assert SplitOnce(r1, CRLF) == Some(([], r1[2..]));
    assert Latin1Text([]) == "";
    assert Strip("", false) == "";
  }

  /**
   * As written, a read that ends right after a frame's data makes the decoder skip the two
   * bytes it has not seen yet; the trailing CRLF then heads the buffer, its empty length line
   * never parses, and every later item is dropped.
   */
  lemma AsWrittenDropsItems()
    ensures Concat(SplitAfterData) == Frames([Hello, World])
    ensures Drain([], SplitAfterData, true, Taking(false)) == Drained([Hello], SplitAfterData[1])
  {
    SplitAfterDataIsTwoFrames();
    AsWrittenFirstRead();
    AsWrittenSecondRead();
  }

  lemma AsWrittenFirstRead()
    ensures Drain([], SplitAfterData, true, Taking(false))
      == Drained([Hello] + Drain([], [SplitAfterData[1]], true, Taking(false)).chunks,
                 Drain([], [SplitAfterData[1]], true, Taking(false)).leftover)
  {
    var take := Taking(false);
    var r0 := SplitAfterData[0];
    NoFrameInEmpty(false);
    DrainReads([], SplitAfterData, take);
    assert [] + r0 == r0;
    assert SplitAfterData[1..] == [SplitAfterData[1]];
    TakeFirstRead();
    DrainTakes(r0, [SplitAfterData[1]], true, take, Hello, []);
  }

  lemma AsWrittenSecondRead()
    ensures Drain([], [SplitAfterData[1]], true, Taking(false)) == Drained([], SplitAfterData[1])
  {
    var take := Taking(false);
    var r1 := SplitAfterData[1];
    NoFrameInEmpty(false);
    DrainReads([], [r1], take);
    assert [] + r1 == r1;
    TakeSecondRead();
    DrainEnds(r1, [r1][1..], take);
  }

  /** With the corrected test the same two reads yield both items. */
  lemma CorrectedKeepsItems()
    ensures Drain([], SplitAfterData, true, Taking(true)) == Drained([Hello, World], [])
  {
    SplitAfterDataIsTwoFrames();
    CorrectedAnySplit(SplitAfterData, [Hello, World]);
  }

  function Items(codec: Codec, chunks: seq<seq<byte>>): (r: seq<Item>)
    ensures |r| == |chunks| && forall i :: 0 <= i < |r| ==> r[i] == Item(codec, chunks[i])
  {
    seq(|chunks|, i requires 0 <= i < |chunks| => Item(codec, chunks[i]))
  }

  lemma ItemsAppend(codec: Codec, a: seq<seq<byte>>, b: seq<seq<byte>>)
    ensures Items(codec, a + b) == Items(codec, a) + Items(codec, b)
  {
  }

  /** Yielding a taken frame keeps the decoder's account of what it will yield in total. */
  lemma ItemsTaken(codec: Codec, all: seq<seq<byte>>, out: seq<Item>, b: seq<byte>, incoming: seq<seq<byte>>,
                   reading: bool, take: Taker, c: seq<byte>, rest: seq<byte>)
    requires Consumes(take) && take(b) == (Some(c), rest)
    requires Items(codec, all) == out + Items(codec, Drain(b, incoming, reading, take).chunks)
    ensures Items(codec, all) == (out + [Item(codec, c)]) + Items(codec, Drain(rest, incoming, reading, take).chunks)
  {
    DrainTakes(b, incoming, reading, take, c, rest);
    var later := Drain(rest, incoming, reading, take).chunks;
    ItemsAppend(codec, [c], later);
    assert Items(codec, [c]) == [Item(codec, c)];
  }

  /**
   * `_chunk_decoder` and the generator it returns, run to the end: pick the codec from the
   * reply headers, then alternate between taking frames off `buffer` and appending reads.
   */
  method ChunkDecoder(hdrs: map<string, string>, buffer0: seq<byte>, incoming: seq<seq<byte>>, waitForTrailer: bool)
    returns (r: Result<seq<Item>, ExcKind>)
    ensures CodecFor(hdrs).Err? ==> r == Err(KeyError)
    ensures CodecFor(hdrs).Ok? ==>
      r == Ok(Items(CodecFor(hdrs).value, Drain(buffer0, incoming, true, Taking(waitForTrailer)).chunks))
  {
    if CodecFor(hdrs).Err? {
      return Err(KeyError);
    }
    var codec := CodecFor(hdrs).value;
    ghost var take := Taking(waitForTrailer);
    var buffer := buffer0;
    var rest := incoming;
    var reading := true;
    var out: seq<Item> := [];
    ghost var all := Drain(buffer0, incoming, true, take).chunks;
    while true
      invariant Items(codec, all) == out + Items(codec, Drain(buffer, rest, reading, take).chunks)
      decreases |rest| + (if reading then 1 else 0), |buffer|
    {
      var (chunk, remaining) := TakeChunk(buffer, waitForTrailer);
      assert take(buffer) == (chunk, remaining);
      if chunk.None? {
        if reading {
          if rest != [] && rest[0] != [] {
            DrainReads(buffer, rest, take);
            buffer := buffer + rest[0];
            rest := rest[1..];
          } else {
            DrainCloses(buffer, rest, take);
            rest := if rest == [] then [] else rest[1..];
            reading := false;
          }
        } else {
          DrainStops(buffer, rest, take);
          assert Items(codec, []) == [];
          assert Items(codec, all) == out + [];
          break;
        }
      } else {
        ItemsTaken(codec, all, out, buffer, rest, reading, take, chunk.value, remaining);
        out := out + [Item(codec, chunk.value)];
        buffer := remaining;
      }
    }
    assert out == Items(codec, all);
    return Ok(out);
  }
}
