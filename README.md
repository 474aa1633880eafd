# kettlingar, modelled in Dafny

kettlingar is a small framework for writing "kittens": background worker
processes that serve an RPC API over HTTP/1.1, on a TCP or a Unix-domain
socket, and the client side that calls them. This project models the core
of that framework and proves properties of the model. It covers:

- **Chunked transfer framing.** This is the writer side of
  `_wrap_async_generator`, and the client-side `_http11_chunk` /
  `_chunk_decoder` pair that splits a chunked body back into items
  (`chunked.dfy`, `streaming.dfy`). A stream that ends part-way through a
  frame raises nothing: the decoder yields the whole frames and silently
  drops the partial one (`Chunked.CorrectedTruncated`).
- **The HTTP head reader `_http11`** (`httphead.dfy`). It reads until the
  blank line, parses the header lines into a dictionary and honours
  `Content-Length`. It also enforces the request size limit.
- **The server's request path** (`dispatch.dfy`):
  - `_serve_http`: the request line, the URL-path prefix, and the
    secret-based authentication of `_validate_request_header`;
  - `_handle_http_request`: handler lookup across private and public
    names, body decoding plans, and handler errors;
  - the reply bytes, and the mapping from exceptions to 403/404/400/500;
  - on the client side, the way `call` maps a status code and an error
    body to an exception class.
- **Option handling** (`kwargs.dfy`, `config.dfy`):
  - `extract_kwargs`;
  - the configuration file's `_clean_line` and line parsing;
  - `Configuration.configure`, which coerces each setting by the type of
    its default;
  - `_set_defaults`.
- **The word-wrapped command list of `api_help`** (`helptext.dfy`).
- **`WebKitten`** (`web.dfy`): route table merging in `init_webkitten`, the
  longest-prefix route search of `_route`, and the static file handler
  `_web_static` with its MIME type choice and 16 KiB pieces.
- **The metrics store `RPCKittenVarz`** (`metrics.py`; `metrics.dfy`):
  gauges, counters, samples with their two pruning strategies, per-request
  metrics and the `/varz` merge. `counting.dfy` proves what one request
  adds to each of its counters. It first proves this for any step that
  counts, samples and leaves other keys alone, then for the store's own
  update.
- **The formatting helpers of `str_utils.py`** (`strutils.dfy`): base64
  route keys, `str_args` and `str_addr`.

Supporting modules:

- `wrappers.dfy`: `Option` and `Result`.
- `pytext.dfy`: the Python string and bytes operations the code relies on,
  such as `split`, `rsplit`, `strip`, `index`, `int()`, `%x`, UTF-8 and
  Latin-1. Each is stated with its own contract.
- `values.dfy`: Python values and exception classes. Exceptions are
  modelled as `Result` errors carrying an `Exc(kind, message)`.

Things the model cannot compute are passed in as parameters:

- serialisation to JSON or msgpack (a `Serialize` function);
- `float()` and `json.loads` in `configure`;
- adding a count to a float counter in `metrics_count` (a `FloatPlus`
  function);
- the random index drawn when samples are pruned (a `Draw` oracle);
- the date string of `_today`;
- the handler call and its traceback text (a `World` record).

Byte streams arriving from a socket are sequences of reads.

The code writes no terminating zero-length chunk after the last item of a
stream. The connection is closed instead, and the client's decoder stops
when its reader reports end of file. The model follows the code here.

## Model

| member | source | states |
|---|---|---|
| Chunked.Frame | src/kettlingar/rpckitten.py:64-65 | a frame is the hex length line, CRLF, the data and CRLF, so its length is their sum |
| Chunked.TakeChunk | src/kettlingar/rpckitten.py:911-919 | when no chunk is taken the buffer comes back unchanged; a taken chunk leaves a strictly shorter suffix of the buffer; a buffer without CRLF yields nothing |
| Chunked.LengthLine | src/kettlingar/rpckitten.py:914 | parsing the `%x` length line as base 16 gives back the data length |
| Chunked.TakeFrame | src/kettlingar/rpckitten.py:911-919 | round trip: taking a chunk from a written frame followed by anything returns exactly the frame's data and the rest |
| Chunked.TakePartialFrame | src/kettlingar/rpckitten.py:915 | with the corrected guard, any proper prefix of a frame yields no chunk and leaves the buffer as it was |
| Chunked.CodecFor | src/kettlingar/rpckitten.py:922-928 | a missing Content-Type raises KeyError; msgpack and JSON are chosen exactly for their mimetypes, anything else is passed through |
| Chunked.Taking | src/kettlingar/rpckitten.py:935 | the decoder's take step is `_http11_chunk` and always consumes input when it yields |
| Chunked.DrainStopsWhenNothingLeft | src/kettlingar/rpckitten.py:934-946 | when the decoder loop ends, no further chunk can be taken from what is left in the buffer |
| Chunked.DrainTakes | src/kettlingar/rpckitten.py:935-946 | a chunk available in the buffer is yielded before anything else is read |
| Chunked.DrainReads | src/kettlingar/rpckitten.py:937-940 | without a chunk, a non-empty read is appended to the buffer |
| Chunked.DrainEnds | src/kettlingar/rpckitten.py:941-944 | an empty read ends the stream with what is left in the buffer |
| Chunked.DrainWholeFrames | src/kettlingar/rpckitten.py:934-946 | a buffer holding whole frames is decoded into exactly their data, in order, with nothing left over |
| Chunked.AsWrittenWholeStream | src/kettlingar/rpckitten.py:934-946 | the code as written decodes a stream that arrives in one read into exactly its items |
| Chunked.DrainAnySplit | src/kettlingar/rpckitten.py:934-946 | a take step that handles whole frames and waits on partial ones decodes every split of the frames into reads into exactly the items |
| Chunked.TakingWholeFrames | src/kettlingar/rpckitten.py:911-919 | `_http11_chunk`, as written or corrected, takes a whole frame off the front of a buffer |
| Chunked.CorrectedWaits | src/kettlingar/rpckitten.py:915 | the corrected chunk parser waits on every proper prefix of a frame |
| Chunked.CorrectedAnySplit | src/kettlingar/rpckitten.py:921-946 | with the corrected guard the client receives exactly the items written, whatever the read boundaries |
| Chunked.DrainTruncated | src/kettlingar/rpckitten.py:934-946 | when the connection closes part-way through a frame, a take step that handles whole frames and waits on partial ones yields exactly the items of the whole frames, in order, raises nothing, and leaves the partial frame as the dropped leftover |
| Chunked.CorrectedTruncated | src/kettlingar/rpckitten.py:921-946 | with the corrected guard, a stream cut off inside a frame decodes to the items of its whole frames, and the bytes of the partial frame are silently dropped |
| Chunked.SplitAfterDataIsTwoFrames | src/kettlingar/rpckitten.py:964-970 | the two reads of the finding together are the frames of "hello" and "world" |
| Chunked.TakeFirstRead | src/kettlingar/rpckitten.py:913-916 | as written, the first read yields "hello" although its trailing CRLF has not arrived |
| Chunked.TakeSecondRead | src/kettlingar/rpckitten.py:913-919 | as written, the second read starts with the stray CRLF, whose empty length line never parses |
| Chunked.AsWrittenDropsItems | src/kettlingar/rpckitten.py:915 | as written, the two reads decode to "hello" only, and "world" is left undecoded |
| Chunked.AsWrittenFirstRead | src/kettlingar/rpckitten.py:934-946 | the first decoding step of the finding's reads yields "hello" and continues on the second read |
| Chunked.AsWrittenSecondRead | src/kettlingar/rpckitten.py:934-946 | the second read never produces a chunk, and the stream ends with it still buffered |
| Chunked.CorrectedKeepsItems | src/kettlingar/rpckitten.py:915 | with the corrected guard the same reads decode to "hello" and "world" |
| Chunked.ItemsAppend | src/kettlingar/rpckitten.py:946 | decoding chunks item by item distributes over concatenation: the items of two runs of chunks are the items of the first followed by those of the second |
| Chunked.ChunkDecoder | src/kettlingar/rpckitten.py:921-948 | the decoder loop yields exactly the items of the drained chunks, or raises KeyError when Content-Type is missing |
| HttpHead.Locate | src/kettlingar/rpckitten.py:466-469 | the end of the head is a blank line whose terminator (LF LF or CR LF CR LF) matches at the index found |
| HttpHead.LocateFirst | src/kettlingar/rpckitten.py:466-469 | the index found is the first occurrence, and CRLF is used exactly when the byte before the first LF is CR (Python's index -1 wraps to the last byte) |
| HttpHead.HeaderMap | src/kettlingar/rpckitten.py:475 | building the header dictionary fails only with ValueError |
| HttpHead.HeaderMapOk | src/kettlingar/rpckitten.py:475 | the header dictionary can be built if and only if every header line contains ": " |
| HttpHead.HeaderMapKeys | src/kettlingar/rpckitten.py:475 | every key of the dictionary is the field name of some header line |
| HttpHead.HeaderMapValues | src/kettlingar/rpckitten.py:475 | each line's value is kept unless a later line has the same name (the last one wins) |
| HttpHead.ContentLength | src/kettlingar/rpckitten.py:476 | a missing Content-Length counts as 0; a malformed one raises ValueError |
| HttpHead.ContentLengthRoundTrip | src/kettlingar/rpckitten.py:476 | a decimal Content-Length parses back to its number |
| HttpHead.LookForHead | src/kettlingar/rpckitten.py:464-480 | looking for the head never changes the bytes read, and fails only with ValueError |
| HttpHead.Scan | src/kettlingar/rpckitten.py:458-480 | one read appends its data, keeps the request within the size limit or raises ValueError, and once the head is known only lowers the bytes wanted |
| HttpHead.Run | src/kettlingar/rpckitten.py:454-480 | the read loop fails only with ValueError |
| HttpHead.Taken | src/kettlingar/rpckitten.py:454-457 | the loop consumes at most the reads available |
| HttpHead.Finish | src/kettlingar/rpckitten.py:483-487 | the result is a head exactly when the loop ended with a non-empty head, which is returned with its header dictionary |
| HttpHead.FramedRun | src/kettlingar/rpckitten.py:454-480 | the loop keeps the head's position and terminator consistent with the bytes read |
| HttpHead.RunTakes | src/kettlingar/rpckitten.py:454-460 | the request is the concatenation of the reads consumed, and the loop stops only when nothing more is wanted, the reads are exhausted, or a read is empty |
| HttpHead.RunWithin | src/kettlingar/rpckitten.py:461-462 | the request never exceeds `worker_http_request_max_size` |
| HttpHead.HeadBody | src/kettlingar/rpckitten.py:464-487 | for a returned head: the header is the UTF-8 text before the first blank line; with LF LF the body is exactly what follows it; with CR LF CR LF the body keeps a leading CRLF, because the code slices at `hend+2` |
| HttpHead.ContentLengthReached | src/kettlingar/rpckitten.py:476-478 | when the loop stops with reads still pending, the whole Content-Length body has been read |
| HttpHead.NoReadPastLength | src/kettlingar/rpckitten.py:477-478 | once the declared body is complete, no further read is taken |
| HttpHead.TooLarge | src/kettlingar/rpckitten.py:461-462 | a read that pushes the request past the limit raises ValueError |
| HttpHead.NoNewlineNoHead | src/kettlingar/rpckitten.py:466 | without any newline no head is ever found |
| HttpHead.NoNewlineIsError | src/kettlingar/rpckitten.py:484-485 | data without a newline is refused with "Header not found" (ValueError) |
| HttpHead.HeaderKept | src/kettlingar/rpckitten.py:464 | once found, the head is never replaced by later reads |
| HttpHead.BlankHeadIsError | src/kettlingar/rpckitten.py:473-485 | a request that starts with a blank line has an empty head and is refused with ValueError |
| HttpHead.ReadLoop | src/kettlingar/rpckitten.py:452-481 | the imperative read loop computes exactly the specification function `Run` |
| HttpHead.ReadHead | src/kettlingar/rpckitten.py:441-487 | `_http11` returns exactly `Finish(Run(...))` |
| Responses.Reason | src/kettlingar/rpckitten.py:67-73 | a reason phrase exists exactly for 200, 400, 403, 404 and 500 |
| Streaming.MimeBytes | src/kettlingar/rpckitten.py:965 | `bytes(mt, 'utf-8')` succeeds exactly for strings, and gives their UTF-8 encoding |
| Streaming.PyLen | src/kettlingar/rpckitten.py:968 | `len` is defined exactly for text, bytes, lists, tuples and dictionaries, is the byte count for bytes, and raises TypeError for anything else |
| Streaming.AsBytes | src/kettlingar/rpckitten.py:969 | only bytes can be written to the transport |
| Streaming.SendFrame | src/kettlingar/rpckitten.py:968-970 | writing a frame only appends; bytes are written as exactly one frame, and anything else fails |
| Streaming.ItemTurn | src/kettlingar/rpckitten.py:955-973 | each item only appends output; after an item the stream is no longer at its first item |
| Streaming.Opening | src/kettlingar/rpckitten.py:963-965 | the chunked 200 head is written before the first item only, with the mimetype in UTF-8 |
| Streaming.SendValue | src/kettlingar/rpckitten.py:967-970 | a serialised item is sent as one frame of its serialisation; with the identity encoder the value itself is framed |
| Streaming.Fail | src/kettlingar/rpckitten.py:974-986 | reporting an error only appends output; an OSError appends nothing and escapes nothing |
| Streaming.Finish | src/kettlingar/rpckitten.py:974-990 | ending the stream only appends output |
| Streaming.Stream | src/kettlingar/rpckitten.py:952-990 | the whole stream only ever appends to what was written |
| Streaming.ItemFrame | src/kettlingar/rpckitten.py:967-973 | a later serialised item adds exactly its frame |
| Streaming.FirstItem | src/kettlingar/rpckitten.py:963-973 | the first serialised item writes the chunked head and then its frame |
| Streaming.LaterItems | src/kettlingar/rpckitten.py:955-973 | after the first item, a run of serialised items appends exactly their frames |
| Streaming.SerializedStream | src/kettlingar/rpckitten.py:952-990 | a stream of serialised items is the chunked head, then one frame per item, then its ending |
| Streaming.NothingYielded | src/kettlingar/rpckitten.py:955-990 | a generator that yields nothing writes nothing |
| Streaming.FailureFirst | src/kettlingar/rpckitten.py:979-982 | a failure before the first item is sent as a 500 status line, the mimetype and the serialised error |
| Streaming.FailFirst | src/kettlingar/rpckitten.py:979-982 | the first-item failure branch appends the 500 reply to what was written |
| Streaming.FailureLater | src/kettlingar/rpckitten.py:983-986 | a failure after items is sent as one more frame holding the serialised error |
| Streaming.FailFrame | src/kettlingar/rpckitten.py:983-986 | the later-failure branch appends exactly one frame of the error |
| Streaming.OSErrorCloses | src/kettlingar/rpckitten.py:974-976 | an OSError writes nothing more and does not escape |
| Streaming.StopPair | src/kettlingar/rpckitten.py:957-958 | a `(None, None)` pair ends the stream after the frames already written |
| Streaming.StopAfter | src/kettlingar/rpckitten.py:957-958 | nothing after a `(None, None)` pair is ever consumed |
| Streaming.ClientSeesItems | src/kettlingar/rpckitten.py:921-973 | round trip: however the body after the head is split into reads, the corrected client decoder yields exactly the serialised items |
| Streaming.IdentityStream | src/kettlingar/rpckitten.py:960-973 | a first item with a mimetype switches to the identity encoder, and bytes items are framed as they are |
| Streaming.IdentityFirst | src/kettlingar/rpckitten.py:960-970 | the first item's mimetype becomes the stream's, the encoder becomes the identity, and the head and the frame are written |
| Streaming.IdentityLater | src/kettlingar/rpckitten.py:967-973 | later bytes items under the identity encoder append exactly their frames |
| Streaming.IdentityItem | src/kettlingar/rpckitten.py:967-970 | one bytes item under the identity encoder appends its frame |
| Streaming.IdentityFailureEscapes | src/kettlingar/rpckitten.py:977-986 | under the identity encoder the error dictionary is "framed" with length 1 and then a TypeError escapes |
| Streaming.Writer.constructor | src/kettlingar/rpckitten.py:952 | a fresh transport has written nothing and is open |
| Streaming.Writer.Write | src/kettlingar/rpckitten.py:964 | a write appends its data |
| Streaming.Writer.Close | src/kettlingar/rpckitten.py:990 | closing keeps the output and marks the transport closed |
| Streaming.WriteFrame | src/kettlingar/rpckitten.py:968-970 | writes exactly what `SendFrame` specifies |
| Streaming.Open | src/kettlingar/rpckitten.py:963-965 | writes exactly what `Opening` specifies |
| Streaming.WriteValue | src/kettlingar/rpckitten.py:967-970 | writes exactly what `SendValue` specifies |
| Streaming.Item | src/kettlingar/rpckitten.py:956-973 | one loop iteration writes exactly what `ItemTurn` specifies and returns its new state |
| Streaming.Report | src/kettlingar/rpckitten.py:977-986 | the generic exception branch writes exactly what `Fail` specifies |
| Streaming.Handle | src/kettlingar/rpckitten.py:974-990 | the except and finally branches write what `Fail` specifies and close the transport |
| Streaming.Step | src/kettlingar/rpckitten.py:955-990 | one step either finishes the whole stream as specified or leaves a state whose remaining stream is the same |
| Streaming.End | src/kettlingar/rpckitten.py:974-990 | the ending writes what `Finish` specifies and closes the transport |
| Streaming.RawStream | src/kettlingar/rpckitten.py:952-990 | `raw_method` writes exactly `Stream(...)`, reports the exception that escapes, and always closes the transport |
| Streaming.StreamStop | src/kettlingar/rpckitten.py:957-958 | a stop pair ends the stream with the output so far |
| Streaming.StreamRaise | src/kettlingar/rpckitten.py:974-986 | a failing item hands over to the error branches |
| Streaming.StreamEnd | src/kettlingar/rpckitten.py:987-990 | an exhausted generator goes straight to the ending |
| Dispatch.Words | src/kettlingar/rpckitten.py:500 | `split(None)` gives non-empty words without whitespace |
| Dispatch.RequestLine | src/kettlingar/rpckitten.py:500 | the request line unpacks if and only if it has at least three words, and raises ValueError otherwise |
| Dispatch.RequestLineOf | src/kettlingar/rpckitten.py:500 | "verb path version ..." unpacks to exactly those three words |
| Dispatch.ValidateRequestHeader | src/kettlingar/rpckitten.py:570-575 | PermissionError exactly when the secret is not in the head; otherwise the path is returned, with a leading "/secret" removed when present |
| Dispatch.StripUrlPath | src/kettlingar/rpckitten.py:506-511 | with a URL path configured, a path not under it raises AttributeError, and one under it has the prefix removed |
| Dispatch.Authenticate | src/kettlingar/rpckitten.py:505-516 | authenticated exactly when the head contains the secret; an unauthenticated request keeps its stripped path |
| Dispatch.Get | src/kettlingar/rpckitten.py:583-584 | `getattr(..., None)` finds a handler exactly when the name is defined |
| Dispatch.Lookup | src/kettlingar/rpckitten.py:582-595 | authenticated requests try private names first, then public ones; nothing found raises AttributeError when authenticated and PermissionError when not |
| Dispatch.BodyPlan | src/kettlingar/rpckitten.py:597-606 | a POST without Content-Type raises KeyError; msgpack is used exactly for POSTed msgpack; the body is decoded exactly for POSTed JSON or msgpack |
| Dispatch.PopArgs | src/kettlingar/rpckitten.py:603-606 | `body.pop('_args', [])` works exactly on dictionaries |
| Dispatch.AsReplyBytes | src/kettlingar/rpckitten.py:579-580 | `_b` accepts bytes and strings, and encodes strings in UTF-8 |
| Dispatch.HandlerError | src/kettlingar/rpckitten.py:626-631 | the error reply carries the message, and a traceback exactly when authenticated |
| Dispatch.ErrorAnswer | src/kettlingar/rpckitten.py:625-631 | a failing handler answers 500 with the serialised error in the request's mimetype |
| Dispatch.CallAnswer | src/kettlingar/rpckitten.py:619-631 | a handler answer is 200 or 500, and 200 only when the call succeeded; without a mimetype the response is serialised, and with one it is kept as is |
| Dispatch.Args | src/kettlingar/rpckitten.py:603-606 | without a decoded body the arguments are empty; a body that failed to decode raises its error; a decoded dictionary gives its `_args`, or none |
| Dispatch.NotIterable | src/kettlingar/rpckitten.py:614-617 | unpacking a non-iterable `_args` with `*` raises TypeError |
| Dispatch.HandleRequest | src/kettlingar/rpckitten.py:577-631 | unknown names raise AttributeError or PermissionError with the path; background tasks start only for raw or generator handlers and only when `_args` is iterable; answers are 200 or 500 |
| Dispatch.BackgroundArgsNotIterable | src/kettlingar/rpckitten.py:540-617 | a raw handler POSTed a JSON body whose `_args` is not iterable is answered 400 with the TypeError, and no background task starts |
| Dispatch.CoroutineArgsNotIterable | src/kettlingar/rpckitten.py:614-631 | a coroutine handler POSTed a JSON body whose `_args` is not iterable answers 500 with the TypeError serialised as JSON |
| Dispatch.HandleIgnoresPrivate | src/kettlingar/rpckitten.py:582-595 | unauthenticated handling does not depend on the private handler tables at all |
| Dispatch.ErrorStatus | src/kettlingar/rpckitten.py:540-559 | PermissionError gives 403, AttributeError 404, TypeError and UnicodeDecodeError 400, anything else 500 |
| Dispatch.ServeError | src/kettlingar/rpckitten.py:540-559 | 403 and 404 send their fixed bodies; 400 and 500 send the status line, the JSON header and the serialised error |
| Dispatch.Joined | src/kettlingar/rpckitten.py:490-494 | `_w` joins bytes and strings, and raises TypeError on anything else |
| Dispatch.Reply | src/kettlingar/rpckitten.py:519-538 | a mimetype that is not UTF-8 raises UnicodeDecodeError; a reply starts with the status line and the mimetype header |
| Dispatch.Serve | src/kettlingar/rpckitten.py:489-568 | a failure to read the head is answered as `ServeError` specifies; every reply is 200, 400, 403, 404 or 500 |
| Dispatch.UnauthenticatedRefused | src/kettlingar/rpckitten.py:513-542 | a request without the secret for a non-public name is answered 403 |
| Dispatch.UnknownNameNotFound | src/kettlingar/rpckitten.py:594-595 | an authenticated request for an unknown name is answered 404 |
| Dispatch.AuthenticatedAsIs | src/kettlingar/rpckitten.py:570-575 | a head with the secret authenticates and keeps the path when it is not under "/secret/" |
| Dispatch.PrivateUnreachable | src/kettlingar/rpckitten.py:582-595 | without the secret, the served reply does not depend on the private handlers |
| Dispatch.JsonAnswer | src/kettlingar/rpckitten.py:577-624 | an authenticated GET of a coroutine handler with no mimetype is answered 200 with its JSON |
| Dispatch.ServeAnswer | src/kettlingar/rpckitten.py:517-538 | a handler's answer becomes exactly the reply bytes `Reply` specifies |
| Dispatch.HandleCoroutine | src/kettlingar/rpckitten.py:619-624 | a successful coroutine with no mimetype answers 200 with the serialised JSON |
| Dispatch.ReplyBytes | src/kettlingar/rpckitten.py:536-538 | a bytes reply is the status line, the mimetype header and the bytes |
| Dispatch.StatusCode | src/kettlingar/rpckitten.py:849 | the client reads the status as the second word of the head, in base 10 |
| Dispatch.StatusCodeOf | src/kettlingar/rpckitten.py:849 | "HTTP/1.1 <code> <reason>" gives back the code |
| Dispatch.ClientError | src/kettlingar/rpckitten.py:880-885 | 401, 403 and 407 raise PermissionError; 3xx raises IOError; other 4xx raise ValueError; anything else raises RuntimeError |
| Dispatch.CallOutcome | src/kettlingar/rpckitten.py:874-887 | a 200 without an error dictionary is returned (or decoded as a chunk stream when chunked); otherwise the exception class follows `ClientError`, with 200 turned into 500, and carries the error text |
| Dispatch.ErrorClassesAgree | src/kettlingar/rpckitten.py:874-887 | a server-side PermissionError surfaces at the client as PermissionError; 404 and 400 as ValueError; 500 as RuntimeError |
| Kwargs.Positional | src/kettlingar/rpckitten.py:1108-1113 | the remaining arguments are never options, and are no more than the inputs |
| Kwargs.OptionTexts | src/kettlingar/rpckitten.py:1108-1109 | options and remaining arguments together account for every argument |
| Kwargs.PositionalAppend | src/kettlingar/rpckitten.py:1113 | filtering distributes over concatenation (order is kept) |
| Kwargs.PositionalKeeps | src/kettlingar/rpckitten.py:1113 | every non-option argument survives |
| Kwargs.Pairs | src/kettlingar/rpckitten.py:1109 | `split('=', 1)` succeeds for all options exactly when each contains "=", and splits each at its first "=" |
| Kwargs.ToMap | src/kettlingar/rpckitten.py:1109 | the dictionary's keys are exactly the option names |
| Kwargs.LastWins | src/kettlingar/rpckitten.py:1109 | a repeated option keeps the last value given |
| Kwargs.FirstUnknown | src/kettlingar/rpckitten.py:1110-1112 | the first option outside the allowed set is found, or none when all are allowed |
| Kwargs.ExtractKwargs | src/kettlingar/rpckitten.py:1090-1113 | succeeds exactly when every option has "=" and (with a non-empty allowed set) every name is allowed; returns the non-options and options within the allowed set; fails with ValueError |
| Kwargs.OptionAppended | src/kettlingar/rpckitten.py:1108-1113 | appending "--k=v" adds k with value v and leaves the arguments alone |
| Kwargs.PositionalAppended | src/kettlingar/rpckitten.py:1108-1113 | appending a non-option keeps the options and appends to the arguments |
| Kwargs.TwoPositional | src/kettlingar/rpckitten.py:1101 | two plain arguments come back unchanged with no options |
| Kwargs.OptionAfterTwo | src/kettlingar/rpckitten.py:1101-1105 | an option after two arguments is extracted |
| Kwargs.OptionBetween | src/kettlingar/rpckitten.py:1101-1105 | an option between arguments is extracted and the arguments keep their order |
| Kwargs.DocstringExample | src/kettlingar/rpckitten.py:1099-1105 | `[1, 2, '--three=four', 4]` with allowed `['three']` gives `[1, 2, 4]` and `{'three': 'four'}` |
| Config.DropDashes | src/kettlingar/rpckitten.py:160-161 | a leading "--" is removed, and only that |
| Config.CutComment | src/kettlingar/rpckitten.py:162-163 | the result is a comment-free prefix of the line |
| Config.CleanLine | src/kettlingar/rpckitten.py:159-164 | a cleaned line has no "#" and no surrounding whitespace |
| Config.CommentIgnored | src/kettlingar/rpckitten.py:159-164 | anything after "#" never changes the cleaned line |
| Config.FileLine | src/kettlingar/rpckitten.py:170 | a file line unpacks into a key and a value without "=", or raises ValueError |
| Config.FileArgs | src/kettlingar/rpckitten.py:166-171 | every generated file argument is a well-formed `--key=val` option |
| Config.ParseArg | src/kettlingar/rpckitten.py:183-185 | an option starts with "--" and its key has dashes turned into underscores |
| Config.OptionArg | src/kettlingar/rpckitten.py:183-185 | "--k=v" parses to k (with underscores) and v |
| Config.Coerce | src/kettlingar/rpckitten.py:189-205 | an empty value restores the default; booleans look at the first character; integers parse in base 10 or fail; lists and dictionaries must keep their type, and otherwise raise ValueError "Not a list: <val>" or "Not a dict: <val>" naming the decoded value; a JSON error propagates; strings and unset defaults keep the text |
| Config.NumberNotAList | src/kettlingar/rpckitten.py:198-201 | a list setting given JSON that decodes to a number raises "Not a list: " followed by that number in decimal |
| Config.IntSetting | src/kettlingar/rpckitten.py:196-197 | an integer setting given in decimal gets that integer |
| Config.DefaultOf | src/kettlingar/rpckitten.py:189 | the default is the class constant, or None |
| Config.Apply | src/kettlingar/rpckitten.py:182-209 | one argument: non-options are left unconsumed; a "_" key raises KeyError; a known key is set to its coerced value and consumed; unknown keys change nothing |
| Config.Run | src/kettlingar/rpckitten.py:182-209 | configuring never adds or removes settings |
| Config.RunStops | src/kettlingar/rpckitten.py:182-209 | the first exception stops the loop, and settings changed earlier stay changed |
| Config.RunFrame | src/kettlingar/rpckitten.py:182-209 | a setting no argument names keeps its value |
| Config.ConsumedKnown | src/kettlingar/rpckitten.py:207 | every consumed argument is an option for a known setting |
| Config.Unconsumed | src/kettlingar/rpckitten.py:211 | the unconsumed list holds exactly the arguments not consumed, in order |
| Config.WithDefaults | src/kettlingar/rpckitten.py:139-144 | unset public settings take their defaults, and set ones are kept |
| Config.DefaultsIdempotent | src/kettlingar/rpckitten.py:139-144 | applying the defaults twice is the same as once |
| Config.Configuration.constructor | src/kettlingar/rpckitten.py:115-119 | every public setting starts as None |
| Config.Configuration.Configure | src/kettlingar/rpckitten.py:175-218 | the settings and the result are exactly those of `Run`, then the strict check, then the defaults |
| Config.DashedKey | src/kettlingar/rpckitten.py:183-206 | "--a-b=v" sets a_b, to the default when v is empty |
| Config.PrivateKeyRefused | src/kettlingar/rpckitten.py:186-187 | keys starting with "_" raise KeyError |
| Config.EmptyRestoresDefault | src/kettlingar/rpckitten.py:190-191 | an empty value restores the default |
| Config.BoolSetting | src/kettlingar/rpckitten.py:192-193 | a boolean setting is true exactly when its value starts with y, Y, t, T or 1 |
| HelpText.Shown | src/kettlingar/rpckitten.py:1063-1064 | the listed commands never include ping, help, config or quitquitquit |
| HelpText.Lines | src/kettlingar/rpckitten.py:1060-1069 | each line is the prefix of its group followed by its commands joined with ", " |
| HelpText.Break | src/kettlingar/rpckitten.py:1065-1066 | a new line starts with the command and keeps the earlier lines |
| HelpText.Put | src/kettlingar/rpckitten.py:1067-1069 | the command joins the last line and the earlier lines are kept |
| HelpText.PutLine | src/kettlingar/rpckitten.py:1067-1069 | the command is appended to the last line after ", " unless the line is empty |
| HelpText.BreakLaid | src/kettlingar/rpckitten.py:1065-1066 | breaking before a command that would overflow keeps the layout rule |
| HelpText.PutLaid | src/kettlingar/rpckitten.py:1067-1069 | adding a command that fits keeps the layout rule |
| HelpText.BreakConcat | src/kettlingar/rpckitten.py:1065-1066 | a new line adds exactly that command |
| HelpText.PutConcat | src/kettlingar/rpckitten.py:1067-1069 | joining the last line adds exactly that command |
| HelpText.Next | src/kettlingar/rpckitten.py:1062-1069 | every step keeps the layout rule |
| HelpText.Groups | src/kettlingar/rpckitten.py:1060-1069 | the grouped commands obey the layout rule |
| HelpText.GroupsNext | src/kettlingar/rpckitten.py:1062-1069 | grouping one more command is one more step |
| HelpText.NextConcat | src/kettlingar/rpckitten.py:1063-1069 | a step adds its command unless the command is hidden |
| HelpText.GroupsPartition | src/kettlingar/rpckitten.py:1060-1069 | the lines together hold exactly the shown commands, in order |
| HelpText.HiddenIgnored | src/kettlingar/rpckitten.py:1063-1064 | hidden commands change nothing |
| HelpText.LinesBreak | src/kettlingar/rpckitten.py:1065-1066 | a break adds a line holding the indentation and the command |
| HelpText.LinesPut | src/kettlingar/rpckitten.py:1067-1069 | joining changes only the last line |
| HelpText.CommandList | src/kettlingar/rpckitten.py:1060-1069 | the loop builds exactly the lines of the grouped commands |
| Web.TableOf | src/kettlingar/webkitten.py:40-43 | a verb with no table has an empty one |
| Web.Merged | src/kettlingar/webkitten.py:40-43 | after merging, the verbs are the old ones plus the added ones |
| Web.MergedKeeps | src/kettlingar/webkitten.py:40-43 | a route that no later update mentions keeps its handler |
| Web.MergedAdds | src/kettlingar/webkitten.py:40-43 | an added route is present with its handler unless a later update replaces it |
| Web.Suffix | src/kettlingar/webkitten.py:152-153 | the path rebuilt from arguments starts with "/" |
| Web.SuffixJoin | src/kettlingar/webkitten.py:152-153 | the rebuilt suffix is "/" followed by the arguments joined with "/" |
| Web.Search | src/kettlingar/webkitten.py:142-154 | a found route is usable (public or authenticated), and its key followed by the arguments rebuilds the path; no argument contains "/" |
| Web.SearchNone | src/kettlingar/webkitten.py:142-154 | when nothing is found, no prefix of the path is a usable route |
| Web.SearchLongest | src/kettlingar/webkitten.py:142-154 | the route found is the longest usable prefix of the path |
| Web.FoundCandidate | src/kettlingar/webkitten.py:142-154 | the route found is a prefix of the path at a "/" boundary |
| Web.Below | src/kettlingar/webkitten.py:140 | the path below the prefix is non-empty, and is "/" when the path is the prefix itself |
| Web.Resolve | src/kettlingar/webkitten.py:137-154 | a path outside the prefix raises KeyError with the full path; no route raises KeyError with the path below the prefix; a found route is public or the caller is authenticated |
| Web.RouteRebuilt | src/kettlingar/webkitten.py:142-152 | the route key, "/" and the arguments joined with "/" rebuild the path |
| Web.Basename | src/kettlingar/webkitten.py:115 | `basename` is a suffix without "/" |
| Web.Extension | src/kettlingar/webkitten.py:116 | `splitext` gives "" or a suffix starting with its only dot |
| Web.Mimetype | src/kettlingar/webkitten.py:114-117 | the file name wins over the extension, and the extension over `application/octet-stream` |
| Web.BasenameOf | src/kettlingar/webkitten.py:115 | the basename of "dir/name" is name |
| Web.ExtensionOf | src/kettlingar/webkitten.py:116 | the extension of "stem.ext" is ".ext" |
| Web.MimetypeByExtension | src/kettlingar/webkitten.py:114-117 | a file not named in the table gets its extension's type, or `application/octet-stream` |
| Web.StaticMimetype | src/kettlingar/webkitten.py:114-120 | the header value starts with the chosen mimetype, then caching and Last-Modified lines |
| Web.Pieces | src/kettlingar/webkitten.py:125-126 | the pieces concatenate to the data; each is non-empty and at most 16 KiB, and all but the last are full |
| Web.EncodedBytes | src/kettlingar/webkitten.py:127 | the encoded pieces together are the UTF-8 encoding of the whole file |
| Web.WebStatic | src/kettlingar/webkitten.py:109-132 | paths with "/." or an empty resource raise PermissionError; a loader error yields one error item; otherwise the items carry the mimetype and together the file's UTF-8 bytes |
| Web.WebKitten.constructor | src/kettlingar/webkitten.py:20-25 | no prefix yet, and an empty GET table |
| Web.WebKitten.InitWebkitten | src/kettlingar/webkitten.py:31-43 | the prefix is set and the routes become the merged tables |
| Web.WebKitten.FindRoute | src/kettlingar/webkitten.py:137-154 | `_route` computes exactly `Resolve` |
| Web.Walk | src/kettlingar/webkitten.py:142-154 | the search loop computes exactly `Search` |
| Web.SearchStep | src/kettlingar/webkitten.py:149-153 | an unusable path continues with its front part and one more argument |
| Metrics.Limit | src/kettlingar/metrics.py:21-27 | a zero limit means the default of 25 |
| Metrics.Guaged | src/kettlingar/metrics.py:34-40 | a gauge keeps an existing value and sets a new key; only that key and its type change |
| Metrics.Plus | src/kettlingar/metrics.py:47 | integers and booleans add as integers; a float adds through the float-addition parameter; anything else raises TypeError |
| Metrics.Counted | src/kettlingar/metrics.py:42-48 | a new key starts at the count; an integer grows by it; a float grows through the float-addition parameter; exactly the values that cannot be added raise TypeError; only that key changes |
| Metrics.Oldest | src/kettlingar/metrics.py:21-24 | pruning oldest keeps the newest `max-1` samples |
| Metrics.AtRandom | src/kettlingar/metrics.py:26-29 | random pruning keeps `max-1` samples, in their order |
| Metrics.PruneOldestSamples | src/kettlingar/metrics.py:21-24 | the loop computes exactly `Oldest` |
| Metrics.PruneSamplesAtRandom | src/kettlingar/metrics.py:26-29 | the loop computes exactly `AtRandom` for the given draws |
| Metrics.Pruned | src/kettlingar/metrics.py:61-64 | either strategy keeps `max-1` samples in order |
| Metrics.NotAList | src/kettlingar/metrics.py:58-65 | a non-list stored under a sample key raises AttributeError or TypeError |
| Metrics.Sampled | src/kettlingar/metrics.py:50-65 | a sample ends the list, after pruning to `max-1` older ones; a non-list raises, with the type already recorded |
| Metrics.SampleBounded | src/kettlingar/metrics.py:50-65 | a sample list is never empty, never longer than the limit, and holds the new sample |
| Metrics.Perform | src/kettlingar/metrics.py:31-65 | an update touches only its key in its own store |
| Metrics.PerformAllAppend | src/kettlingar/metrics.py:67-84 | a sequence of updates runs in order and stops at the first exception |
| Metrics.SideWithin | src/kettlingar/metrics.py:67-84 | updates confined to a set of keys change only those keys |
| Metrics.TurnPublic | src/kettlingar/metrics.py:72-84 | each round touches only the public keys for the status, the bytes sent and the elapsed time |
| Metrics.RequestPublic | src/kettlingar/metrics.py:67-84 | a request changes only `http_<code>`, `http_sent_bytes` and `http_elapsed_us` in public |
| Metrics.TurnPrivate | src/kettlingar/metrics.py:72-84 | each round touches only its own private keys |
| Metrics.RequestPrivate | src/kettlingar/metrics.py:67-84 | a request changes only the private keys of "http" and of its handler |
| Metrics.ViaNotPublic | src/kettlingar/metrics.py:76-77 | the transport key is never a public key |
| Metrics.ViaPrivate | src/kettlingar/metrics.py:76-77 | the transport counter never appears in the public store |
| Metrics.Varz.constructor | src/kettlingar/metrics.py:16-19 | both stores start empty |
| Metrics.Varz.MetricsGuage | src/kettlingar/metrics.py:34-40 | updates exactly as `Guaged` specifies, in the chosen store |
| Metrics.Varz.MetricsCount | src/kettlingar/metrics.py:42-48 | updates exactly as `Perform` specifies for a count |
| Metrics.Varz.MetricsSample | src/kettlingar/metrics.py:50-65 | updates exactly as `Sampled` specifies, in the chosen store |
| Metrics.Varz.MetricsHttpRequest | src/kettlingar/metrics.py:67-84 | performs exactly the request's updates, in order |
| Metrics.Varz.PublicApiVarz | src/kettlingar/metrics.py:86-100 | unauthenticated callers see the public store; authenticated ones see both, and the private type map absorbs the public one |
| Metrics.CountsAdd | src/kettlingar/metrics.py:47 | repeated counts on a new key add up to their sum |
| Metrics.PerformAllRaised | src/kettlingar/metrics.py:67-84 | after an exception no further update happens |
| Counting.PerformSound | src/kettlingar/metrics.py:42-65 | a count into an absent or integer key adds to it, a sample into an absent or list key becomes its newest entry, neither raises, and no other entry changes |
| Counting.RunPerforms | src/kettlingar/metrics.py:67-84 | running the calls through any step, with `Perform` as the step, is `PerformAll` |
| Counting.TurnKeysDiffer | src/kettlingar/metrics.py:73-84 | the status, transport, bytes and time keys of one round are four different keys |
| Counting.HandlerKeysApart | src/kettlingar/metrics.py:73-84 | `http_unix`/`http_tcp` is none of the handler's keys unless the handler is itself `http` |
| Counting.TurnCounts | src/kettlingar/metrics.py:73-84 | one round over ready keys: the status and transport counters grow by one, the bytes counter by `sent` unless it is 0, the time becomes the newest sample unless it is 0, nothing raises |
| Counting.TurnKeeps | src/kettlingar/metrics.py:73-84 | a round leaves every other key unchanged |
| Counting.RequestPublicRun | src/kettlingar/metrics.py:67-84 | over any sound step, the public `http` counters of a request grow once, or twice when the second round repeats the `http` keys |
| Counting.RequestPrivateRun | src/kettlingar/metrics.py:67-84 | over any sound step, the first round's transport counter and all of the second round's private counters grow, and nothing raises |
| Counting.RequestPublicCounts | src/kettlingar/metrics.py:67-84 | a request adds 1 to `http_<code>`, `sent` to `http_sent_bytes` (unless 0) and makes the time the newest `http_elapsed_us` sample (unless 0); twice over for a handler named `http` |
| Counting.RequestPrivateCounts | src/kettlingar/metrics.py:67-84 | for a handler not named `http`: `http_unix`/`http_tcp`, `<handler>_<code>` and `<handler>_unix`/`_tcp` grow by 1, `<handler>_sent_bytes` by `sent`, the time is the newest `<handler>_elapsed_us` sample, and nothing raises |
| StrUtils.SextetValue | src/kettlingar/str_utils.py:14 | decoding a base64 character gives a sextet, or -1 |
| StrUtils.Base64 | src/kettlingar/str_utils.py:13-14 | the encoding is 4 characters per 3 bytes, rounded up, all from the base64 alphabet |
| StrUtils.Base64RoundTrip | src/kettlingar/str_utils.py:13-14 | decoding the encoding gives back the bytes |
| StrUtils.StripNewline | src/kettlingar/str_utils.py:13-14 | `strip()` removes exactly the trailing newline of `b2a_base64` |
| StrUtils.StrRouteMapKey | src/kettlingar/str_utils.py:13-14 | the route map key is the base64 text of the key |
| StrUtils.Trunc | src/kettlingar/str_utils.py:19-20 | short strings are kept, and longer ones become `l-2` characters and ".." |
| StrUtils.BytesWhole | src/kettlingar/str_utils.py:29-33 | up to 21 bytes print as their base64; longer ones as 25 base64 characters, "..", and the byte count |
| StrUtils.Quoted | src/kettlingar/str_utils.py:23-24 | text is shown between single quotes, whole up to 16 characters and otherwise as its first 14 characters and ".." |
| StrUtils.IntText | src/kettlingar/str_utils.py:25-26 | `'%d'` of an int or a bool is decimal text that `int()` reads back as the number, with True and False as 1 and 0 |
| StrUtils.Fmt | src/kettlingar/str_utils.py:22-38 | strings are quoted, kept whole up to 16 characters and otherwise cut to 14 plus ".."; ints and bools are their decimal text, which `int()` reads back; dicts and lists print `<dict(n)>` and `<list(n)>` with their size readable back; objects print `<ClassName>`, None `<NoneType>` and tuples `<tuple>` |
| StrUtils.Formatted | src/kettlingar/str_utils.py:40 | each argument is formatted by `_fmt`, in order |
| StrUtils.StrArgsAppend | src/kettlingar/str_utils.py:40 | one more argument adds ", " and its format |
| StrUtils.StrArgsOne | src/kettlingar/str_utils.py:40 | a single argument prints alone |
| StrUtils.StrAddr | src/kettlingar/str_utils.py:4-10 | a tuple or list with fewer than two elements raises TypeError, and everything else prints |
| StrUtils.HostPort | src/kettlingar/str_utils.py:9 | (host, port, ...) prints as "[host]:port" |
| StrUtils.ThreeParts | src/kettlingar/str_utils.py:6-7 | [a, b, int] prints as "a/[b]:int" |
| StrUtils.PathAddr | src/kettlingar/str_utils.py:10 | a Unix socket path prints as itself |

## Left out

- **Sockets, asyncio and timers.** Reads are a sequence of byte strings,
  where an empty read means end of file. The writer is a class holding the
  bytes written and a closed flag. `drain`, the two request timeouts of
  `_http11` and background task scheduling are not modelled.
- **File descriptor passing is not modelled.** This covers
  `_recv_data_and_fds`, the FDS mimetype branch of `_serve_http` (beyond
  its TCP refusal), `rfds` in `_chunk_decoder`, and `_fd_to_magic_arg` /
  `_fd_from_magic_arg`. These depend on the operating system's
  descriptor-passing facility.
- **JSON and msgpack are parameters.** Their encoders are functions passed
  in, and decoding is represented by tagging the chunk with the codec.
  Their byte formats are not part of this model.
- **Reflection** (`getattr` on `api_`, `raw_`, `public_api_` and
  `public_raw_` names, `inspect.isasyncgenfunction`) becomes explicit
  tables of handler names and kinds.
- **The body of `_http11` after the head.** `_http11` returns
  `request[hend+2:]`. The model reproduces this, including the leading
  CRLF kept with CR LF CR LF heads (`HttpHead.HeadBody`).
- **Header bytes** are decoded byte by byte (Latin-1) for the
  `Content-Length` and chunk length lines. This is the same as UTF-8 for
  ASCII; the head itself is decoded as UTF-8.
- **`int()`** is modelled for optional whitespace, a sign, ASCII decimal
  digits and a `0x` prefix in base 16. This affects `HttpHead.ContentLength`,
  `Config.Coerce` and `Dispatch.StatusCode`. The model rejects two inputs
  that Python accepts:
  - underscores between digits;
  - non-ASCII decimal digits, such as Arabic-Indic or full-width digits.
- **Floats are not modelled.**
  - `float()` in `configure` is a parameter.
  - `%.3f` in `str_args` is outside the model: `StrUtils.Fmt` and
    `StrUtils.Formatted` require non-float arguments.
  - Adding a count to a float counter goes through a `FloatPlus`
    parameter (`Metrics.Plus`); the float's rounding is not modelled.
- StrUtils.Fmt: requires a non-float argument, because `%.3f` rounding is
  not modelled.
- StrUtils.StrAddr: requires a printable address (strings, integers,
  tuples and lists of those), because `str()` of arbitrary objects is not
  modelled.
- **The `_type_map` entry of the stores.** The model keeps the type map
  beside the values, so a caller's key cannot collide with
  `_type_map`.
  - `public_api_varz` merges the public type map into the private one,
    which is the same dictionary object as the private store's map. The
    model shows this update on the private store
    (`Metrics.Varz.PublicApiVarz`).
  - The `start_time` gauge of `public_api_varz` is not modelled, because
    the start time is the clock's.
- **Random draws.** `random.randint` in `_prune_samples_at_random` is an
  oracle parameter `Draw`.
- **Negative limits.** A negative `max_samples` is not possible in the
  model: limits are natural numbers.
- **`sent or request_info.sent`** in `metrics_http_request` is resolved by
  the caller and passed in as `sent`.
- **Logging is not modelled.** This covers the `finally` block of
  `_serve_http`, `self.exception` and the `CALL ...` timing line. That
  block reads `peer` and `sent`, which are unbound on some error paths;
  the resulting `UnboundLocalError` is not modelled either.
- **`worker_config` files are not read by the model.** `configure` does
  not open them. `_configure_from_file`'s line cleaning and parsing are
  modelled over lines given as input.
- **Parts of `_set_defaults` are not modelled.** The `appdirs` directory
  defaults and directory creation are left out. `copy.copy` of defaults is
  the identity on values.
- **`api_help`** is modelled only for its command list wrapping.
  - The list of commands is passed in already sorted.
  - Docstrings and `__API_COMMANDS__` substitution are not modelled.
- **`_web_handle`, Jinja templates, `web_default_methods`,
  `common_jinja_vars` and `WebKittenWithHelp`** depend on Jinja and
  inspection of handlers, and are not modelled. The static loader's file
  read is a `Result` parameter.
- **`_today`** is a date-string parameter (the clock).
- **`RPCKittenVarz` in `rpckitten.py`** is an older copy of the metrics
  mix-in. It is not modelled; `metrics.py` is.
- **Iterability of `_args`.** Lists, tuples, strings, bytes and
  dictionaries are iterable (`Dispatch.Iterable`). Every other value is not,
  including objects, whose `__iter__` is not modelled. The TypeError's text
  approximates Python's own message.
- Config.Coerce: the `<val>` in "Not a list: <val>" and "Not a dict: <val>"
  is `str()` for None, booleans, numbers and text (`Config.Shown`). A decoded
  list or dictionary shows as `<list>` or `<dict>`, because the model's
  dictionaries do not keep Python's insertion order.
- **Exception messages** are kept where the code builds them from its own
  strings. Messages that come from Python itself are approximated.
- **Connecting and starting workers is not modelled.** This covers
  `connect`, `Main`, process management, `tlskitten` and the convenience
  method generation, which are process and socket management outside the
  protocol core.

## Findings

| source | as written | input that shows it | evidently intended | confidence | as-written member | corrected member |
|---|---|---|---|---|---|---|
| src/kettlingar/rpckitten.py:915 | `if len(data) >= ln:` accepts a chunk before its trailing CRLF has arrived, and then drops that CRLF off the buffer's end (`data[ln+2:]` is empty) | the reads `b"5\r\nhello"` then `b"\r\n5\r\nworld\r\n"`: "hello" is yielded; the second read starts with the stray CRLF, whose empty length line never parses, so "world" is never yielded | `if len(data) >= ln + 2:` so the decoder waits for the whole frame; then every split of a stream into reads decodes to exactly the items written | not executed | Chunked.AsWrittenDropsItems | Chunked.CorrectedKeepsItems |
