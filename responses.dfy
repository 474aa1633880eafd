/**
 * The fixed pieces of HTTP text the server writes: status lines, the header blocks that
 * follow them, and the head of a streamed (chunked) reply. All of them use bare `\n`
 * line endings.
 */
module Responses {
  import opened Wrappers
  import opened PyText

  const Connection: string := "Connection: close\n\n"

  /**
   * `_HTTP_RESPONSE`: the reason phrases of the status lines the server knows; each line
   * there reads `HTTP/1.1 <code> <reason>` and a newline.
   */
  function Reason(code: int): (r: Option<string>)
    ensures r.Some? <==> code in {200, 400, 403, 404, 500}
  {
    if code == 200 then Some("OK")
    else if code == 400 then Some("Invalid Request")
    else if code == 403 then Some("Access Denied")
    else if code == 404 then Some("Not Found")
    else if code == 500 then Some("Internal Error")
    else None
  }

  /** `_HTTP_RESPONSE.get(code)`, or `_HTTP_RESPONSE_UNKNOWN % code` for any other code. */
  function StatusLine(code: int): seq<byte>
  {
    Latin1("HTTP/1.1 " + Decimal(code) + " " + (if Reason(code).Some? then Reason(code).value else "Unknown") + "\n")
  }

  /** `_HTTP_MIMETYPE % mt`. */
  function MimetypeBlock(mt: seq<byte>): seq<byte>
  {
    Latin1("Content-Type: ") + mt + BlockEnd
  }

  /** `_HTTP_JSON`. */
  const JsonBlock: seq<byte> := Latin1("Content-Type: application/json\n" + Connection)

  /** `_HTTP_NOT_FOUND`. */
  const NotFoundBlock: seq<byte> := JsonBlock + Latin1("{\"error\": \"Not Found\"}\n")

  /** `_HTTP_SORRY`. */
  const SorryBlock: seq<byte> := JsonBlock + Latin1("{\"error\": \"Sorry\"}\n")

  /** `_HTTP_200_CHUNKED_OK % mt`: the head of a streamed reply. */
  function ChunkedHead(mt: seq<byte>): seq<byte>
  {
    ChunkedStart + mt + BlockEnd
  }

  const ChunkedStart: seq<byte> := Latin1("HTTP/1.1 200 OK\nTransfer-Encoding: chunked\nContent-Type: ")

  const BlockEnd: seq<byte> := Latin1("\n" + Connection)
}
