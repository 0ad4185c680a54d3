# Models of the SDK's protocol code

A Dafny model of the parts of the SDK, and of the code it vendors, where the behaviour spans many calls: the
incremental HTTP parser and the URL parser, the bipartite matching behind unordered matchers, the pipelined
download with retries, the paged listing, the multipart upload, and three small text machines (the simple regular
expressions, the line reader and the CDATA printer). `dafny verify dfyconfig.toml` checks all of it.

## How the model is laid out

| File | Content |
|---|---|
| `Common.dfy` | bytes, optional values |
| `HttpTypes.dfy`, `HttpDispatch.dfy` | parser fields, character classes, and one pass of one byte through the state switch |
| `HttpInvariant.dfy` | the invariant of the parser, kept by every pass |
| `HttpRun.dfy`, `HttpSplit.dfy` | one call as a function, cutting the input into buffers, and when a cut shows |
| `HttpCounting.dfy` | the counter of header bytes, byte by byte |
| `HttpSkips.dfy`, `HttpParser.dfy` | the call itself: class with marks, inner loops, the memchr skip, the header limit |
| `HttpMethods.dfy`, `HttpVersions.dfy`, `HttpHeaderNames.dfy`, `HttpLengths.dfy`, `HttpTransferEncoding.dfy`, `HttpConnection.dfy` | the automata inside the parser recognise exactly what they are meant to |
| `HttpChunked.dfy` | chunked bodies with their trailers, and bodies of known length |
| `HttpFolding.dfy`, `HttpHeaderLines.dfy` | continued values; whole header lines and what they do to the parser |
| `HttpBodies.dfy` | the end of the headers and the kind of body they announce |
| `HttpRequests.dfy`, `HttpResponses.dfy` | whole messages, one or many in a row: what is written is what the application is told |
| `HttpHeaderLimit.dfy`, `HttpMessageLimit.dfy` | which texts and which messages keep within the header limit |
| `HttpSessions.dfy` | whole connections: a new parser that is given buffers one after the other |
| `HttpUrl.dfy`, `HttpUrlParser.dfy`, `HttpUrlRoundTrip.dfy` | cutting a URL into parts: function, loops, round trip |
| `BipartiteMatching.dfy` | maximum matching and pairing |
| `RangeFetch.dfy`, `Pipeline.dfy`, `ObjectReader.dfy` | one ranged transfer, the pipeline of transfers, the reader |
| `ObjectListing.dfy` | listing a bucket page by page |
| `MultipartWriter.dfy` | buffered and unbuffered multipart upload |
| `SimpleRegex.dfy` | validation and matching of simple regular expressions |
| `LineReader.dfy` | reading lines through a fixed buffer |
| `CDataPrinter.dfy` | printing CDATA sections and reading them back |

The HTTP parser is modelled in its strict build, with callbacks that return 0 and leave the parser alone; what
`on_headers_complete` answers is a parameter of the parser. Calls of callbacks are a ghost list of events; two
traces are compared after merging adjacent data events of one kind. `Dispatch` does a single pass of the switch for
one byte; `Exec` is a whole call; the method `HttpParser.Execute` is the loop of the source and is proved to do what
`Exec` says.

The network is an environment. For a transfer in progress, curl holds exactly the bytes of the requested range that
have not been accepted; it offers them in order, in blocks of any size up to `CURL_MAX_WRITE_SIZE`, to any active
transfer; it offers a refused block again after the transfer is unpaused; it hands out no body bytes for responses
other than 200 and 206; it reports success only once everything has been accepted; an empty remaining range means no
bytes. Failures and timeouts are reported at any time.

## What the code does beyond its documentation

- `unhex` has 128 initialisers for 256 entries, so bytes from 0x80 on count as the hexadecimal digit 0
  (src/lib/http_parser.c:225-235); the model does the same.
- In state `s_start_res` every CR and LF reports another `on_message_begin` (src/lib/http_parser.c:753-780);
  `HttpResponses.Begins` counts them.
- A Connection header does not always set the flags of its options (src/lib/http_parser.c:1532-1731). Its value is a
  list with commas in between. A piece of the list is passed over if it stands right behind an unfinished word, whose
  comma is taken for a wrong letter ("c,close"), or behind an empty first piece (",close"). Nothing is heard any more
  behind a later piece that is empty ("close,,keep-alive") or that begins with a byte whose lower-cased form is no
  token character, such as a tab: `LOWER` of a tab is `)`, so the comparison with a tab never holds. (`LOWER` makes
  token characters of `@` and of byte 1.) And an option is not heard with a tab behind it. `ConnectionExact` says which
  options are heard, for every value, and when these are all of the list; `CleanListHeard` gives a form of list for
  which they always are, `OptionsMissed` the three examples.
- On a continued line a header value is looked into only if it is a list of options that ends where an option may
  begin; a Transfer-Encoding that is continued does not make the message chunked, an option at the end of a continued
  line is lost, and a Content-Length that is continued is an error (src/lib/http_parser.c:1499-1555, 1751-1778);
  `OptionFolds`, `IgnoredFolds` and `ContinuedLengthRun` say so.
- A buffer cut inside a token shows if the second piece breaks the token: the first call has then handed out the
  beginning of the token, where a single call hands out nothing. `Breaks` says which bytes break which token,
  `SplitExact` that nothing else shows, and `SplitShows` gives an input from a new parser.
- `http_parser_parse_url` refuses URLs that section 3 of RFC 3986 allows: a fragment right behind the host, an empty
  port, a host with any character but letters, digits, dots and hyphens, an address of a future version, a scheme with
  digits, `+`, `-` or `.`, and a scheme without a host (src/lib/http_parser.c:2206-2470). `UrlRoundTrip` gives the
  exact condition, `BareSchemeRefused` the case of `mailto:x`.
- When another protocol takes over, the call returns at once; what follows in the same buffer is left unread
  (`StopsEarly`).
- The memchr skip in header values moves to the end of the buffer when no line end is found within 80 KiB; the
  size check then always reports the header as too large (src/lib/http_parser.c:1580-1604).
- The counter of header bytes is not set back at the end of a message, so the trailer of a chunked message counts
  towards the head of the next (`RequestLevel`); a buffer that ends inside a header name or value costs one more; and
  a Content-Length that is refused is not counted (src/lib/http_parser.c:700-701, 1467, 1572, 1736). `Counter` says
  exactly what is counted.
- The upgrade flag alone does not tell that another protocol takes over: it is also set while the body of such a
  message is still being read. `StopShows` says when a call has stopped for the other protocol.
- The port of a URL is converted with `strtoul`, which does not stop at the end of the URL. `PortValueExact` says
  when the value is nevertheless right.
- A fetcher keeps the length of its piece in an `int` of 32 bits (src/HTTPFetcher.h:43, 99), while the reader gives it
  one of 64 (src/QingStorReader.cpp:117-133). With one connection, where the whole range is one piece, a range of 2 GiB
  or more comes out as its beginning, or as everything from its start on; `LengthKeptExact` and `DeliveredExact` say
  when it comes out right, `LongRangeCut` gives an example, `LongTailKept` ranges of 2 to 4 GiB that come out right.
  With chunks of less than 2 GiB it always does (`SmallChunksKept`). A range that ends more than one byte before its
  start is also fetched to the end of the object.
- An open-ended transfer from byte 0 that is started again with bytes buffered, none of them returned, asks for the
  whole object and then delivers these bytes twice; `RestartExact` gives the exact condition and `StartsOver` a run
  that shows it. It takes a read into an empty buffer: a failed fetcher is started again only when nothing could be
  read from it (src/DownloadPipeline.cpp:86-110), which for any other buffer means that nothing is buffered
  (src/HTTPFetcher.cpp:248-290). `qingstorRead` refuses a length of 0 (src/QingStor.cpp:575-577), so that `Download`
  covers every read through it.
- With a chunk size that is 0 or below -1 the loop over the pieces does not end (`EndsExact`).
- With a number of connections that is not positive, `DownloadPipeline::read` reports the end at once; the
  configuration never gives such a number (src/Configuration.cpp:260-267).
- `QingStorWriter::flush` always sends a last part, even an empty one, when the cache is used.

## Model

| member | source | states |
|---|---|---|
| `HttpDispatch.ReexecDescends` | src/lib/http_parser.c:703-2090 | whenever the switch dispatches the same byte again, it does so in a state of lower rank, so a byte is always consumed, refused or ends the call |
| `HttpInvariant.DispatchGood` | src/lib/http_parser.c:705-2090 | from any parser satisfying the invariant a pass fails no assert, keeps the invariant unless it reports an error, and sets and hands out marks only where the token of the state begins and ends |
| `HttpInvariant.NameStepOk` | src/lib/http_parser.c:1365-1464 | the header-name automaton stays in its states, and its index stays within the literal it compares with |
| `HttpInvariant.ValueByteOk` | src/lib/http_parser.c:1580-1731 | the header-value automaton stays in its states and literals, never in `h_connection` or `h_transfer_encoding`, and the length never exceeds 18446744073709551609 |
| `HttpRun.RunOkAll` | src/lib/http_parser.c:697-2107 | over any bytes the invariant holds, no assert fails, every byte is consumed unless the call ends, and at most the returned number of bytes is consumed |
| `HttpRun.StillOpenRuns` | src/lib/http_parser.c:668-695 | from a cut inside a token, the continued and the restarted call agree on parser and length, and on the callbacks except for a failure inside that token |
| `HttpRun.SplitInvariance` | src/lib/http_parser.c:630-2123 | cutting a buffer in two changes neither the parser nor the bytes consumed; the merged callbacks are the same if and only if the first piece does not end inside a token or the second does not fail inside it |
| `HttpSplit.FailsExact` | src/lib/http_parser.c:1149-1737 | bytes fail inside the open token if and only if they break it: a character that may not stand where it does in a URL, a byte in a header name that is neither a token character nor the colon, one in a Content-Length that is no digit or makes it exceed its limit, or another byte than CR behind a chunk; a reason, any other value and any other body never fail |
| `HttpSplit.SplitExact` | src/lib/http_parser.c:630-2123 | cutting a buffer in two changes the callbacks if and only if the first piece ends inside a token and the second breaks it, in these terms |
| `HttpSplit.SplitShows` | src/lib/http_parser.c:2176-2182 | a new parser for requests, given "GET /x" and then DEL, reports a piece of a URL; given both at once it reports none |
| `HttpRun.StopsEarly` | src/lib/http_parser.c:1868-1882 | a call that returns before its buffer ends does not depend on the rest |
| `HttpRun.AnySplit` | src/lib/http_parser.c:630-2123 | however the input is cut into nonempty buffers, the calls end in the same parser with the same count and, unless they fail, the same merged callbacks |
| `HttpRun.ExecKeepsInv` | src/lib/http_parser.c:630-2123 | a call without error leaves a parser satisfying the invariant; an error is reported exactly when the call fails; at most the length of the buffer is returned |
| `HttpSkips.SkipGeneral` | src/lib/http_parser.c:1580-1604 | skipping to the next line end equals looking at the bytes one by one |
| `HttpSkips.SkipBody` | src/lib/http_parser.c:1914-1948 | taking body bytes in one go equals counting them down one by one |
| `HttpParser.HttpParser.Init` | src/lib/http_parser.c:2174-2182 | a new parser has all fields 0 but its type and the state in which it waits for a message of that type, and has counted no header bytes |
| `HttpParser.HttpParser.Header` | src/lib/http_parser.c:1355-1741 | the inner loops over header names and values do what byte-by-byte dispatch does |
| `HttpParser.HttpParser.Body` | src/lib/http_parser.c:1914-1955 | so does the body code, including the last byte that is looked at twice |
| `HttpParser.HttpParser.EndOfInput` | src/lib/http_parser.c:650-666 | an empty buffer ends a body that lasts until the end of input, is ignored between messages, and is an error elsewhere, reported by returning 1 |
| `HttpParser.HttpParser.FlushMarks` | src/lib/http_parser.c:2103-2121 | at most one mark is left at the end of a buffer, and the bytes behind it are handed out |
| `HttpParser.HttpParser.Execute` | src/lib/http_parser.c:630-2123 | unless the header is found too large, the call leaves the parser, the callbacks and the return value that dispatching the bytes one by one gives; a header is found too large if and only if the counter, whose value after the call depends on the parser and the bytes alone, goes beyond 80 KiB, and the callbacks made until then are a beginning of those that would be made without the limit; it never returns more than the length, except 1 for an unexpected end of input |
| `HttpParser.ExecuteInTwo` | src/lib/http_parser.c:630-2123 | the same of two parser objects, one given a buffer, the other its two pieces; below 80 KiB the header limit does not interfere |
| `HttpCounting.PassCounts` | src/lib/http_parser.c:697-2090 | one pass leaves the counter where it must be to end up right, and sets it back exactly at the end of the headers and around the data of a chunk |
| `HttpCounting.LoopLeft` | src/lib/http_parser.c:1355-1741 | the inner loops count in one step what counting byte by byte gives, one more at the end of the buffer, and nothing of a Content-Length that is refused |
| `HttpCounting.BodyUncounted` | src/lib/http_parser.c:1914-2050 | the bytes of bodies and of chunk data are not counted |
| `HttpHeaderLimit.HeadByte` | src/lib/http_parser.c:697-1873 | a byte of a head counts unless the callbacks tell that the headers or the line with a chunk's size are complete, which sets the counter back |
| `HttpHeaderLimit.CleanFits` | src/lib/http_parser.c:148-2090 | a text cut into buffers none of which ends inside a header name or value is found too large if and only if the peak of the whole text is beyond the limit |
| `HttpHeaderLimit.HalfFits` | src/lib/http_parser.c:148-2090 | however a text is cut, it is not found too large if its peak is at most half the limit |
| `HttpMessageLimit.BodyLevel` | src/lib/http_parser.c:1914-2084 | of a body only the lines between chunks and the trailer count, and the trailer stays in the counter |
| `HttpMessageLimit.RequestLevel` | src/lib/http_parser.c:697-2090 | while a request is read the counter peaks at what it held before plus the length of the head, or at the longest line of a chunked body or the length of its trailer; behind it the counter holds the length of the trailer |
| `HttpMessageLimit.ResponseLevel` | src/lib/http_parser.c:697-2090 | the same of responses |
| `HttpMessageLimit.RequestsFit` | src/lib/http_parser.c:148-2123 | a row of requests, cut outside names and values, is found too large if and only if a head with the trailer of the request before, a line between chunks or a trailer exceeds 80 KiB; under any cut it is not if all these keep within 40 KiB |
| `HttpMessageLimit.ResponsesFit` | src/lib/http_parser.c:148-2123 | the same of responses |
| `HttpSessions.StopShows` | src/lib/http_parser.c:1868-1964 | a call without error has stopped for another protocol if and only if the upgrade flag is set and the parser is between messages |
| `HttpSessions.Feed` | src/lib/http_parser.c:630-2123 | feeding buffers until an error or another protocol does what the calls one after the other do, unless the counter goes beyond the limit in one of them; then the callbacks made are a beginning of those of the calls without the limit |
| `HttpSessions.ReadRequests` | src/lib/http_parser.c:630-2182 | a new parser given any row of well-formed requests, in any cut, consumes every byte and tells the application exactly what was written, unless a header is found too large, when it has told a beginning of it; that happens exactly when the counter goes beyond the limit, which for cuts outside names and values, and for rows within half of it, is told by the lengths of heads, lines and trailers |
| `HttpSessions.ReadResponses` | src/lib/http_parser.c:630-2182 | the same of responses, the end of input included |
| `HttpMethods.MethodExact` | src/lib/http_parser.c:949-1108 | a word followed by a space is taken for a method if and only if it is that method's name; everything else is refused |
| `HttpMethods.HeldSteps` | src/lib/http_parser.c:1016-1108 | after each letter the automaton holds the method it must hold to spell a name, and that method agrees with the letters read |
| `HttpHeaderNames.HeaderNameExact` | src/lib/http_parser.c:1305-1482 | a name of token characters followed by a colon is handed out whole; it leads to the special value states if and only if, letter case aside, it is the corresponding name |
| `HttpHeaderNames.TokenExact` | src/lib/http_parser.c:183-223 | the table of token characters holds exactly the characters that are neither controls nor separators (section 2.2 of RFC 2616), lower-cased |
| `HttpHeaderNames.NameStepTracks` | src/lib/http_parser.c:1365-1464 | after every prefix of a name the automaton is where that prefix deserves |
| `HttpLengths.ContentLengthExact` | src/lib/http_parser.c:1523-1637 | a digit followed by digits and spaces is accepted if and only if the number is at most 18446744073709551609, and is then stored exactly |
| `HttpLengths.ChunkSizeExact` | src/lib/http_parser.c:1966-2017 | the digits of a chunk size are accepted if and only if the number is at most 2^64 - 17, and it is then stored exactly |
| `HttpTransferEncoding.TransferEncodingExact` | src/lib/http_parser.c:1514-1708 | after a Transfer-Encoding header the message is chunked if and only if the value is "chunked" in any letter case with any spaces behind it, or it was chunked before |
| `HttpConnection.ConnectionExact` | src/lib/http_parser.c:1532-1731 | for every nonempty value, a Connection header sets exactly the flags of the options that are heard in its pieces; these are the flags of all options in the list if and only if none is missed |
| `HttpConnection.ListExact` | src/lib/http_parser.c:1532-1731 | no flag is ever set that the list does not ask for |
| `HttpConnection.OptionStep` | src/lib/http_parser.c:1667-1726 | after every byte of an option the automaton is where the bytes read so far deserve |
| `HttpConnection.CleanListHeard` | src/lib/http_parser.c:1532-1731 | every option is heard in a list whose elements each begin with a byte whose lower-cased form is a token character, are no unfinished word, and hold no tab or NUL |
| `HttpConnection.OptionsMissed` | src/lib/http_parser.c:1668-1704 | "c,close" and ",close" set no flag, and "close,,keep-alive" sets one |
| `HttpFolding.OptionFolds` | src/lib/http_parser.c:1499-1555 | a continued list of options is listened to on a further line if and only if the line before ends where an option may begin; else its last, unfinished option is lost as well |
| `HttpFolding.IgnoredFolds` | src/lib/http_parser.c:1499-1555 | the lines that continue any other value are handed out as part of it and do nothing else |
| `HttpFolding.LengthFolds` | src/lib/http_parser.c:1499-1530 | a Content-Length that is continued is an error at the blank that begins the next line, its first line having been handed out |
| `HttpVersions.NumberRun` | src/lib/http_parser.c:807-909 | the further digits of a version or status number are accepted if and only if the number stays at most 999, and it is then stored exactly |
| `HttpHeaderLines.LineRun` | src/lib/http_parser.c:1305-1816 | a header line, with or without a value, continued or not, is handed out as its name and its value; it sets the length, the chunked flag, the upgrade flag and the flags of connection options exactly if its name and value say so |
| `HttpHeaderLines.ContinuedLengthRun` | src/lib/http_parser.c:1305-1778 | the same of a whole header line: the call fails there, whatever follows |
| `HttpHeaderLines.LinesRun` | src/lib/http_parser.c:1305-1816 | any number of header lines are handed out in order; the length given last counts, and one line suffices for each flag |
| `HttpBodies.HeadEnd` | src/lib/http_parser.c:1818-1912 | the empty line reports the end of the headers once, tells whether another protocol takes over, and leads to the body that length, coding, status, method and application announce, or ends the message |
| `HttpBodies.BodyExec` | src/lib/http_parser.c:1914-2084 | that body is consumed to its end and handed out exactly |
| `HttpRequests.WholeUrl` | src/lib/http_parser.c:1110-1180 | a URL that the URL automaton accepts, or the server of a CONNECT request, is handed out whole at the space behind it |
| `HttpRequests.FirstLineRun` | src/lib/http_parser.c:949-1303 | the first line of a request, behind any line ends and with any spaces between its parts, gives its method and URL and, if it has one, its version; without one the version counts as 0.9 |
| `HttpRequests.RequestRoundTrip` | src/lib/http_parser.c:630-2123 | a well-formed request, with any headers and the body they announce, is consumed to its last byte, and the application is told exactly its URL, headers and body in order, then one end of message; the parser stops if another protocol takes over, and else waits for another request exactly if version and connection options say so |
| `HttpRequests.RequestsAnySplit` | src/lib/http_parser.c:630-2123 | the same of any number of requests in a row, under any cut into buffers |
| `HttpResponses.FirstLineRun` | src/lib/http_parser.c:753-947 | the first line of a response gives its version, status and, if it has one, its reason; every line end in front of it begins another message |
| `HttpResponses.ResponseRoundTrip` | src/lib/http_parser.c:630-2123 | the same of responses, also with a body that lasts until the end of input |
| `HttpResponses.ResponsesAnySplit` | src/lib/http_parser.c:630-2123 | the same of any number of responses in a row, under any cut into buffers |
| `HttpResponses.EndOfResponse` | src/lib/http_parser.c:650-666 | the end of input ends such a body with one end of message |
| `HttpChunked.ChunkedRoundTrip` | src/lib/http_parser.c:1966-2084 | decoding inverts the encoding of section 4.1 of RFC 7230: the chunks are reported with exactly their data, then the header lines of the trailer, then one end of message, and the encoding is consumed entirely |
| `HttpChunked.ChunkedAnySplit` | src/lib/http_parser.c:1966-2084 | the same under any cut into buffers |
| `HttpChunked.IdentityRoundTrip` | src/lib/http_parser.c:1914-1964 | a body of known length is handed out whole, then one end of message |
| `HttpChunked.IdentityAnySplit` | src/lib/http_parser.c:1914-1964 | the same under any cut into buffers |
| `HttpUrl.StateRankGrows` | src/lib/http_parser.c:482-628 | the URL automaton never returns to an earlier part of the URL |
| `HttpUrl.ScanInBounds` | src/lib/http_parser.c:2376-2439 | every part the first pass finds lies within the URL |
| `HttpUrl.PartsInOrder` | src/lib/http_parser.c:2368-2470 | in an accepted URL the parts are nonempty, within the URL, disjoint and in the order scheme, user information, host, port, path, query, fragment |
| `HttpUrlParser.HttpParserUrl.ParseHost` | src/lib/http_parser.c:2287-2366 | the loop over the host area accepts exactly what the host automaton accepts, and records the spans it stands for |
| `HttpUrlParser.HttpParserUrl.ScanUrl` | src/lib/http_parser.c:2376-2439 | the loop over the URL accepts exactly what the URL automaton accepts, and records the part every byte belongs to |
| `HttpUrlParser.HttpParserUrl.Parse` | src/lib/http_parser.c:2368-2470 | the whole parse, as the function `ParseUrl` |
| `HttpUrlRoundTrip.UrlRoundTrip` | src/lib/http_parser.c:2368-2470 | a URL written from the parts of section 3 of RFC 3986 parses into exactly these parts at the places where they were written, with the value read for its port, if its parts are of the kinds `Taken` lists and that value, which digits following in memory may have changed, is at most 65535; else it is refused |
| `HttpUrlRoundTrip.BareSchemeRefused` | src/lib/http_parser.c:2376-2446 | a URL with a scheme and no double slash behind its colon is refused |
| `HttpUrlRoundTrip.RefusedUrls` | src/lib/http_parser.c:2206-2439 | `http://h#f` and `http://h:/p` are refused |
| `HttpUrlRoundTrip.PartsAreTexts` | src/lib/http_parser.c:2368-2470 | the span of each part covers the text that was written for it |
| `HttpUrlRoundTrip.PortValueExact` | src/lib/http_parser.c:2457-2467 | the port has the value of its digits if and only if what follows the URL in memory does not change the number |
| `BipartiteMatching.MaxBipartiteMatchState.TryAugment` | gmock/src/gmock-matchers.cc:259-285 | a failed search changes nothing and has seen everything it can reach; a successful one makes one more match, keeps all others matched, and does not touch regions found dead before |
| `BipartiteMatching.MaxBipartiteMatchState.Compute` | gmock/src/gmock-matchers.cc:207-238 | the pairs are edges, use no node twice, and no matching of the graph has more edges |
| `BipartiteMatching.NoLargerMatching` | gmock/src/gmock-matchers.cc:207-238 | dead right nodes and live left nodes cover every edge, each with an edge of the matching of its own, so no matching is larger |
| `BipartiteMatching.FindMaxBipartiteMatching` | gmock/src/gmock-matchers.cc:307-310 | a maximum matching of the graph |
| `BipartiteMatching.FindPairing` | gmock/src/gmock-matchers.cc:328-357 | true if and only if every matcher can be given an element of its own |
| `RangeFetch.RestartExact` | src/HTTPFetcher.cpp:140-163 | a start asks for exactly the bytes not held yet if and only if a length is given, or the first byte is not 0, or nothing is buffered |
| `RangeFetch.HTTPFetcher.WriterCallback` | src/HTTPFetcher.cpp:37-74 | a block is accepted if and only if it fits behind the unread bytes, so a block of at most `CURL_MAX_WRITE_SIZE` is refused only while there are unread bytes; the unread bytes are those of the object at their place |
| `RangeFetch.HTTPFetcher.Start` | src/HTTPFetcher.cpp:99-196 | a (re)started transfer delivers what the server sends for the range asked for; a fetcher that was to get the bytes of its piece still is after the start if and only if it has a length, does not begin at byte 0, has returned something or has nothing buffered |
| `RangeFetch.StartsOver` | src/HTTPFetcher.cpp:99-196 | the failing case: from byte 0 on without a length, n bytes taken, a failure, an empty buffer, and a restart; the fetcher then gets the n bytes twice |
| `RangeFetch.HTTPFetcher.HandleResult` | src/HTTPFetcher.cpp:292-339 | the transfer ends as done or failed, keeps its unread bytes, and raises only for a response code of 0 |
| `RangeFetch.HTTPFetcher.Unpause` | src/HTTPFetcher.cpp:267-277 | a transfer drained and unpaused always takes the block that was refused |
| `RangeFetch.HTTPFetcher.Get` | src/HTTPFetcher.cpp:248-290 | returns the next bytes of the range, in order; nothing is left buffered when a buffer that is not empty gets no bytes; the end exactly when the transfer is done and drained, and then everything has been returned |
| `Pipeline.AgreeAfter` | src/DownloadPipeline.cpp:65-171 | whatever one started transfer does, all fetchers stay in agreement with curl, and every transfer in progress belongs to a started fetcher |
| `Pipeline.DownloadPipeline.Launch` | src/DownloadPipeline.cpp:42-63 | starts pending fetchers in order, each in a state that may be started, never more than the number of connections |
| `Pipeline.DownloadPipeline.Finish` | src/DownloadPipeline.cpp:138-166 | the fetcher a result belongs to is always found among the active ones |
| `Pipeline.DownloadPipeline.Read` | src/DownloadPipeline.cpp:65-171 | under any interleaving of arrivals, pauses, failures and restarts, the bytes read so far are a prefix of all that the fetchers get, and all of it when the end is reported; fetchers that are to get the bytes of their pieces remain so through all restarts, unless the buffer is empty and some request does not name a range |
| `ObjectReader.EndsExact` | src/QingStorReader.cpp:117-133 | the loop over the pieces ends after some number of pieces if and only if the chunk size is positive or -1, or the first piece is the last |
| `ObjectReader.LengthKeptExact` | src/HTTPFetcher.cpp:75-77 | a fetcher gets the bytes of its piece if and only if the length fits 32 bits, or the object is too short for the difference to show |
| `ObjectReader.DeliveredExact` | src/QingStorReader.cpp:117-133 | with one connection or a chunk size below 2^32, the pieces together are the requested range if and only if this holds of every piece |
| `ObjectReader.BigChunksCoincide` | src/QingStorReader.cpp:117-133 | with a chunk size of 6 GiB the two pieces of a range of 10 GiB, of an object of 6 to 10 GiB, both come out wrong and are the object together |
| `ObjectReader.SmallChunksKept` | src/QingStorReader.cpp:117-133 | it does with any chunk size below 2^31 |
| `ObjectReader.LongRangeCut` | src/QingStorReader.cpp:90-133 | with one connection a range of 2^32 + 5 bytes comes out as its first 5 |
| `ObjectReader.LongTailKept` | src/QingStorReader.cpp:90-133 | with one connection a range of 2 to 4 GiB comes out right if it goes to the end of the object |
| `ObjectReader.AddChunks` | src/QingStorReader.cpp:117-133 | the pieces of an object are consecutive, at most of the chunk size, and cover exactly the requested range; their fetchers have the lengths that an int of 32 bits makes of these |
| `ObjectReader.SetupPipeline` | src/QingStorReader.cpp:59-138 | the pipeline delivers what these fetchers get, object by object |
| `ObjectReader.QingStorReader.TransferData` | src/QingStorReader.cpp:48-57 | returns the next bytes of these, which remain the same over the call if the buffer is not empty or every request names a range |
| `ObjectReader.Download` | src/QingStorReader.cpp:48-138 | any sequence of reads over any network behaviour yields a prefix of what the fetchers get, and all of it when the end is reported, if no buffer is empty or the first request names a range; it is object[start..end] if no piece is too long |
| `ObjectListing.ExtractPage` | src/Context.cpp:209-296 | a page is added and the result kept sorted; the end is a page that is empty or not full; the marker becomes the last key of the page |
| `ObjectListing.AfterIs` | src/Context.cpp:118-139 | the keys behind the n-th key are exactly those that follow it |
| `ObjectListing.SortedUnique` | src/Context.cpp:36-43 | a list with ascending keys is its only sorted permutation |
| `ObjectListing.ListObjects` | src/Context.cpp:101-207 | against any bucket with a positive limit the listing ends; it succeeds if and only if none of the requests for its pages fails, one more than the number of full pages; it then yields every matching object exactly once in order |
| `MultipartWriter.QingStorWriter.TransferData` | src/QingStorWriter.cpp:60-88 | the parts sent and the bytes buffered are the bytes taken, in order; with the cache, every part sent is as long as the buffer |
| `MultipartWriter.QingStorWriter.DoSend` | src/QingStorWriter.cpp:200-224 | a part that fails is not counted, and no part counted before changes |
| `MultipartWriter.QingStorWriter.Flush` | src/QingStorWriter.cpp:226-240 | afterwards everything taken has been sent and there is at least one part |
| `MultipartWriter.QingStorWriter.Close` | src/QingStorWriter.cpp:242-270 | the upload is completed with parts 0 to n-1, which together are the bytes taken |
| `MultipartWriter.QingStorWriter.Cancel` | src/QingStorWriter.cpp:272-288 | if the service is told, the parts counted are forgotten and nothing is sent at the close; if it cannot be told, nothing changes for the writer |
| `MultipartWriter.CancelObject` | src/QingStor.cpp:517-540 | an upload given up between any writes, whatever fails, makes no object and closes without error; if the service could not be told, closing makes the object of all bytes taken |
| `MultipartWriter.PartNumbers` | src/QingStorWriter.cpp:304-334 | the list sent holds the numbers 0 to n-1, each at its place |
| `MultipartWriter.AssembledJoined` | src/QingStorWriter.cpp:304-334 | assembling the parts by that list gives their data in the order they were sent |
| `MultipartWriter.WriteObject` | src/QingStorWriter.cpp:60-270 | any writes through either mode make the object with exactly their bytes if no request fails; no other object ever comes about |
| `SimpleRegex.AtomClasses` | gtest/src/gtest-port.cc:208-247 | which characters each atom stands for |
| `SimpleRegex.ValidateRegex` | gtest/src/gtest-port.cc:257-311 | accepts exactly the texts of regular expressions |
| `SimpleRegex.PrintUnique` | gtest/src/gtest-port.cc:257-311 | no text can be read as two different regular expressions |
| `SimpleRegex.HeadStep` | gtest/src/gtest-port.cc:320-372 | a match at the head is an allowed number of occurrences of the first atom followed by a match of the rest |
| `SimpleRegex.MatchRepetitionAndRegexAtHead` | gtest/src/gtest-port.cc:320-342 | true if and only if some allowed number of occurrences is followed by a match of the rest |
| `SimpleRegex.MatchRegexAtHead` | gtest/src/gtest-port.cc:347-372 | true if and only if some prefix (the whole string before `$`) is in the language |
| `SimpleRegex.MatchRegexAnywhere` | gtest/src/gtest-port.cc:383-396 | true if and only if some substring is in the language, at the ends that `^` and `$` ask for |
| `LineReader.LinesExact` | src/StackPrinter.cpp:407-452 | the lines to be returned are the one way to cut lines that fit off the start of the file until no further line can be had |
| `LineReader.ReadPersistent` | src/StackPrinter.cpp:107-128 | fewer bytes than asked for only at the end of the file, whatever short reads occur |
| `LineReader.LineReader.ReadLine` | src/StackPrinter.cpp:407-452 | returns the next of these lines; none only when all have been returned or a read has failed |
| `LineReader.ReadLines` | src/StackPrinter.cpp:396-484 | until the first false result exactly these lines are returned, for any pattern of short reads |
| `CDataPrinter.OutputXmlCDataSection` | gtest/src/gtest.cc:3246-3263 | the loop prints the data with every end mark spelt out in two sections; the output reads back as the data |
| `CDataPrinter.FindClose` | gtest/src/gtest.cc:3251-3252 | the first end mark from a place on, with none in between |
| `CDataPrinter.RoundTrip` | gtest/src/gtest.cc:3246-3263 | for every string the output is well-formed content (section 2.7 of XML 1.0) and reads back as the string, also when the data holds end marks or ends in brackets |

## Left out

- HttpParser.HttpParser.Execute: for buffers shorter than 2^32 - 160 KiB, as the 32-bit counter of header bytes can
  wrap in longer ones; failing or mutating callbacks, `http_parser_pause` and the non-strict build are not modelled.
- HttpRun.SplitInvariance: `nread` is not part of the parser it compares, as the source counts a byte twice when a
  header is cut; what it holds, and which runs report the header as too large, is the subject of `HttpCounting`.
- HttpResponses.ResponseRoundTrip: the parser is one for responses that holds no CONNECT from an earlier request.
- HttpUrlParser.HttpParserUrl.Parse: for URLs of at most 65535 bytes, as offsets and lengths have 16 bits.
- HttpUrlRoundTrip.UrlRoundTrip: a URL without scheme and authority is a path or `*`, and one with an authority but no
  scheme is the target of a CONNECT request, as the parser wants it.
- RangeFetch.HTTPFetcher.constructor: the buffer is allocated here and not at the first start.
- RangeFetch.HTTPFetcher.Start: header lines pile up in the request over restarts; only the range is modelled.
- Pipeline.DownloadPipeline.Read: retries are unbounded, so that a download ends is not claimed; waiting for the
  network takes a given list of rounds, and errors of the curl multi interface itself are left out.
- ObjectReader.DeliveredExact: for chunk sizes of 2^32 bytes and more only one direction is stated (`DeliveredKept`);
  `BigChunksCoincide` shows that the other fails.
- ObjectReader.SetupPipeline: wants a chunk size with which the loop of the source ends; ranges do not begin before
  byte 0, and offsets and lengths of 64 bits are taken not to overflow.
- ObjectListing.ListObjects: a page with missing JSON members is an error before any of its keys is added; the
  escaping of keys in URLs is left out.
- ObjectListing.SortObjects: stands for the library's `qsort`, of which only the sorted permutation is used.
- MultipartWriter.QingStorWriter.TransferData: a part upload is one step that succeeds or fails, with or without
  effect at the service; the retries inside a request, which do not rewind its data, are left out.
- MultipartWriter.CancelObject: that the service refuses what is sent for an aborted upload is not modelled.
- SimpleRegex.MatchRegexAnywhere: for valid regular expressions, as the source says, and strings whose length fits
  `size_t`.
- LineReader.ReadPersistent: a read that is interrupted by a signal is one that has not taken place.
- CDataPrinter.RoundTrip: characters that XML does not allow at all are not looked at.
- `Signature`, `Base64Encode`, dates, configuration, the C API and the exception classes: thin wrappers.
- libcurl, OpenSSL, json-c and yaml: other people's code, which appears as the environment or not at all.
- ELF symbol lookup, demangling, death tests, printers and the rest of Google Test and Google Mock: input, output and
  templates.
