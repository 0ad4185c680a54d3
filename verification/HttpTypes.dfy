/** Data model of the incremental HTTP parser: parser record, callbacks, character classes. */
module HttpTypes {

  // One octet, written as a character with code below 256.
  type Byte = c: char | c as int < 256 witness 'a'

  type Bytes = seq<Byte>

  const CR: Byte := '\r'
  const LF: Byte := '\n'
  const NUL: Byte := '\0'

  const ULLONG_MAX: nat := 0xFFFF_FFFF_FFFF_FFFF
  const TWO_64: nat := 0x1_0000_0000_0000_0000
  const TWO_32: nat := 0x1_0000_0000
  const MAX_HEADER_SIZE: nat := 80 * 1024

  const CONNECTION := "connection"
  const PROXY_CONNECTION := "proxy-connection"
  const CONTENT_LENGTH := "content-length"
  const TRANSFER_ENCODING := "transfer-encoding"
  const UPGRADE := "upgrade"
  const CHUNKED := "chunked"
  const KEEP_ALIVE := "keep-alive"
  const CLOSE := "close"

  datatype State =
    | Dead
    | StartReqOrRes | ResOrRespH
    | StartRes | ResH | ResHT | ResHTT | ResHTTP
    | ResFirstHttpMajor | ResHttpMajor | ResFirstHttpMinor | ResHttpMinor
    | ResFirstStatusCode | ResStatusCode | ResStatusStart | ResStatus | ResLineAlmostDone
    | StartReq | ReqMethod | ReqSpacesBeforeUrl
    | ReqSchema | ReqSchemaSlash | ReqSchemaSlashSlash
    | ReqServerStart | ReqServer | ReqServerWithAt
    | ReqPath | ReqQueryStringStart | ReqQueryString | ReqFragmentStart | ReqFragment
    | ReqHttpStart | ReqHttpH | ReqHttpHT | ReqHttpHTT | ReqHttpHTTP
    | ReqFirstHttpMajor | ReqHttpMajor | ReqFirstHttpMinor | ReqHttpMinor | ReqLineAlmostDone
    | HeaderFieldStart | HeaderField
    | HeaderValueDiscardWs | HeaderValueDiscardWsAlmostDone | HeaderValueDiscardLws
    | HeaderValueStart | HeaderValue | HeaderValueLws | HeaderAlmostDone
    | ChunkSizeStart | ChunkSize | ChunkParameters | ChunkSizeAlmostDone
    | HeadersAlmostDone | HeadersDone
    | ChunkData | ChunkDataAlmostDone | ChunkDataDone
    | BodyIdentity | BodyIdentityEof | MessageDone

  datatype HeaderState =
    | General | C | CO | CON
    | MatchingConnection | MatchingProxyConnection | MatchingContentLength
    | MatchingTransferEncoding | MatchingUpgrade
    | Connection | ContentLength | TransferEncoding | Upgrade
    | MatchingTransferEncodingChunked
    | MatchingConnectionTokenStart | MatchingConnectionKeepAlive | MatchingConnectionClose
    | MatchingConnectionUpgrade | MatchingConnectionToken
    | TransferEncodingChunked | ConnectionKeepAlive | ConnectionClose | ConnectionUpgrade

  datatype Method =
    | DELETE | GET | HEAD | POST | PUT | CONNECT | OPTIONS | TRACE | COPY | LOCK | MKCOL | MOVE
    | PROPFIND | PROPPATCH | SEARCH | UNLOCK | BIND | REBIND | UNBIND | ACL | REPORT | MKACTIVITY
    | CHECKOUT | MERGE | MSEARCH | NOTIFY | SUBSCRIBE | UNSUBSCRIBE | PATCH | PURGE | MKCALENDAR

  datatype ParserType = Request | Response | Both

  datatype Errno =
    | Ok | InvalidEofState | HeaderOverflow | ClosedConnection | InvalidVersion | InvalidStatus
    | InvalidMethod | InvalidUrl | LfExpected | InvalidHeaderToken | InvalidContentLength
    | InvalidChunkSize | InvalidConstant | StrictFailed

  datatype Flags = Flags(
    chunked: bool, keepAlive: bool, close: bool, connUpgrade: bool,
    trailing: bool, upgrade: bool, skipBody: bool)

  const NO_FLAGS := Flags(false, false, false, false, false, false, false)

  // The fields of `struct http_parser` except `nread`, which lives beside it in the parser object.
  // `answerNoBody` is what the application's on_headers_complete callback answers: true for 1.
  datatype Parser = Parser(
    ptype: ParserType, flags: Flags, state: State, hstate: HeaderState, index: nat,
    contentLength: nat, major: nat, minor: nat, status: nat, meth: Method, errno: Errno,
    upgrade: bool, answerNoBody: bool)

  // The parser as http_parser_init leaves it.
  function Fresh(t: ParserType, answerNoBody: bool): Parser {
    var state := match t case Request => StartReq case Response => StartRes case Both => StartReqOrRes;
    Parser(t, NO_FLAGS, state, General, 0, 0, 0, 0, 0, DELETE, Ok, false, answerNoBody)
  }

  datatype Kind = UrlData | StatusData | FieldData | ValueData | BodyData

  // One callback into the application.
  datatype Event =
    | MessageBegin
    | Data(kind: Kind, bytes: Bytes)
    | HeadersComplete(upgrade: bool)
    | ChunkHeader(length: nat)
    | ChunkComplete
    | MessageComplete

  type Trace = seq<Event>

  /** Appends a callback to a trace, gluing a data callback onto a preceding one of its kind. */
  function Emit(t: Trace, e: Event): Trace {
    if e.Data? && t != [] && t[|t| - 1].Data? && t[|t| - 1].kind == e.kind
    then t[..|t| - 1] + [Data(e.kind, t[|t| - 1].bytes + e.bytes)]
    else t + [e]
  }

  /** The trace of a list of callbacks with adjacent data callbacks of one kind merged. */
  function Merged(es: seq<Event>): Trace {
    if es == [] then [] else Emit(Merged(es[..|es| - 1]), es[|es| - 1])
  }

  /** Cutting a run of data in two and merging is the same as not cutting it. */
  lemma EmitGlue(t: Trace, k: Kind, x: Bytes, y: Bytes)
    ensures Emit(Emit(t, Data(k, x)), Data(k, y)) == Emit(t, Data(k, x + y))
  {
    var u := Emit(t, Data(k, x));
    var last := u[|u| - 1];
    assert last.Data? && last.kind == k;
    assert Emit(u, Data(k, y)) == u[..|u| - 1] + [Data(k, last.bytes + y)];
    if t != [] && t[|t| - 1].Data? && t[|t| - 1].kind == k {
      assert u[..|u| - 1] == t[..|t| - 1];
      assert (t[|t| - 1].bytes + x) + y == t[|t| - 1].bytes + (x + y);
    } else {
      assert u[..|u| - 1] == t;
    }
  }

  /** A nonempty piece of data always shows in the merged trace. */
  lemma EmitShows(t: Trace, k: Kind, x: Bytes)
    requires x != []
    ensures Emit(t, Data(k, x)) != t
  {
    if t != [] && t[|t| - 1].Data? && t[|t| - 1].kind == k {
      assert |Emit(t, Data(k, x))[|t| - 1].bytes| == |t[|t| - 1].bytes| + |x|;
    }
  }

  // ---------- character classes (strict build)

  function Lower(c: Byte): Byte {
    if (c as int / 32) % 2 == 0 then (c as int + 32) as char else c
  }

  predicate IsAlpha(c: Byte) { 'a' <= Lower(c) <= 'z' }

  predicate IsNum(c: Byte) { '0' <= c <= '9' }

  predicate IsAlphaNum(c: Byte) { IsAlpha(c) || IsNum(c) }

  predicate IsHex(c: Byte) { IsNum(c) || 'a' <= Lower(c) <= 'f' }

  predicate IsMark(c: Byte) {
    c == '-' || c == '_' || c == '.' || c == '!' || c == '~' || c == '*' || c == '\'' || c == '(' || c == ')'
  }

  predicate IsUserinfoChar(c: Byte) {
    IsAlphaNum(c) || IsMark(c) || c == '%' || c == ';' || c == ':' || c == '&' || c == '=' || c == '+'
    || c == '$' || c == ','
  }

  predicate IsHostChar(c: Byte) { IsAlphaNum(c) || c == '.' || c == '-' }

  // The bitmap normal_url_char: printable ASCII except space, '#' and '?'.
  predicate IsUrlChar(c: Byte) { '!' <= c <= '~' && c != '#' && c != '?' }

  // The table `tokens`: 0 for a byte that is no token character, else the lower-cased byte.
  function TokenChar(c: Byte): Byte {
    if 'A' <= c <= 'Z' then (c as int + 32) as char
    else if 'a' <= c <= 'z' || IsNum(c) || c == '!' || c == '#' || c == '$' || c == '%' || c == '&'
            || c == '\'' || c == '*' || c == '+' || c == '-' || c == '.' || c == '^' || c == '_'
            || c == '`' || c == '|' || c == '~' then c
    else NUL
  }

  function Digit(c: Byte): nat
    requires IsNum(c)
  {
    c as int - '0' as int
  }

  // The table `unhex`, -1 for no digit. Only its first 128 entries are spelled out, so the
  // bytes from 128 up read as the digit 0.
  function Unhex(c: Byte): int {
    if IsNum(c) then c as int - '0' as int
    else if 'a' <= c <= 'f' then c as int - 'a' as int + 10
    else if 'A' <= c <= 'F' then c as int - 'A' as int + 10
    else if c as int >= 128 then 0
    else -1
  }

  function MethodString(m: Method): string {
    match m
    case DELETE => "DELETE" case GET => "GET" case HEAD => "HEAD" case POST => "POST"
    case PUT => "PUT" case CONNECT => "CONNECT" case OPTIONS => "OPTIONS" case TRACE => "TRACE"
    case COPY => "COPY" case LOCK => "LOCK" case MKCOL => "MKCOL" case MOVE => "MOVE"
    case PROPFIND => "PROPFIND" case PROPPATCH => "PROPPATCH" case SEARCH => "SEARCH"
    case UNLOCK => "UNLOCK" case BIND => "BIND" case REBIND => "REBIND" case UNBIND => "UNBIND"
    case ACL => "ACL" case REPORT => "REPORT" case MKACTIVITY => "MKACTIVITY"
    case CHECKOUT => "CHECKOUT" case MERGE => "MERGE" case MSEARCH => "M-SEARCH"
    case NOTIFY => "NOTIFY" case SUBSCRIBE => "SUBSCRIBE" case UNSUBSCRIBE => "UNSUBSCRIBE"
    case PATCH => "PATCH" case PURGE => "PURGE" case MKCALENDAR => "MKCALENDAR"
  }

  // The character of a C string literal at an index not past its terminating NUL.
  function CharAt(s: string, i: nat): char {
    if i < |s| then s[i] else NUL
  }
}
