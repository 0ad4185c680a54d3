/** One pass of one byte through the state switch of http_parser_execute. */
module HttpDispatch {
  import opened HttpTypes

  // What a pass does to the marks and callbacks. Mark sets the mark of a kind unless it is set;
  // Flush hands out the marked bytes and clears the mark; FlushIncl does so with the current byte
  // included.
  datatype Act =
    | NoAct
    | Mark(kind: Kind)
    | Flush(kind: Kind)
    | MarkFlush(kind: Kind)
    | MarkFlushIncl(kind: Kind)
    | Notify(event: Event)

  // How a pass ends: the byte is consumed, the same byte is dispatched again, the parser reports an
  // error, the parser returns because another protocol takes over, or an assert of the C code fails.
  datatype Control = Next | Reexec | Failed | Exit | AssertFailed

  datatype Outcome = Outcome(st: Parser, act: Act, ctl: Control)

  function Go(s: Parser): Outcome { Outcome(s, NoAct, Next) }

  function Fail(s: Parser, e: Errno): Outcome { Outcome(s.(errno := e), NoAct, Failed) }

  function Again(s: Parser, state: State): Outcome { Outcome(s.(state := state), NoAct, Reexec) }

  // STRICT_CHECK: the byte must be the expected one.
  function Expect(s: Parser, ch: Byte, want: Byte, next: State): Outcome {
    if ch != want then Fail(s, StrictFailed) else Go(s.(state := next))
  }

  predicate ParsingHeader(s: State) {
    !s.ChunkData? && !s.ChunkDataAlmostDone? && !s.ChunkDataDone?
    && !s.BodyIdentity? && !s.BodyIdentityEof? && !s.MessageDone?
  }

  // ---------- what the message's end means

  predicate NeedsEof(s: Parser) {
    if s.ptype == Request then false
    else if s.status / 100 == 1 || s.status == 204 || s.status == 304 || s.flags.skipBody then false
    else !(s.flags.chunked || s.contentLength != ULLONG_MAX)
  }

  predicate ShouldKeepAlive(s: Parser) {
    if s.major > 0 && s.minor > 0
    then !s.flags.close && !NeedsEof(s)
    else s.flags.keepAlive && !NeedsEof(s)
  }

  function NewMessage(s: Parser): State {
    if ShouldKeepAlive(s) then (if s.ptype == Request then StartReq else StartRes) else Dead
  }

  function Complete(s: Parser, ctl: Control): Outcome {
    Outcome(s.(state := NewMessage(s)), Notify(MessageComplete), ctl)
  }

  // ---------- URL bytes

  function ParseUrlChar(s: State, ch: Byte): State {
    if ch == ' ' || ch == CR || ch == LF || ch == '\t' || ch as int == 12 then Dead else
    match s
    case ReqSpacesBeforeUrl =>
      if ch == '/' || ch == '*' then ReqPath else if IsAlpha(ch) then ReqSchema else Dead
    case ReqSchema =>
      if IsAlpha(ch) then ReqSchema else if ch == ':' then ReqSchemaSlash else Dead
    case ReqSchemaSlash => if ch == '/' then ReqSchemaSlashSlash else Dead
    case ReqSchemaSlashSlash => if ch == '/' then ReqServerStart else Dead
    case ReqServerWithAt => if ch == '@' then Dead else UrlServerChar(ch)
    case ReqServerStart => UrlServerChar(ch)
    case ReqServer => UrlServerChar(ch)
    case ReqPath =>
      if IsUrlChar(ch) then ReqPath
      else if ch == '?' then ReqQueryStringStart else if ch == '#' then ReqFragmentStart else Dead
    case ReqQueryStringStart => UrlQueryChar(ch)
    case ReqQueryString => UrlQueryChar(ch)
    case ReqFragmentStart =>
      if IsUrlChar(ch) || ch == '?' then ReqFragment else if ch == '#' then ReqFragmentStart else Dead
    case ReqFragment => if IsUrlChar(ch) || ch == '?' || ch == '#' then ReqFragment else Dead
    case _ => Dead
  }

  function UrlServerChar(ch: Byte): State {
    if ch == '/' then ReqPath
    else if ch == '?' then ReqQueryStringStart
    else if ch == '@' then ReqServerWithAt
    else if IsUserinfoChar(ch) || ch == '[' || ch == ']' then ReqServer
    else Dead
  }

  function UrlQueryChar(ch: Byte): State {
    if IsUrlChar(ch) || ch == '?' then ReqQueryString else if ch == '#' then ReqFragmentStart else Dead
  }

  predicate IsUrlState(s: State) {
    s.ReqSchema? || s.ReqSchemaSlash? || s.ReqSchemaSlashSlash? || s.ReqServerStart? || s.ReqServer?
    || s.ReqServerWithAt? || s.ReqPath? || s.ReqQueryStringStart? || s.ReqQueryString?
    || s.ReqFragmentStart? || s.ReqFragment?
  }

  // A URL state in which the URL may end.
  predicate IsUrlEndState(s: State) {
    IsUrlState(s) && !s.ReqSchema? && !s.ReqSchemaSlash? && !s.ReqSchemaSlashSlash? && !s.ReqServerStart?
  }

  function DispatchUrl(s: Parser, ch: Byte): Outcome {
    if ch == ' ' && IsUrlEndState(s.state) then Outcome(s.(state := ReqHttpStart), Flush(UrlData), Next)
    else if (ch == CR || ch == LF) && IsUrlEndState(s.state) then
      Outcome(s.(major := 0, minor := 9, state := if ch == CR then ReqLineAlmostDone else HeaderFieldStart),
              Flush(UrlData), Next)
    else
      var next := ParseUrlChar(s.state, ch);
      if next == Dead then Fail(s.(state := if ch == ' ' || ch == CR || ch == LF then s.state else Dead), InvalidUrl)
      else Go(s.(state := next))
  }

  // ---------- request methods

  function FirstMethod(ch: Byte): (Method, bool) {
    match ch
    case 'A' => (ACL, true) case 'B' => (BIND, true) case 'C' => (CONNECT, true)
    case 'D' => (DELETE, true) case 'G' => (GET, true) case 'H' => (HEAD, true)
    case 'L' => (LOCK, true) case 'M' => (MKCOL, true) case 'N' => (NOTIFY, true)
    case 'O' => (OPTIONS, true) case 'P' => (POST, true) case 'R' => (REPORT, true)
    case 'S' => (SUBSCRIBE, true) case 'T' => (TRACE, true) case 'U' => (UNLOCK, true)
    case _ => (DELETE, false)
  }

  // The method to go on with when `ch` is not the next letter of `m`, and whether there is one.
  function SwitchMethod(m: Method, index: nat, ch: Byte): (Method, bool) {
    if m == CONNECT then
      if index == 1 && ch == 'H' then (CHECKOUT, true)
      else if index == 2 && ch == 'P' then (COPY, true) else (m, false)
    else if m == MKCOL then
      if index == 1 && ch == 'O' then (MOVE, true)
      else if index == 1 && ch == 'E' then (MERGE, true)
      else if index == 1 && ch == '-' then (MSEARCH, true)
      else if index == 2 && ch == 'A' then (MKACTIVITY, true)
      else if index == 3 && ch == 'A' then (MKCALENDAR, true) else (m, false)
    else if m == SUBSCRIBE then
      if index == 1 && ch == 'E' then (SEARCH, true) else (m, false)
    else if m == REPORT then
      if index == 2 && ch == 'B' then (REBIND, true) else (m, false)
    else if index == 1 && m == POST then
      if ch == 'R' then (PROPFIND, true)
      else if ch == 'U' then (PUT, true)
      else if ch == 'A' then (PATCH, true) else (m, false)
    else if index == 2 then
      if m == PUT then (if ch == 'R' then (PURGE, true) else (m, false))
      else if m == UNLOCK then
        (if ch == 'S' then (UNSUBSCRIBE, true) else if ch == 'B' then (UNBIND, true) else (m, false))
      else (m, false)
    else if index == 4 && m == PROPFIND && ch == 'P' then (PROPPATCH, true)
    else (m, false)
  }

  function DispatchStartReq(s0: Parser, ch: Byte): Outcome {
    if ch == CR || ch == LF then Go(s0) else
    var s := s0.(flags := NO_FLAGS, contentLength := ULLONG_MAX);
    if !IsAlpha(ch) then Fail(s, InvalidMethod) else
    var (m, known) := FirstMethod(ch);
    var s1 := s.(meth := m, index := 1);
    if !known then Fail(s1, InvalidMethod)
    else Outcome(s1.(state := ReqMethod), Notify(MessageBegin), Next)
  }

  function DispatchMethod(s: Parser, ch: Byte): Outcome {
    if ch == NUL then Fail(s, InvalidMethod) else
    var matcher := MethodString(s.meth);
    if ch == ' ' && CharAt(matcher, s.index) == NUL then
      Go(s.(state := ReqSpacesBeforeUrl, index := s.index + 1))
    else if ch == CharAt(matcher, s.index) then Go(s.(index := s.index + 1))
    else
      var (m, known) := SwitchMethod(s.meth, s.index, ch);
      if known then Go(s.(meth := m, index := s.index + 1)) else Fail(s, InvalidMethod)
  }

  // ---------- start lines

  // A further digit of a version or status number, which may not exceed 999.
  function PutMajor(s: Parser, ch: Byte): Outcome {
    if !IsNum(ch) then Fail(s, InvalidVersion) else
    var v := s.major * 10 + Digit(ch);
    if v > 999 then Fail(s.(major := v), InvalidVersion) else Go(s.(major := v))
  }

  function PutMinor(s: Parser, ch: Byte): Outcome {
    if !IsNum(ch) then Fail(s, InvalidVersion) else
    var v := s.minor * 10 + Digit(ch);
    if v > 999 then Fail(s.(minor := v), InvalidVersion) else Go(s.(minor := v))
  }

  function FirstMinor(s: Parser, ch: Byte, next: State): Outcome {
    if !IsNum(ch) then Fail(s, InvalidVersion) else Go(s.(minor := Digit(ch), state := next))
  }

  function DispatchStatusCode(s: Parser, ch: Byte): Outcome {
    if IsNum(ch) then
      var v := s.status * 10 + Digit(ch);
      if v > 999 then Fail(s.(status := v), InvalidStatus) else Go(s.(status := v))
    else if ch == ' ' then Go(s.(state := ResStatusStart))
    else if ch == CR then Go(s.(state := ResLineAlmostDone))
    else if ch == LF then Go(s.(state := HeaderFieldStart))
    else Fail(s, InvalidStatus)
  }

  predicate IsResponseState(s: State) {
    s.ResH? || s.ResHT? || s.ResHTT? || s.ResHTTP? || s.ResFirstHttpMajor? || s.ResHttpMajor?
    || s.ResFirstHttpMinor? || s.ResHttpMinor? || s.ResFirstStatusCode? || s.ResStatusCode?
    || s.ResStatusStart? || s.ResStatus? || s.ResLineAlmostDone?
  }

  function DispatchResponseLine(s: Parser, ch: Byte): Outcome {
    match s.state
    case ResH => Expect(s, ch, 'T', ResHT)
    case ResHT => Expect(s, ch, 'T', ResHTT)
    case ResHTT => Expect(s, ch, 'P', ResHTTP)
    case ResHTTP => Expect(s, ch, '/', ResFirstHttpMajor)
    case ResFirstHttpMajor =>
      if !IsNum(ch) then Fail(s, InvalidVersion) else Go(s.(major := Digit(ch), state := ResHttpMajor))
    case ResHttpMajor => if ch == '.' then Go(s.(state := ResFirstHttpMinor)) else PutMajor(s, ch)
    case ResFirstHttpMinor => FirstMinor(s, ch, ResHttpMinor)
    case ResHttpMinor => if ch == ' ' then Go(s.(state := ResFirstStatusCode)) else PutMinor(s, ch)
    case ResFirstStatusCode =>
      if IsNum(ch) then Go(s.(status := Digit(ch), state := ResStatusCode))
      else if ch == ' ' then Go(s) else Fail(s, InvalidStatus)
    case ResStatusCode => DispatchStatusCode(s, ch)
    case ResStatusStart =>
      if ch == CR then Go(s.(state := ResLineAlmostDone))
      else if ch == LF then Go(s.(state := HeaderFieldStart))
      else Outcome(s.(state := ResStatus, index := 0), Mark(StatusData), Next)
    case ResStatus =>
      if ch == CR then Outcome(s.(state := ResLineAlmostDone), Flush(StatusData), Next)
      else if ch == LF then Outcome(s.(state := HeaderFieldStart), Flush(StatusData), Next)
      else Go(s)
    case _ => Expect(s, ch, LF, HeaderFieldStart)
  }

  predicate IsRequestState(s: State) {
    s.ReqSpacesBeforeUrl? || s.ReqHttpStart? || s.ReqHttpH? || s.ReqHttpHT? || s.ReqHttpHTT? || s.ReqHttpHTTP?
    || s.ReqFirstHttpMajor? || s.ReqHttpMajor? || s.ReqFirstHttpMinor? || s.ReqHttpMinor? || s.ReqLineAlmostDone?
  }

  function DispatchUrlStart(s: Parser, ch: Byte): Outcome {
    if ch == ' ' then Go(s) else
    var next := ParseUrlChar(if s.meth == CONNECT then ReqServerStart else ReqSpacesBeforeUrl, ch);
    if next == Dead then Fail(s.(state := Dead), InvalidUrl)
    else Outcome(s.(state := next), Mark(UrlData), Next)
  }

  function DispatchRequestLine(s: Parser, ch: Byte): Outcome {
    match s.state
    case ReqSpacesBeforeUrl => DispatchUrlStart(s, ch)
    case ReqHttpStart =>
      if ch == 'H' then Go(s.(state := ReqHttpH)) else if ch == ' ' then Go(s) else Fail(s, InvalidConstant)
    case ReqHttpH => Expect(s, ch, 'T', ReqHttpHT)
    case ReqHttpHT => Expect(s, ch, 'T', ReqHttpHTT)
    case ReqHttpHTT => Expect(s, ch, 'P', ReqHttpHTTP)
    case ReqHttpHTTP => Expect(s, ch, '/', ReqFirstHttpMajor)
    case ReqFirstHttpMajor =>
      if !('1' <= ch <= '9') then Fail(s, InvalidVersion) else Go(s.(major := Digit(ch), state := ReqHttpMajor))
    case ReqHttpMajor => if ch == '.' then Go(s.(state := ReqFirstHttpMinor)) else PutMajor(s, ch)
    case ReqFirstHttpMinor => FirstMinor(s, ch, ReqHttpMinor)
    case ReqHttpMinor =>
      if ch == CR then Go(s.(state := ReqLineAlmostDone))
      else if ch == LF then Go(s.(state := HeaderFieldStart)) else PutMinor(s, ch)
    case _ => if ch != LF then Fail(s, LfExpected) else Go(s.(state := HeaderFieldStart))
  }

  function DispatchStart(s: Parser, ch: Byte): Outcome {
    match s.state
    case Dead => if ch == CR || ch == LF then Go(s) else Fail(s, ClosedConnection)
    case StartReqOrRes =>
      if ch == CR || ch == LF then Go(s) else
      var s1 := s.(flags := NO_FLAGS, contentLength := ULLONG_MAX);
      if ch == 'H' then Outcome(s1.(state := ResOrRespH), Notify(MessageBegin), Next)
      else Again(s1.(ptype := Request), StartReq)
    case ResOrRespH =>
      if ch == 'T' then Go(s.(ptype := Response, state := ResHT))
      else if ch != 'E' then Fail(s, InvalidConstant)
      else Go(s.(ptype := Request, meth := HEAD, index := 2, state := ReqMethod))
    case StartRes =>
      var s1 := s.(flags := NO_FLAGS, contentLength := ULLONG_MAX);
      if ch == 'H' then Outcome(s1.(state := ResH), Notify(MessageBegin), Next)
      else if ch == CR || ch == LF then Outcome(s1, Notify(MessageBegin), Next)
      else Fail(s1, InvalidConstant)
    case StartReq => DispatchStartReq(s, ch)
    case _ => DispatchMethod(s, ch)
  }

  function DispatchStartLine(s: Parser, ch: Byte): Outcome {
    if IsUrlState(s.state) then DispatchUrl(s, ch)
    else if IsResponseState(s.state) then DispatchResponseLine(s, ch)
    else if IsRequestState(s.state) then DispatchRequestLine(s, ch)
    else DispatchStart(s, ch)
  }

  // ---------- header names

  // One step along a literal: `i` is the index just reached.
  function Follow(literal: string, i: nat, c: Byte, stay: HeaderState, full: HeaderState, miss: HeaderState)
    : HeaderState
  {
    if i > |literal| || c != CharAt(literal, i) then miss
    else if i + 1 == |literal| then full else stay
  }

  predicate IsNameState(h: HeaderState) {
    h.General? || h.C? || h.CO? || h.CON? || h.MatchingConnection? || h.MatchingProxyConnection?
    || h.MatchingContentLength? || h.MatchingTransferEncoding? || h.MatchingUpgrade?
    || h.Connection? || h.ContentLength? || h.TransferEncoding? || h.Upgrade?
  }

  predicate CountsIndex(h: HeaderState) {
    h.C? || h.CO? || h.CON? || h.MatchingConnection? || h.MatchingProxyConnection?
    || h.MatchingContentLength? || h.MatchingTransferEncoding? || h.MatchingUpgrade?
  }

  // The header state after one more token character `c` (lower-cased `ch`) of a header name.
  function NameStep(h: HeaderState, i: nat, ch: Byte, c: Byte): HeaderState {
    match h
    case C => if c == 'o' then CO else General
    case CO => if c == 'n' then CON else General
    case CON => if c == 'n' then MatchingConnection else if c == 't' then MatchingContentLength else General
    case MatchingConnection => Follow(CONNECTION, i + 1, c, h, Connection, General)
    case MatchingProxyConnection => Follow(PROXY_CONNECTION, i + 1, c, h, Connection, General)
    case MatchingContentLength => Follow(CONTENT_LENGTH, i + 1, c, h, ContentLength, General)
    case MatchingTransferEncoding => Follow(TRANSFER_ENCODING, i + 1, c, h, TransferEncoding, General)
    case MatchingUpgrade => Follow(UPGRADE, i + 1, c, h, Upgrade, General)
    case _ => if h.General? || ch != ' ' then General else h
  }

  function NameByte(s: Parser, ch: Byte): Parser {
    s.(hstate := NameStep(s.hstate, s.index, ch, TokenChar(ch)),
       index := if CountsIndex(s.hstate) then s.index + 1 else s.index)
  }

  function FirstNameState(c: Byte): HeaderState {
    match c
    case 'c' => C
    case 'p' => MatchingProxyConnection
    case 't' => MatchingTransferEncoding
    case 'u' => MatchingUpgrade
    case _ => General
  }

  function DispatchFieldStart(s: Parser, ch: Byte): Outcome {
    if ch == CR then Go(s.(state := HeadersAlmostDone))
    else if ch == LF then Again(s, HeadersAlmostDone)
    else if TokenChar(ch) == NUL then Fail(s, InvalidHeaderToken)
    else Outcome(s.(state := HeaderField, index := 0, hstate := FirstNameState(TokenChar(ch))), Mark(FieldData), Next)
  }

  function DispatchField(s: Parser, ch: Byte): Outcome {
    if TokenChar(ch) != NUL then
      if IsNameState(s.hstate) then Go(NameByte(s, ch)) else Outcome(s, NoAct, AssertFailed)
    else if ch == ':' then Outcome(s.(state := HeaderValueDiscardWs), Flush(FieldData), Next)
    else Fail(s, InvalidHeaderToken)
  }

  // ---------- header values

  function DispatchValueStart(s: Parser, ch: Byte): Outcome {
    var c := Lower(ch);
    var s1 := s.(state := HeaderValue, index := 0);
    if s.hstate.ContentLength? && !IsNum(ch) then Fail(s1, InvalidContentLength) else
    Outcome(match s.hstate
            case Upgrade => s1.(flags := s.flags.(upgrade := true), hstate := General)
            case TransferEncoding => s1.(hstate := if c == 'c' then MatchingTransferEncodingChunked else General)
            case ContentLength => s1.(contentLength := Digit(ch))
            case Connection =>
              s1.(hstate := if c == 'k' then MatchingConnectionKeepAlive
                            else if c == 'c' then MatchingConnectionClose
                            else if c == 'u' then MatchingConnectionUpgrade
                            else MatchingConnectionToken)
            case MatchingConnectionTokenStart => s1
            case _ => s1.(hstate := General),
            Mark(ValueData), Next)
  }

  // A connection option has been recognised: record it.
  function SetOption(f: Flags, h: HeaderState): Flags {
    match h
    case ConnectionKeepAlive => f.(keepAlive := true)
    case ConnectionClose => f.(close := true)
    case ConnectionUpgrade => f.(connUpgrade := true)
    case _ => f
  }

  // The flags a finished header value leaves behind.
  function FinishValue(f: Flags, h: HeaderState): Flags {
    if h.TransferEncodingChunked? then f.(chunked := true) else SetOption(f, h)
  }

  predicate LengthOverflows(v: nat) { (ULLONG_MAX - 10) / 10 < v }

  // One byte, neither CR nor LF, inside a header value.
  function ValueByte(s: Parser, ch: Byte): Outcome {
    var c := Lower(ch);
    var i := s.index + 1;
    match s.hstate
    case General => Go(s)
    case Connection => Outcome(s, NoAct, AssertFailed)
    case TransferEncoding => Outcome(s, NoAct, AssertFailed)
    case ContentLength =>
      if ch == ' ' then Go(s)
      else if !IsNum(ch) || LengthOverflows(s.contentLength) then Fail(s, InvalidContentLength)
      else Go(s.(contentLength := (s.contentLength * 10 + Digit(ch)) % TWO_64))
    case MatchingTransferEncodingChunked =>
      Go(s.(index := i, hstate := Follow(CHUNKED, i, c, s.hstate, TransferEncodingChunked, General)))
    case MatchingConnectionTokenStart =>
      Go(s.(hstate := if c == 'k' then MatchingConnectionKeepAlive
                      else if c == 'c' then MatchingConnectionClose
                      else if c == 'u' then MatchingConnectionUpgrade
                      else if TokenChar(c) != NUL then MatchingConnectionToken
                      else if c == ' ' || c == '\t' then s.hstate
                      else General))
    case MatchingConnectionKeepAlive =>
      Go(s.(index := i, hstate := Follow(KEEP_ALIVE, i, c, s.hstate, ConnectionKeepAlive, MatchingConnectionToken)))
    case MatchingConnectionClose =>
      Go(s.(index := i, hstate := Follow(CLOSE, i, c, s.hstate, ConnectionClose, MatchingConnectionToken)))
    case MatchingConnectionUpgrade =>
      Go(s.(index := i, hstate := Follow(UPGRADE, i, c, s.hstate, ConnectionUpgrade, MatchingConnectionToken)))
    case MatchingConnectionToken =>
      if ch == ',' then Go(s.(hstate := MatchingConnectionTokenStart, index := 0)) else Go(s)
    case TransferEncodingChunked => if ch != ' ' then Go(s.(hstate := General)) else Go(s)
    case ConnectionKeepAlive => OptionByte(s, ch)
    case ConnectionClose => OptionByte(s, ch)
    case ConnectionUpgrade => OptionByte(s, ch)
    case _ => Go(s.(hstate := General))
  }

  // A byte after a recognised connection option.
  function OptionByte(s: Parser, ch: Byte): Outcome {
    if ch == ',' then
      Go(s.(flags := SetOption(s.flags, s.hstate), hstate := MatchingConnectionTokenStart, index := 0))
    else if ch != ' ' then Go(s.(hstate := MatchingConnectionToken))
    else Go(s)
  }

  function DispatchValue(s: Parser, ch: Byte): Outcome {
    if ch == CR then Outcome(s.(state := HeaderAlmostDone), Flush(ValueData), Next)
    else if ch == LF then Outcome(s.(state := HeaderAlmostDone), Flush(ValueData), Reexec)
    else ValueByte(s, ch)
  }

  function DispatchHeader(s: Parser, ch: Byte): Outcome {
    match s.state
    case HeaderFieldStart => DispatchFieldStart(s, ch)
    case HeaderField => DispatchField(s, ch)
    case HeaderValueDiscardWs =>
      if ch == ' ' || ch == '\t' then Go(s)
      else if ch == CR then Go(s.(state := HeaderValueDiscardWsAlmostDone))
      else if ch == LF then Go(s.(state := HeaderValueDiscardLws))
      else DispatchValueStart(s, ch)
    case HeaderValueStart => DispatchValueStart(s, ch)
    case HeaderValue => DispatchValue(s, ch)
    case HeaderAlmostDone => Expect(s, ch, LF, HeaderValueLws)
    case HeaderValueLws =>
      if ch == ' ' || ch == '\t' then Again(s, HeaderValueStart)
      else Again(s.(flags := FinishValue(s.flags, s.hstate)), HeaderFieldStart)
    case HeaderValueDiscardWsAlmostDone => Expect(s, ch, LF, HeaderValueDiscardLws)
    case HeaderValueDiscardLws =>
      if ch == ' ' || ch == '\t' then Go(s.(state := HeaderValueDiscardWs))
      else Outcome(s.(flags := FinishValue(s.flags, s.hstate), state := HeaderFieldStart),
                   MarkFlush(ValueData), Reexec)
    case HeadersAlmostDone => DispatchHeadersAlmostDone(s, ch)
    case HeadersDone => DispatchHeadersDone(s, ch)
    case _ => Outcome(s, NoAct, AssertFailed)
  }

  // ---------- end of headers

  function DispatchHeadersAlmostDone(s: Parser, ch: Byte): Outcome {
    if ch != LF then Fail(s, StrictFailed)
    else if s.flags.trailing then Outcome(s.(state := MessageDone), Notify(ChunkComplete), Reexec)
    else
      var up := (s.flags.upgrade && s.flags.connUpgrade) || s.meth == CONNECT;
      Outcome(s.(state := HeadersDone, upgrade := up,
                 flags := s.flags.(skipBody := s.flags.skipBody || s.answerNoBody)),
              Notify(HeadersComplete(up)), Reexec)
  }

  function DispatchHeadersDone(s: Parser, ch: Byte): Outcome {
    if ch != LF then Fail(s, StrictFailed) else
    var hasBody := s.flags.chunked || (s.contentLength > 0 && s.contentLength != ULLONG_MAX);
    if s.upgrade && (s.meth == CONNECT || s.flags.skipBody || !hasBody) then Complete(s, Exit)
    else if s.flags.skipBody then Complete(s, Next)
    else if s.flags.chunked then Go(s.(state := ChunkSizeStart))
    else if s.contentLength == 0 then Complete(s, Next)
    else if s.contentLength != ULLONG_MAX then Go(s.(state := BodyIdentity))
    else if !NeedsEof(s) then Complete(s, Next)
    else Go(s.(state := BodyIdentityEof))
  }

  // ---------- bodies

  predicate ChunkSizeOverflows(v: nat) { (ULLONG_MAX - 16) / 16 < v }

  function DispatchChunkSize(s: Parser, ch: Byte): Outcome {
    if ch == CR then Go(s.(state := ChunkSizeAlmostDone))
    else if Unhex(ch) == -1 then
      if ch == ';' || ch == ' ' then Go(s.(state := ChunkParameters)) else Fail(s, InvalidChunkSize)
    else if ChunkSizeOverflows(s.contentLength) then Fail(s, InvalidContentLength)
    else Go(s.(contentLength := (s.contentLength * 16 + Unhex(ch)) % TWO_64))
  }

  function DispatchChunk(s: Parser, ch: Byte): Outcome {
    if !s.flags.chunked then Outcome(s, NoAct, AssertFailed) else
    match s.state
    case ChunkSizeStart =>
      if Unhex(ch) == -1 then Fail(s, InvalidChunkSize)
      else Go(s.(contentLength := Unhex(ch), state := ChunkSize))
    case ChunkSize => DispatchChunkSize(s, ch)
    case ChunkParameters => if ch == CR then Go(s.(state := ChunkSizeAlmostDone)) else Go(s)
    case ChunkSizeAlmostDone =>
      if ch != LF then Fail(s, StrictFailed)
      else Outcome(if s.contentLength == 0 then s.(flags := s.flags.(trailing := true), state := HeaderFieldStart)
                   else s.(state := ChunkData),
                   Notify(ChunkHeader(s.contentLength)), Next)
    case ChunkData =>
      if s.contentLength == 0 || s.contentLength == ULLONG_MAX then Outcome(s, NoAct, AssertFailed)
      else Outcome(s.(contentLength := s.contentLength - 1,
                      state := if s.contentLength == 1 then ChunkDataAlmostDone else ChunkData),
                   Mark(BodyData), Next)
    case ChunkDataAlmostDone =>
      if s.contentLength != 0 then Outcome(s, NoAct, AssertFailed)
      else if ch != CR then Fail(s, StrictFailed)
      else Outcome(s.(state := ChunkDataDone), Flush(BodyData), Next)
    case ChunkDataDone =>
      if ch != LF then Fail(s, StrictFailed)
      else Outcome(s.(state := ChunkSizeStart), Notify(ChunkComplete), Next)
    case _ => Outcome(s, NoAct, AssertFailed)
  }

  function DispatchBody(s: Parser, ch: Byte): Outcome {
    match s.state
    case BodyIdentity =>
      if s.contentLength == 0 || s.contentLength == ULLONG_MAX then Outcome(s, NoAct, AssertFailed)
      else if s.contentLength == 1 then
        Outcome(s.(contentLength := 0, state := MessageDone), MarkFlushIncl(BodyData), Reexec)
      else Outcome(s.(contentLength := s.contentLength - 1), Mark(BodyData), Next)
    case BodyIdentityEof => Outcome(s, Mark(BodyData), Next)
    case MessageDone => Complete(s, if s.upgrade then Exit else Next)
    case _ => DispatchChunk(s, ch)
  }

  predicate IsHeaderState(s: State) {
    s.HeaderFieldStart? || s.HeaderField? || s.HeaderValueDiscardWs? || s.HeaderValueDiscardWsAlmostDone?
    || s.HeaderValueDiscardLws? || s.HeaderValueStart? || s.HeaderValue? || s.HeaderValueLws?
    || s.HeaderAlmostDone? || s.HeadersAlmostDone? || s.HeadersDone?
  }

  predicate IsChunkState(s: State) {
    s.ChunkSizeStart? || s.ChunkSize? || s.ChunkParameters? || s.ChunkSizeAlmostDone?
    || s.ChunkData? || s.ChunkDataAlmostDone? || s.ChunkDataDone?
  }

  predicate IsBodyState(s: State) {
    IsChunkState(s) || s.BodyIdentity? || s.BodyIdentityEof? || s.MessageDone?
  }

  /** One pass through the switch: the parser in state s sees the byte ch. */
  function Dispatch(s: Parser, ch: Byte): Outcome {
    if IsHeaderState(s.state) then DispatchHeader(s, ch)
    else if IsBodyState(s.state) then DispatchBody(s, ch)
    else DispatchStartLine(s, ch)
  }

  // ---------- same-byte re-execution ends

  function Rank(s: State): nat {
    match s
    case StartReqOrRes => 1
    case HeadersAlmostDone => 1
    case HeaderFieldStart => 2
    case HeaderValueLws => 3
    case HeaderValueDiscardLws => 3
    case HeaderValue => 1
    case BodyIdentity => 1
    case _ => 0
  }

  lemma ValueByteOnce(s: Parser, ch: Byte)
    ensures ValueByte(s, ch).ctl != Reexec
  {
    hide Follow, TokenChar, SetOption, Lower;
  }

  lemma HeaderReexec(s: Parser, ch: Byte)
    requires DispatchHeader(s, ch).ctl == Reexec
    ensures Rank(DispatchHeader(s, ch).st.state) < Rank(s.state)
  {
    hide NameByte, FirstNameState, ValueByte, FinishValue, TokenChar;
    ValueByteOnce(s, ch);
  }

  lemma BodyReexec(s: Parser, ch: Byte)
    requires DispatchBody(s, ch).ctl == Reexec
    ensures Rank(DispatchBody(s, ch).st.state) < Rank(s.state)
  {
  }

  // The states of the start lines take every byte at once.
  lemma LineOnce(s: Parser, ch: Byte)
    ensures DispatchUrl(s, ch).ctl != Reexec
    ensures DispatchResponseLine(s, ch).ctl != Reexec
    ensures DispatchMethod(s, ch).ctl != Reexec && DispatchStartReq(s, ch).ctl != Reexec
  {
    hide MethodString, FirstMethod, SwitchMethod, ParseUrlChar, IsUrlEndState;
  }

  lemma RequestOnce(s: Parser, ch: Byte)
    ensures DispatchRequestLine(s, ch).ctl != Reexec
  {
    hide ParseUrlChar;
  }

  lemma StartReexec(s: Parser, ch: Byte)
    requires DispatchStartLine(s, ch).ctl == Reexec
    ensures Rank(DispatchStartLine(s, ch).st.state) < Rank(s.state)
  {
    hide DispatchUrl, DispatchResponseLine, DispatchRequestLine, DispatchStartReq, DispatchMethod;
    LineOnce(s, ch);
    RequestOnce(s, ch);
  }

  /** Dispatching the same byte again always happens in a state of lower rank. */
  lemma ReexecDescends(s: Parser, ch: Byte)
    requires Dispatch(s, ch).ctl == Reexec
    ensures Rank(Dispatch(s, ch).st.state) < Rank(s.state)
  {
    hide DispatchHeader, DispatchBody, DispatchStartLine, Rank;
    if IsHeaderState(s.state) {
      HeaderReexec(s, ch);
    } else if IsBodyState(s.state) {
      BodyReexec(s, ch);
    } else {
      StartReexec(s, ch);
    }
  }
}
