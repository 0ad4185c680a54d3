/** What holds of a parser before every byte, and why no assert of the C code can fail. */
module HttpInvariant {
  import opened HttpTypes
  import opened HttpDispatch

  // One more than the largest index any literal can reach: the length of "transfer-encoding".
  const MAX_INDEX: nat := 17
  const MAX_LENGTH: nat := 18446744073709551609
  const MAX_CHUNK: nat := TWO_64 - 17

  // The token, if any, whose bytes the parser is handing to the application in a state.
  datatype Token = NoToken | In(kind: Kind)

  function OpenToken(s: State): Token {
    if IsUrlState(s) then In(UrlData)
    else if s.ResStatus? then In(StatusData)
    else if s.HeaderField? then In(FieldData)
    else if s.HeaderValue? then In(ValueData)
    else if s.ChunkData? || s.ChunkDataAlmostDone? || s.BodyIdentity? || s.BodyIdentityEof? then In(BodyData)
    else NoToken
  }

  // Where the automaton for header names may be, with the index it has reached.
  predicate NameIndexOk(h: HeaderState, i: nat) {
    match h
    case C => i == 0
    case CO => i == 1
    case CON => i == 2
    case MatchingConnection => 3 <= i < 9
    case MatchingProxyConnection => i < 15
    case MatchingContentLength => 3 <= i < 13
    case MatchingTransferEncoding => i < 16
    case MatchingUpgrade => i < 6
    case _ => IsNameState(h) && i < MAX_INDEX
  }

  // Where the automaton for header values may be. Connection, TransferEncoding and Upgrade are not
  // among these states: the first byte of the value has moved the parser on.
  predicate ValueIndexOk(h: HeaderState, i: nat) {
    match h
    case General => true
    case ContentLength => true
    case MatchingTransferEncodingChunked => i < 6
    case MatchingConnectionTokenStart => i == 0
    case MatchingConnectionKeepAlive => i < 9
    case MatchingConnectionClose => i < 4
    case MatchingConnectionUpgrade => i < 6
    case MatchingConnectionToken => true
    case TransferEncodingChunked => true
    case ConnectionKeepAlive => true
    case ConnectionClose => true
    case ConnectionUpgrade => true
    case _ => false
  }

  // The header state right after a header name.
  predicate NameDone(h: HeaderState) { IsNameState(h) }

  // The header state in front of a folded line of a value.
  predicate ValueDone(h: HeaderState, i: nat) { ValueIndexOk(h, i) }

  /** The invariant of a parser that has reported no error. */
  predicate Inv(s: Parser) {
    && s.errno == Ok
    && s.index < MAX_INDEX
    && s.contentLength <= ULLONG_MAX
    && (s.state.ReqMethod? ==> 1 <= s.index <= |MethodString(s.meth)|)
    && (s.state.HeaderField? ==> NameIndexOk(s.hstate, s.index))
    && (s.state.HeaderValueDiscardWs? || s.state.HeaderValueDiscardWsAlmostDone? || s.state.HeaderValueDiscardLws?
        ==> NameDone(s.hstate))
    && (s.state.HeaderValue? || s.state.HeaderAlmostDone? || s.state.HeaderValueLws? || s.state.HeaderValueStart?
        ==> ValueDone(s.hstate, s.index))
    && (s.state.HeaderValue? && s.hstate.ContentLength? ==> s.contentLength <= MAX_LENGTH)
    && (IsChunkState(s.state) ==> s.flags.chunked)
    && (s.state.ChunkSize? || s.state.ChunkParameters? || s.state.ChunkSizeAlmostDone?
        ==> s.contentLength <= MAX_CHUNK)
    && (s.state.ChunkData? ==> 0 < s.contentLength <= MAX_CHUNK)
    && (s.state.ChunkDataAlmostDone? ==> s.contentLength == 0)
    && (s.state.BodyIdentity? ==> 0 < s.contentLength < ULLONG_MAX)
  }

  /** How a pass may touch the marks: they are set and cleared exactly where the token of the state
      begins and ends, and nothing else is reported in between. */
  predicate Disciplined(s: Parser, o: Outcome) {
    var a, b := OpenToken(s.state), OpenToken(o.st.state);
    && (o.act.NoAct? && o.ctl != Failed ==>
          if a.In? then b == a && a.kind != BodyData && o.ctl == Next else b == NoToken || b == In(BodyData))
    && (o.act.Mark? ==> o.ctl == Next && b == In(o.act.kind) && (a == NoToken || a == b))
    && (o.act.Flush? ==> a == In(o.act.kind) && b == NoToken && (o.ctl == Next || o.ctl == Reexec))
    && (o.act.MarkFlush? ==> a == NoToken && b == NoToken && o.ctl == Reexec)
    && (o.act.MarkFlushIncl? ==> a == In(BodyData) && o.act.kind == BodyData && b == NoToken && o.ctl == Reexec)
    && (o.act.Notify? ==> a == NoToken && !o.act.event.Data? && (b == NoToken || b == In(BodyData)))
    && (o.ctl == Failed ==> o.act == NoAct)
  }

  /** One pass keeps the invariant and the mark discipline, fails no assert, and comes to a chunk size only
      where the counter of header bytes is reset. */
  predicate GoodStep(s: Parser, o: Outcome) {
    && o.ctl != AssertFailed
    && Disciplined(s, o)
    && (o.ctl == Failed <==> o.st.errno != Ok) && o.st.errno != HeaderOverflow
    && (o.ctl != Failed ==> Inv(o.st))
    && (o.ctl != Failed && o.st.state.ChunkSizeStart? ==>
          o.ctl == Next && (s.state.HeadersDone? || s.state.ChunkDataDone?))
  }

  // ---------- start lines

  lemma MethodLength(m: Method)
    ensures 3 <= |MethodString(m)| <= 11
    ensures m == PROPPATCH || m == MKCALENDAR ==> |MethodString(m)| > 4
  {
  }

  lemma SwitchIndex(m: Method, i: nat, ch: Byte)
    ensures var (n, known) := SwitchMethod(m, i, ch);
            known ==> i <= 2 || ((n == PROPPATCH || n == MKCALENDAR) && i <= 4)
  {
    hide MethodString;
  }

  lemma MethodIndexOk(m: Method, i: nat, ch: Byte)
    ensures 3 <= |MethodString(m)| <= 11
    ensures SwitchMethod(m, i, ch).1 ==> i + 1 <= |MethodString(SwitchMethod(m, i, ch).0)|
  {
    hide MethodString, SwitchMethod;
    MethodLength(m);
    MethodLength(SwitchMethod(m, i, ch).0);
    SwitchIndex(m, i, ch);
  }

  lemma MethodGood(s: Parser, ch: Byte)
    requires Inv(s) && s.state.ReqMethod?
    ensures GoodStep(s, DispatchMethod(s, ch))
  {
    hide MethodString, SwitchMethod;
    MethodIndexOk(s.meth, s.index, ch);
    var (m, known) := SwitchMethod(s.meth, s.index, ch);
    MethodIndexOk(m, 0, ch);
  }

  /** A byte accepted by the URL automaton leaves it in a URL state. */
  lemma UrlCharStays(s: State, ch: Byte)
    ensures ParseUrlChar(s, ch) == Dead || IsUrlState(ParseUrlChar(s, ch))
  {
    hide IsAlpha, IsUserinfoChar, IsUrlChar;
  }

  // States of start lines outside every token, about which the invariant says nothing special.
  predicate IsPlain(s: State) {
    !IsUrlState(s) && !IsBodyState(s) && !s.ResStatus? && !s.ReqMethod? && (IsHeaderState(s) ==> s.HeaderFieldStart?)
  }

  // The parser is as before up to fields the invariant does not restrict.
  predicate SameBut(s: Parser, t: Parser) {
    && t.errno == Ok
    && t.index <= s.index
    && (t.contentLength == s.contentLength || t.contentLength == ULLONG_MAX)
  }

  lemma PlainStepGood(s: Parser, o: Outcome)
    requires Inv(s) && IsPlain(s.state)
    requires o.act == NoAct || o.act == Notify(MessageBegin)
    requires o.ctl == Next || o.ctl == Reexec || (o.ctl == Failed && o.st.errno != Ok && o.act == NoAct)
    requires o.st.errno != HeaderOverflow
    requires o.ctl != Failed ==> IsPlain(o.st.state) && SameBut(s, o.st)
    ensures GoodStep(s, o)
  {
    hide MethodString, NameIndexOk, ValueIndexOk;
  }

  lemma UrlGood(s: Parser, ch: Byte)
    requires Inv(s) && IsUrlState(s.state)
    ensures GoodStep(s, DispatchUrl(s, ch))
  {
    hide MethodString, ParseUrlChar, NameIndexOk, ValueIndexOk, Inv, GoodStep;
    InvOk(s);
    UrlCharStays(s.state, ch);
    UrlStepGood(s, DispatchUrl(s, ch));
  }

  lemma UrlStepGood(s: Parser, o: Outcome)
    requires Inv(s) && IsUrlState(s.state)
    requires o.act == NoAct || (o.act == Flush(UrlData) && o.ctl == Next)
    requires o.ctl == Next || (o.ctl == Failed && o.st.errno != Ok)
    requires o.st.errno != HeaderOverflow
    requires o.ctl == Next ==> SameBut(s, o.st)
    requires o.ctl == Next && o.act == NoAct ==> IsUrlState(o.st.state)
    requires o.act != NoAct ==>
               o.st.state == ReqHttpStart || o.st.state == ReqLineAlmostDone || o.st.state == HeaderFieldStart
    ensures GoodStep(s, o)
  {
    hide MethodString, NameIndexOk, ValueIndexOk;
  }

  lemma StartReqGood(s: Parser, ch: Byte)
    requires Inv(s) && s.state.StartReq?
    ensures GoodStep(s, DispatchStartReq(s, ch))
  {
    hide MethodString, SwitchMethod, FirstMethod;
    MethodIndexOk(FirstMethod(ch).0, 0, ch);
  }

  lemma HeadMethodGood(s: Parser, ch: Byte)
    requires Inv(s) && s.state.ResOrRespH?
    ensures GoodStep(s, DispatchStart(s, ch))
  {
    hide DispatchStartReq, DispatchMethod, MethodString, NameIndexOk, ValueIndexOk;
    MethodIndexOk(HEAD, 0, ch);
  }

  lemma StartGood(s: Parser, ch: Byte)
    requires Inv(s) && (s.state.Dead? || s.state.StartReqOrRes? || s.state.StartRes?)
    ensures GoodStep(s, DispatchStart(s, ch))
  {
    hide Inv, GoodStep, DispatchStartReq, DispatchMethod;
    InvOk(s);
    PlainStepGood(s, DispatchStart(s, ch));
  }

  lemma StatusTextGood(s: Parser, ch: Byte)
    requires Inv(s) && (s.state.ResStatusStart? || s.state.ResStatus?)
    ensures GoodStep(s, DispatchResponseLine(s, ch))
  {
    hide MethodString, NameIndexOk, ValueIndexOk, PutMajor, PutMinor, FirstMinor, DispatchStatusCode, Expect, IsNum,
         Digit;
  }

  // The states of a response's protocol and of the numbers of its version.
  predicate IsProtocolState(s: State) { s.ResH? || s.ResHT? || s.ResHTT? || s.ResHTTP? }

  predicate IsVersionState(s: State) {
    s.ResFirstHttpMajor? || s.ResHttpMajor? || s.ResFirstHttpMinor? || s.ResHttpMinor?
  }

  lemma ResponseProtocolGood(s: Parser, ch: Byte)
    requires Inv(s) && IsProtocolState(s.state)
    ensures GoodStep(s, DispatchResponseLine(s, ch))
  {
    hide Inv, GoodStep, IsNum, Digit, DispatchStatusCode, PutMajor, PutMinor, FirstMinor;
    InvOk(s);
    PlainStepGood(s, DispatchResponseLine(s, ch));
  }

  lemma ResponseVersionGood(s: Parser, ch: Byte)
    requires Inv(s) && IsVersionState(s.state)
    ensures GoodStep(s, DispatchResponseLine(s, ch))
  {
    hide Inv, GoodStep, IsNum, Digit, DispatchStatusCode, Expect;
    InvOk(s);
    PlainStepGood(s, DispatchResponseLine(s, ch));
  }

  lemma ResponseStatusGood(s: Parser, ch: Byte)
    requires Inv(s) && (s.state.ResFirstStatusCode? || s.state.ResStatusCode? || s.state.ResLineAlmostDone?)
    ensures GoodStep(s, DispatchResponseLine(s, ch))
  {
    hide Inv, GoodStep, IsNum, Digit, PutMajor, PutMinor, FirstMinor;
    InvOk(s);
    PlainStepGood(s, DispatchResponseLine(s, ch));
  }

  lemma ResponseLineGood(s: Parser, ch: Byte)
    requires Inv(s) && IsResponseState(s.state) && !s.state.ResStatusStart? && !s.state.ResStatus?
    ensures GoodStep(s, DispatchResponseLine(s, ch))
  {
    hide Inv, GoodStep, DispatchResponseLine;
    if IsProtocolState(s.state) {
      ResponseProtocolGood(s, ch);
    } else if IsVersionState(s.state) {
      ResponseVersionGood(s, ch);
    } else {
      ResponseStatusGood(s, ch);
    }
  }

  lemma UrlStartGood(s: Parser, ch: Byte)
    requires Inv(s) && s.state.ReqSpacesBeforeUrl?
    ensures GoodStep(s, DispatchUrlStart(s, ch))
  {
    hide ParseUrlChar, Inv, GoodStep;
    InvOk(s);
    var next := ParseUrlChar(if s.meth == CONNECT then ReqServerStart else ReqSpacesBeforeUrl, ch);
    UrlCharStays(if s.meth == CONNECT then ReqServerStart else ReqSpacesBeforeUrl, ch);
    if ch != ' ' && next != Dead {
      UrlBegins(s, next);
    } else {
      PlainStepGood(s, DispatchUrlStart(s, ch));
    }
  }

  lemma UrlBegins(s: Parser, next: State)
    requires Inv(s) && s.state.ReqSpacesBeforeUrl? && IsUrlState(next)
    ensures GoodStep(s, Outcome(s.(state := next), Mark(UrlData), Next))
  {
    hide MethodString, NameIndexOk, ValueIndexOk;
  }

  lemma RequestProtocolGood(s: Parser, ch: Byte)
    requires Inv(s) && (s.state.ReqHttpH? || s.state.ReqHttpHT? || s.state.ReqHttpHTT? || s.state.ReqHttpHTTP?)
    ensures GoodStep(s, DispatchRequestLine(s, ch))
  {
    hide Inv, GoodStep, Expect;
    if s.state.ReqHttpH? {
      ExpectGood(s, ch, 'T', ReqHttpHT);
    } else if s.state.ReqHttpHT? {
      ExpectGood(s, ch, 'T', ReqHttpHTT);
    } else if s.state.ReqHttpHTT? {
      ExpectGood(s, ch, 'P', ReqHttpHTTP);
    } else {
      ExpectGood(s, ch, '/', ReqFirstHttpMajor);
    }
  }

  lemma ExpectGood(s: Parser, ch: Byte, want: Byte, next: State)
    requires Inv(s) && IsPlain(s.state) && IsPlain(next)
    ensures GoodStep(s, Expect(s, ch, want, next))
  {
    hide Inv, GoodStep, IsPlain;
    InvOk(s);
    PlainStepGood(s, Expect(s, ch, want, next));
  }

  lemma RequestVersionGood(s: Parser, ch: Byte)
    requires Inv(s) && s.state.ReqHttpStart?
    ensures GoodStep(s, DispatchRequestLine(s, ch))
  {
    hide Inv, GoodStep, DispatchUrlStart, IsNum, Digit, PutMajor, PutMinor, FirstMinor;
    InvOk(s);
    PlainStepGood(s, DispatchRequestLine(s, ch));
  }

  lemma RequestMajorGood(s: Parser, ch: Byte)
    requires Inv(s) && (s.state.ReqFirstHttpMajor? || s.state.ReqHttpMajor?)
    ensures GoodStep(s, DispatchRequestLine(s, ch))
  {
    hide Inv, GoodStep, DispatchUrlStart, IsNum, Digit, PutMinor, FirstMinor;
    InvOk(s);
    PlainStepGood(s, DispatchRequestLine(s, ch));
  }

  lemma RequestMinorGood(s: Parser, ch: Byte)
    requires Inv(s) && (s.state.ReqFirstHttpMinor? || s.state.ReqHttpMinor? || s.state.ReqLineAlmostDone?)
    ensures GoodStep(s, DispatchRequestLine(s, ch))
  {
    hide Inv, GoodStep, DispatchUrlStart, IsNum, Digit, PutMajor;
    InvOk(s);
    PlainStepGood(s, DispatchRequestLine(s, ch));
  }

  lemma RequestLineGood(s: Parser, ch: Byte)
    requires Inv(s) && IsRequestState(s.state) && !s.state.ReqSpacesBeforeUrl?
    ensures GoodStep(s, DispatchRequestLine(s, ch))
  {
    hide Inv, GoodStep, DispatchRequestLine;
    if s.state.ReqHttpStart? {
      RequestVersionGood(s, ch);
    } else if s.state.ReqHttpH? || s.state.ReqHttpHT? || s.state.ReqHttpHTT? || s.state.ReqHttpHTTP? {
      RequestProtocolGood(s, ch);
    } else if s.state.ReqFirstHttpMajor? || s.state.ReqHttpMajor? {
      RequestMajorGood(s, ch);
    } else {
      RequestMinorGood(s, ch);
    }
  }

  lemma InvOk(s: Parser)
    requires Inv(s)
    ensures s.errno == Ok
  {
  }

  lemma StartLineGood(s: Parser, ch: Byte)
    requires Inv(s) && !IsHeaderState(s.state) && !IsBodyState(s.state)
    ensures GoodStep(s, DispatchStartLine(s, ch))
  {
    hide GoodStep, Inv, DispatchMethod, DispatchStartReq, DispatchUrl, DispatchUrlStart, PutMajor, PutMinor,
         FirstMinor, DispatchStatusCode, Expect;
    if IsUrlState(s.state) {
      UrlGood(s, ch);
    } else if IsResponseState(s.state) {
      if s.state.ResStatusStart? || s.state.ResStatus? {
        StatusTextGood(s, ch);
      } else {
        ResponseLineGood(s, ch);
      }
    } else if IsRequestState(s.state) {
      if s.state.ReqSpacesBeforeUrl? {
        UrlStartGood(s, ch);
      } else {
        RequestLineGood(s, ch);
      }
    } else if s.state.ReqMethod? {
      MethodGood(s, ch);
    } else if s.state.StartReq? {
      StartReqGood(s, ch);
    } else if s.state.ResOrRespH? {
      HeadMethodGood(s, ch);
    } else {
      StartGood(s, ch);
    }
  }

  // ---------- headers

  /** The automaton for header names stays in its states and within its literals. */
  lemma NameStepOk(h: HeaderState, i: nat, ch: Byte, c: Byte)
    requires NameIndexOk(h, i) && c != NUL
    ensures NameIndexOk(NameStep(h, i, ch, c), if CountsIndex(h) then i + 1 else i)
  {
  }

  /** The automaton for header values stays in its states and within its literals. */
  lemma ValueByteOk(s: Parser, ch: Byte)
    requires ValueIndexOk(s.hstate, s.index) && s.index < MAX_INDEX
    requires s.hstate.ContentLength? ==> s.contentLength <= MAX_LENGTH
    ensures ByteTaken(s, ValueByte(s, ch))
  {
    hide ByteTaken, ValueByte;
    if ComparesOption(s.hstate) {
      ComparingOk(s, ch);
    } else {
      OtherValueOk(s, ch);
    }
  }

  // A byte of a value has been taken, or refused as part of a length.
  predicate ByteTaken(s: Parser, o: Outcome) {
    && o.act == NoAct
    && (o.ctl == Failed || o.ctl == Next)
    && (o.ctl == Failed ==> o.st.errno == InvalidContentLength)
    && (o.ctl == Next ==>
          && o.st == s.(hstate := o.st.hstate, index := o.st.index, flags := o.st.flags,
                        contentLength := o.st.contentLength)
          && ValueIndexOk(o.st.hstate, o.st.index) && o.st.index < MAX_INDEX
          && (o.st.hstate.ContentLength? ==> s.hstate.ContentLength? && o.st.contentLength <= MAX_LENGTH)
          && (if s.hstate.ContentLength? then o.st.hstate.ContentLength?
              else o.st.contentLength == s.contentLength))
  }

  // The states that compare with a word.
  predicate ComparesOption(h: HeaderState) {
    h.MatchingTransferEncodingChunked? || h.MatchingConnectionKeepAlive? || h.MatchingConnectionClose?
    || h.MatchingConnectionUpgrade?
  }

  lemma ComparingOk(s: Parser, ch: Byte)
    requires ValueIndexOk(s.hstate, s.index) && s.index < MAX_INDEX && ComparesOption(s.hstate)
    ensures ByteTaken(s, ValueByte(s, ch))
  {
    hide Lower, TokenChar, NameIndexOk, CharAt, OptionByte;
  }

  lemma OtherValueOk(s: Parser, ch: Byte)
    requires ValueIndexOk(s.hstate, s.index) && s.index < MAX_INDEX && !ComparesOption(s.hstate)
    requires s.hstate.ContentLength? ==> s.contentLength <= MAX_LENGTH
    ensures ByteTaken(s, ValueByte(s, ch))
  {
    hide Lower, TokenChar, NameIndexOk, Follow;
  }

  lemma ValueGood(s: Parser, ch: Byte)
    requires Inv(s) && s.state.HeaderValue?
    ensures GoodStep(s, DispatchValue(s, ch))
  {
    hide ValueByte, MethodString;
    ValueByteOk(s, ch);
  }

  lemma ValueStartGood(s: Parser, ch: Byte)
    requires Inv(s) && (s.state.HeaderValueDiscardWs? || s.state.HeaderValueStart?)
    ensures GoodStep(s, DispatchValueStart(s, ch))
  {
    hide Inv, GoodStep, Lower, ValueIndexOk;
    InvOk(s);
    var o := DispatchValueStart(s, ch);
    ValueStartIndex(s, ch);
    if o.ctl == Failed {
      ValueRefused(s);
    } else {
      ValueBegins(s, o.st);
    }
  }

  lemma ValueRefused(s: Parser)
    requires Inv(s) && (s.state.HeaderValueDiscardWs? || s.state.HeaderValueStart?)
    ensures GoodStep(s, Fail(s.(state := HeaderValue, index := 0), InvalidContentLength))
  {
    hide Inv;
  }

  // Where the automaton for values starts.
  lemma ValueStartIndex(s: Parser, ch: Byte)
    requires Inv(s) && (s.state.HeaderValueDiscardWs? || s.state.HeaderValueStart?)
    ensures var o := DispatchValueStart(s, ch);
            if s.hstate.ContentLength? && !IsNum(ch) then
              o == Fail(s.(state := HeaderValue, index := 0), InvalidContentLength)
            else
              && o == Outcome(o.st, Mark(ValueData), Next)
              && o.st == s.(state := HeaderValue, index := 0, hstate := o.st.hstate, flags := o.st.flags,
                            contentLength := o.st.contentLength)
              && o.st.flags.chunked == s.flags.chunked && ValueIndexOk(o.st.hstate, 0)
              && (o.st.hstate.ContentLength? ==> o.st.contentLength < 10)
              && o.st.contentLength <= ULLONG_MAX
  {
    hide MethodString, Lower, NameIndexOk;
  }

  lemma ValueBegins(s: Parser, t: Parser)
    requires Inv(s) && (s.state.HeaderValueDiscardWs? || s.state.HeaderValueStart?)
    requires t == s.(state := HeaderValue, index := 0, hstate := t.hstate, flags := t.flags,
                     contentLength := t.contentLength)
    requires ValueIndexOk(t.hstate, 0) && t.contentLength <= ULLONG_MAX
    requires t.hstate.ContentLength? ==> t.contentLength < 10
    ensures GoodStep(s, Outcome(t, Mark(ValueData), Next))
  {
    hide MethodString, NameIndexOk, ValueIndexOk;
  }

  lemma FieldGood(s: Parser, ch: Byte)
    requires Inv(s) && s.state.HeaderField?
    ensures GoodStep(s, DispatchField(s, ch))
  {
    hide NameStep, MethodString, TokenChar;
    if TokenChar(ch) != NUL { NameStepOk(s.hstate, s.index, ch, TokenChar(ch)); }
  }

  lemma FieldStartGood(s: Parser, ch: Byte)
    requires Inv(s) && s.state.HeaderFieldStart?
    ensures GoodStep(s, DispatchFieldStart(s, ch))
  {
    hide MethodString, TokenChar;
  }

  lemma HeadersAlmostDoneGood(s: Parser, ch: Byte)
    requires Inv(s) && s.state.HeadersAlmostDone?
    ensures GoodStep(s, DispatchHeadersAlmostDone(s, ch))
  {
    hide MethodString, NameIndexOk, ValueIndexOk;
  }

  lemma HeadersDoneGood(s: Parser, ch: Byte)
    requires Inv(s) && s.state.HeadersDone?
    ensures GoodStep(s, DispatchHeadersDone(s, ch))
  {
    hide MethodString, NameIndexOk, ValueIndexOk, ShouldKeepAlive, NeedsEof;
  }

  lemma AfterValueGood(s: Parser, ch: Byte)
    requires Inv(s) && (s.state.HeaderAlmostDone? || s.state.HeaderValueLws?)
    ensures GoodStep(s, DispatchHeader(s, ch))
  {
    hide MethodString, NameIndexOk, ValueIndexOk, DispatchValueStart, DispatchFieldStart, DispatchField,
         DispatchValue, DispatchHeadersAlmostDone, DispatchHeadersDone, FinishValue;
  }

  lemma NoValueGood(s: Parser, ch: Byte)
    requires Inv(s) && (s.state.HeaderValueDiscardWsAlmostDone? || s.state.HeaderValueDiscardLws?)
    ensures GoodStep(s, DispatchHeader(s, ch))
  {
    hide MethodString, NameIndexOk, ValueIndexOk, DispatchValueStart, DispatchFieldStart, DispatchField,
         DispatchValue, DispatchHeadersAlmostDone, DispatchHeadersDone, FinishValue;
  }

  lemma BeforeValueGood(s: Parser, ch: Byte)
    requires Inv(s) && s.state.HeaderValueDiscardWs?
    ensures GoodStep(s, DispatchHeader(s, ch))
  {
    hide MethodString, NameIndexOk, ValueIndexOk, DispatchValueStart, DispatchFieldStart, DispatchField,
         DispatchValue, DispatchHeadersAlmostDone, DispatchHeadersDone, FinishValue;
    if ch == ' ' || ch == '\t' || ch == CR || ch == LF {
    } else {
      ValueStartGood(s, ch);
    }
  }

  lemma HeaderGood(s: Parser, ch: Byte)
    requires Inv(s) && IsHeaderState(s.state)
    ensures GoodStep(s, DispatchHeader(s, ch))
  {
    hide GoodStep, Inv, DispatchFieldStart, DispatchField, DispatchValue, DispatchValueStart,
         DispatchHeadersAlmostDone, DispatchHeadersDone, FinishValue;
    if s.state.HeaderFieldStart? {
      FieldStartGood(s, ch);
    } else if s.state.HeaderField? {
      FieldGood(s, ch);
    } else if s.state.HeaderValue? {
      ValueGood(s, ch);
    } else if s.state.HeaderValueStart? {
      ValueStartGood(s, ch);
    } else if s.state.HeaderValueDiscardWs? {
      BeforeValueGood(s, ch);
    } else if s.state.HeadersAlmostDone? {
      HeadersAlmostDoneGood(s, ch);
    } else if s.state.HeadersDone? {
      HeadersDoneGood(s, ch);
    } else if s.state.HeaderAlmostDone? || s.state.HeaderValueLws? {
      AfterValueGood(s, ch);
    } else {
      NoValueGood(s, ch);
    }
  }

  // ---------- bodies

  lemma UnhexRange(ch: Byte)
    ensures -1 <= Unhex(ch) < 16
  {
  }

  lemma ChunkSizeGood(s: Parser, ch: Byte)
    requires Inv(s) && s.state.ChunkSize?
    ensures GoodStep(s, DispatchChunkSize(s, ch))
  {
    hide Unhex, MethodString, NameIndexOk, ValueIndexOk;
    UnhexRange(ch);
  }

  lemma ChunkHeadGood(s: Parser, ch: Byte)
    requires Inv(s) && (s.state.ChunkSizeStart? || s.state.ChunkParameters? || s.state.ChunkSizeAlmostDone?)
    ensures GoodStep(s, DispatchChunk(s, ch))
  {
    hide Unhex, MethodString, DispatchChunkSize, NameIndexOk, ValueIndexOk;
    UnhexRange(ch);
  }

  lemma ChunkDataGood(s: Parser, ch: Byte)
    requires Inv(s) && (s.state.ChunkData? || s.state.ChunkDataAlmostDone? || s.state.ChunkDataDone?)
    ensures GoodStep(s, DispatchChunk(s, ch))
  {
    hide Unhex, MethodString, DispatchChunkSize, NameIndexOk, ValueIndexOk;
  }

  lemma IdentityGood(s: Parser, ch: Byte)
    requires Inv(s) && IsBodyState(s.state) && !IsChunkState(s.state)
    ensures GoodStep(s, DispatchBody(s, ch))
  {
    hide MethodString, DispatchChunk, NameIndexOk, ValueIndexOk, ShouldKeepAlive, NeedsEof;
  }

  lemma BodyGood(s: Parser, ch: Byte)
    requires Inv(s) && IsBodyState(s.state)
    ensures GoodStep(s, DispatchBody(s, ch))
  {
    hide GoodStep, MethodString, NameIndexOk, ValueIndexOk, DispatchChunkSize;
    if s.state.ChunkSize? {
      ChunkSizeGood(s, ch);
    } else if s.state.ChunkData? || s.state.ChunkDataAlmostDone? || s.state.ChunkDataDone? {
      ChunkDataGood(s, ch);
    } else if IsChunkState(s.state) {
      ChunkHeadGood(s, ch);
    } else {
      IdentityGood(s, ch);
    }
  }

  /** Every pass from a state satisfying the invariant is good. */
  lemma DispatchGood(s: Parser, ch: Byte)
    requires Inv(s)
    ensures GoodStep(s, Dispatch(s, ch))
  {
    hide GoodStep, Inv, DispatchHeader, DispatchBody, DispatchStartLine;
    if IsHeaderState(s.state) {
      HeaderGood(s, ch);
    } else if IsBodyState(s.state) {
      BodyGood(s, ch);
    } else {
      StartLineGood(s, ch);
    }
  }
}
