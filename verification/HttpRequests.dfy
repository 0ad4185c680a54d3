/** Whole requests: what is written is what the application is told, however the bytes arrive. */
module HttpRequests {
  import opened Common
  import opened HttpTypes
  import opened HttpDispatch
  import opened HttpInvariant
  import opened HttpRun
  import opened HttpMethods
  import opened HttpLengths
  import opened HttpVersions
  import opened HttpFolding
  import opened HttpHeaderLines
  import opened HttpChunked
  import opened HttpBodies
  import Options = HttpConnection
  import Urls = HttpUrlRoundTrip

  // ---------- requests and their text

  // Behind the space that ends the URL there may be more of them.
  datatype Version = Version(spaces: Bytes, major: Bytes, minor: Bytes)

  // `lead` is any line ends in front of the request, `word` the method's name, `spaces` more than one space
  // behind it. The first line may do without a version; `lineEnd` ends it, and `headEnd` is the empty line
  // behind the headers.
  datatype Request = Request(
    lead: Bytes, meth: Method, word: Bytes, spaces: Bytes, url: Bytes, version: Option<Version>, lineEnd: LineEnd,
    headers: seq<Header>, headEnd: LineEnd, body: Body)

  // The state in which the URL begins; that of a CONNECT request is a server.
  function UrlStart(m: Method): State { if m == CONNECT then ReqServerStart else ReqSpacesBeforeUrl }

  // The URL automaton accepts the URL up to its end.
  predicate UrlOk(m: Method, url: Bytes) { url != [] && IsUrlEndState(Urls.Walk(UrlStart(m), url)) }

  predicate VersionOk(v: Version) {
    Spaces(v.spaces) && NumberOk(v.major) && v.major[0] != '0' && NumberOk(v.minor)
  }

  // The first line is well-formed.
  predicate LineOk(q: Request) {
    && LeadOk(q.lead) && q.word == MethodString(q.meth) && Spaces(q.spaces) && UrlOk(q.meth, q.url)
    && (q.version.Some? ==> VersionOk(q.version.value))
  }

  function Length(q: Request): nat
    requires HeadersOk(q.headers)
  {
    GivenLength(q.headers, ULLONG_MAX)
  }

  // The request is well-formed and has the body it announces; skip says that the application wants none.
  ghost predicate RequestOk(q: Request, skip: bool) {
    && LineOk(q) && HeadersOk(q.headers)
    && match q.body
       case NoBody =>
         q.meth == CONNECT || skip || (!SomeChunked(q.headers) && (Length(q) == 0 || Length(q) == ULLONG_MAX))
       case Sized(bytes) =>
         q.meth != CONNECT && !skip && !SomeChunked(q.headers) && 0 < |bytes| == Length(q) < ULLONG_MAX
       case Coded(chunks, last, trailer) =>
         q.meth != CONNECT && !skip && SomeChunked(q.headers) && ChunksOk(chunks) && LastOk(last, trailer)
       case UntilEnd(_) => false
  }

  function VersionText(v: Version): Bytes { [' '] + (v.spaces + (PROTOCOL + (v.major + (['.'] + v.minor)))) }

  // The first line behind the URL.
  function LineRest(q: Request): Bytes {
    (if q.version.Some? then VersionText(q.version.value) else []) + EndText(q.lineEnd)
  }

  function LineText(q: Request): Bytes { q.lead + (q.word + [' '] + (q.spaces + (q.url + LineRest(q)))) }

  function HeadText(q: Request): Bytes { LineText(q) + (LinesText(q.headers) + EndText(q.headEnd)) }

  function Print(q: Request): Bytes { HeadText(q) + BodyText(q.body) }

  // ---------- what the request means

  function MajorOf(q: Request): nat
    requires q.version.Some? ==> VersionOk(q.version.value)
  {
    if q.version.Some? then Decimal(0, q.version.value.major) else 0
  }

  function MinorOf(q: Request): nat
    requires q.version.Some? ==> VersionOk(q.version.value)
  {
    if q.version.Some? then Decimal(0, q.version.value.minor) else 9
  }

  // Another protocol takes over behind the request.
  ghost predicate TakesOver(q: Request) {
    q.meth == CONNECT || (SomeUpgrade(q.headers) && SomeOption(q.headers, Options.ToUpgrade))
  }

  // The connection is kept for another request.
  ghost predicate KeepsAlive(q: Request)
    requires q.version.Some? ==> VersionOk(q.version.value)
  {
    var hs := q.headers + Trailing(q.body);
    if MajorOf(q) > 0 && MinorOf(q) > 0 then !SomeOption(hs, Options.ToClose) else SomeOption(hs, Options.ToKeepAlive)
  }

  // What the application is told up to the end of the headers.
  ghost function HeadEvents(q: Request): Trace {
    [MessageBegin, Data(UrlData, q.url)] + LineEvents(q.headers) + [HeadersComplete(TakesOver(q))]
  }

  // ---------- the URL

  lemma DeadStays(xs: Bytes)
    ensures Urls.Walk(Dead, xs) == Dead
    decreases |xs|
  {
    if xs != [] {
      DeadStays(xs[1..]);
    }
  }

  lemma UrlDispatch(s: Parser, ch: Byte)
    requires IsUrlState(s.state) && ParseUrlChar(s.state, ch) != Dead
    ensures Dispatch(s, ch) == Go(s.(state := ParseUrlChar(s.state, ch)))
  {
    UrlNoEnd(s.state, ch);
    UrlNoHeader(s.state);
  }

  lemma UrlNoEnd(s: State, ch: Byte)
    requires ParseUrlChar(s, ch) != Dead
    ensures ch != ' ' && ch != CR && ch != LF
  {
  }

  lemma UrlNoHeader(s: State)
    requires IsUrlState(s)
    ensures !IsHeaderState(s) && !IsBodyState(s)
  {
  }

  lemma UrlStep(r: Run, ch: Byte)
    requires r.ctl == Next && IsUrlState(r.st.state) && r.pend.Open? && ParseUrlChar(r.st.state, ch) != Dead
    ensures Resume(r, ch) == r.(st := r.st.(state := ParseUrlChar(r.st.state, ch)),
                                pend := Open(r.pend.kind, r.pend.bytes + [ch]), used := r.used + 1)
  {
    hide Dispatch, ParseUrlChar, IsUrlState;
    UrlDispatch(r.st, ch);
  }

  lemma {:induction false} UrlRun(r: Run, xs: Bytes)
    requires r.ctl == Next && IsUrlState(r.st.state) && r.pend.Open? && r.pend.kind == UrlData
    requires Urls.Walk(r.st.state, xs) != Dead
    ensures RunBytes(r, xs) == r.(st := r.st.(state := Urls.Walk(r.st.state, xs)),
                                  pend := Open(UrlData, r.pend.bytes + xs), used := r.used + |xs|)
    ensures IsUrlState(Urls.Walk(r.st.state, xs))
    decreases |xs|
  {
    hide Resume, ParseUrlChar, IsUrlState;
    if xs == [] {
      assert r.pend.bytes + xs == r.pend.bytes;
    } else {
      if ParseUrlChar(r.st.state, xs[0]) == Dead {
        DeadStays(xs[1..]);
      }
      UrlCharStays(r.st.state, xs[0]);
      UrlStep(r, xs[0]);
      UrlRun(Resume(r, xs[0]), xs[1..]);
      assert r.pend.bytes + [xs[0]] + xs[1..] == r.pend.bytes + xs;
    }
  }

  lemma UrlStartDispatch(s: Parser, ch: Byte)
    requires s.state == ReqSpacesBeforeUrl && ParseUrlChar(UrlStart(s.meth), ch) != Dead
    ensures Dispatch(s, ch) == Outcome(s.(state := ParseUrlChar(UrlStart(s.meth), ch)), Mark(UrlData), Next)
  {
    UrlNoEnd(UrlStart(s.meth), ch);
  }

  lemma UrlEndDispatch(s: Parser)
    requires IsUrlState(s.state) && IsUrlEndState(s.state)
    ensures Dispatch(s, ' ') == Outcome(s.(state := ReqHttpStart), Flush(UrlData), Next)
    ensures Dispatch(s, CR) == Outcome(s.(major := 0, minor := 9, state := ReqLineAlmostDone), Flush(UrlData), Next)
    ensures Dispatch(s, LF) == Outcome(s.(major := 0, minor := 9, state := HeaderFieldStart), Flush(UrlData), Next)
  {
    UrlNoHeader(s.state);
  }

  lemma UrlFirst(r: Run, ch: Byte)
    requires r.ctl == Next && r.st.state == ReqSpacesBeforeUrl && r.pend == Closed
    requires ParseUrlChar(UrlStart(r.st.meth), ch) != Dead
    ensures Resume(r, ch) == r.(st := r.st.(state := ParseUrlChar(UrlStart(r.st.meth), ch)),
                                pend := Open(UrlData, [ch]),
                                used := r.used + 1)
  {
    hide Dispatch, ParseUrlChar;
    UrlStartDispatch(r.st, ch);
    assert Grow(Open(UrlData, []), ch) == Open(UrlData, [ch]);
  }

  // A byte that ends the URL and moves the parser to s.
  lemma UrlLast(r: Run, ch: Byte, s: Parser)
    requires r.ctl == Next && r.pend.Open? && Dispatch(r.st, ch) == Outcome(s, Flush(UrlData), Next)
    ensures Resume(r, ch) == r.(st := s, pend := Closed, used := r.used + 1,
                                trace := Emit(r.trace, Data(r.pend.kind, r.pend.bytes)))
  {
    hide Dispatch, Emit;
  }

  lemma UrlFirstAlive(m: Method, url: Bytes)
    requires UrlOk(m, url)
    ensures ParseUrlChar(UrlStart(m), url[0]) != Dead && IsUrlState(ParseUrlChar(UrlStart(m), url[0]))
    ensures Urls.Walk(ParseUrlChar(UrlStart(m), url[0]), url[1..]) == Urls.Walk(UrlStart(m), url) != Dead
  {
    hide ParseUrlChar;
    if ParseUrlChar(UrlStart(m), url[0]) == Dead {
      DeadStays(url[1..]);
    }
    UrlCharStays(UrlStart(m), url[0]);
  }

  lemma UrlText(r: Run, url: Bytes) returns (r': Run)
    requires r.ctl == Next && r.st.state == ReqSpacesBeforeUrl && r.pend == Closed && UrlOk(r.st.meth, url)
    ensures r' == RunBytes(r, url) && IsUrlState(r'.st.state) && IsUrlEndState(r'.st.state)
    ensures r'.st.state == Urls.Walk(UrlStart(r.st.meth), url)
    ensures r' == r.(st := r.st.(state := r'.st.state), pend := Open(UrlData, url), used := r.used + |url|)
  {
    hide Resume, ParseUrlChar, RunBytes, Urls.Walk, IsUrlState, UrlStart;
    UrlFirstAlive(r.st.meth, url);
    UrlFirst(r, url[0]);
    var r1 := Resume(r, url[0]);
    UrlRun(r1, url[1..]);
    assert [url[0]] + url[1..] == url;
    RunAppend(r, [url[0]], url[1..]);
    RunOne(r, url[0]);
    r' := RunBytes(r, url);
  }

  /** A URL and the space behind it. */
  lemma WholeUrl(r: Run, url: Bytes) returns (r': Run)
    requires r.ctl == Next && r.st.state == ReqSpacesBeforeUrl && r.pend == Closed && UrlOk(r.st.meth, url)
    ensures r' == RunBytes(r, url + [' '])
    ensures r' == r.(st := r.st.(state := ReqHttpStart), used := r.used + |url| + 1,
                     trace := Emit(r.trace, Data(UrlData, url)))
  {
    hide Resume, Dispatch, RunBytes, Emit, UrlOk, IsUrlState, IsUrlEndState;
    var r1 := UrlText(r, url);
    RunAppend(r, url, [' ']);
    UrlEndDispatch(r1.st);
    UrlLast(r1, ' ', r1.st.(state := ReqHttpStart));
    RunOne(r1, ' ');
    r' := Resume(r1, ' ');
  }

  // A URL and the end of a first line without a version.
  lemma UrlAlone(r: Run, url: Bytes, e: LineEnd, b: Bytes) returns (r': Run)
    requires r.ctl == Next && r.st.state == ReqSpacesBeforeUrl && r.pend == Closed && UrlOk(r.st.meth, url)
    ensures RunBytes(r, url + (EndText(e) + b)) == RunBytes(r', b)
    ensures r' == r.(st := r.st.(major := 0, minor := 9, state := HeaderFieldStart),
                     used := r.used + |url| + |EndText(e)|,
                     trace := Emit(r.trace, Data(UrlData, url)))
  {
    hide Resume, Dispatch, RunBytes, Emit, UrlOk, IsUrlState, IsUrlEndState;
    var r1 := UrlText(r, url);
    RunAppend(r, url, EndText(e) + b);
    UrlEndDispatch(r1.st);
    var s := r1.st.(major := 0, minor := 9, state := HeaderFieldStart);
    if e.CrLf? {
      UrlLast(r1, CR, s.(state := ReqLineAlmostDone));
      var r2 := Resume(r1, CR);
      assert EndText(e) + b == [CR] + ([LF] + b);
      RunAppend(r1, [CR], [LF] + b);
      RunOne(r1, CR);
      LineFeedDispatch(r2.st);
      OneGo(r2, LF, s, b);
      r' := r2.(st := s, used := r2.used + 1);
    } else {
      UrlLast(r1, LF, s);
      RunAppend(r1, [LF], b);
      RunOne(r1, LF);
      r' := Resume(r1, LF);
    }
  }

  // ---------- the version

  lemma LineFeedDispatch(s: Parser)
    ensures s.state == ReqLineAlmostDone ==> Dispatch(s, LF) == Go(s.(state := HeaderFieldStart))
    ensures s.state == ReqHttpMinor ==>
              && Dispatch(s, CR) == Go(s.(state := ReqLineAlmostDone))
              && Dispatch(s, LF) == Go(s.(state := HeaderFieldStart))
  {
  }

  lemma LineEndRun(r: Run, e: LineEnd, b: Bytes) returns (r': Run)
    requires r.ctl == Next && r.pend == Closed && r.st.state == ReqHttpMinor
    ensures r' == r.(st := r.st.(state := HeaderFieldStart), used := r.used + |EndText(e)|)
    ensures RunBytes(r, EndText(e) + b) == RunBytes(r', b)
  {
    hide Dispatch, RunBytes;
    LineFeedDispatch(r.st);
    r' := r.(st := r.st.(state := HeaderFieldStart), used := r.used + |EndText(e)|);
    if e.CrLf? {
      var r1 := r.(st := r.st.(state := ReqLineAlmostDone), used := r.used + 1);
      assert EndText(e) + b == [CR] + ([LF] + b);
      OneGo(r, CR, r1.st, [LF] + b);
      LineFeedDispatch(r1.st);
      OneGo(r1, LF, r'.st, b);
    } else {
      OneGo(r, LF, r'.st, b);
    }
  }

  /** The version of a request, behind the space in front of it, and the end of its first line. */
  lemma VersionLineRun(r: Run, v: Version, e: LineEnd, b: Bytes) returns (r': Run)
    requires r.ctl == Next && r.pend == Closed && r.st.state == ReqHttpStart && VersionOk(v)
    ensures r' == r.(st := r.st.(major := Decimal(0, v.major), minor := Decimal(0, v.minor), state := HeaderFieldStart),
                     used := r.used + |VersionText(v)| - 1 + |EndText(e)|)
    ensures RunBytes(r, v.spaces + (PROTOCOL + (v.major + (['.'] + (v.minor + (EndText(e) + b)))))) == RunBytes(r', b)
  {
    hide RunBytes, Decimal, PROTOCOL, NumberOk, EndText, Dispatch;
    var c := v.major + (['.'] + (v.minor + (EndText(e) + b)));
    ProtocolLength();
    assert PROTOCOL[0..] == PROTOCOL;
    SpaceDispatch(r.st);
    StayRun(r, v.spaces, PROTOCOL + c);
    var r0 := r.(used := r.used + |v.spaces|);
    ProtocolRun(r0, false, 0, c);
    var r1 := r0.(st := r.st.(state := ReqFirstHttpMajor), used := r0.used + 5);
    var r2 := VersionRun(r1, false, v.major, v.minor, EndText(e) + b);
    r' := LineEndRun(r2, e, b);
  }

  lemma SpaceDispatch(s: Parser)
    ensures s.state == ReqHttpStart || s.state == ReqSpacesBeforeUrl ==> Dispatch(s, ' ') == Go(s)
  {
    hide DispatchHeader, DispatchBody, DispatchUrl, DispatchStart, ParseUrlChar;
  }

  lemma LeadDispatch(s: Parser, ch: Byte)
    requires s.state == StartReq && (ch == CR || ch == LF)
    ensures Dispatch(s, ch) == Go(s)
  {
    hide DispatchHeader, DispatchBody, DispatchUrl, FirstMethod;
  }

  lemma ProtocolLength()
    ensures |PROTOCOL| == 5
  {
  }

  lemma VersionSplit(q: Request, b: Bytes)
    requires q.version.Some?
    ensures var v := q.version.value;
            && |LineRest(q)| == |VersionText(v)| + |EndText(q.lineEnd)|
            && q.url + LineRest(q) + b
               == q.url + [' '] + (v.spaces + (PROTOCOL + (v.major + (['.'] + (v.minor + (EndText(q.lineEnd) + b))))))
  {
    hide EndText, PROTOCOL;
    var v, e := q.version.value, EndText(q.lineEnd) + b;
    assert LineRest(q) + b == VersionText(v) + e;
    Regroup(['.'], v.minor, e);
    Regroup(v.major, ['.'] + v.minor, e);
    Regroup(PROTOCOL, v.major + (['.'] + v.minor), e);
    Regroup(v.spaces, PROTOCOL + (v.major + (['.'] + v.minor)), e);
    Regroup([' '], v.spaces + (PROTOCOL + (v.major + (['.'] + v.minor))), e);
    Regroup(q.url, LineRest(q), b);
    Regroup(q.url, [' '], v.spaces + (PROTOCOL + (v.major + (['.'] + (v.minor + e)))));
  }

  // ---------- the first line

  lemma WordOk(m: Method, w: Bytes)
    requires w == MethodString(m)
    ensures w != [] && w[0] != CR && w[0] != LF && ' ' !in w
  {
    NotLineEnd(m);
    forall i | 0 <= i < |w|
      ensures w[i] != ' '
    {
      LettersOnly(m, i);
    }
  }

  // What the first line makes of the parser.
  function AfterLine(s: Parser, q: Request): Parser
    requires q.version.Some? ==> VersionOk(q.version.value)
  {
    s.(flags := NO_FLAGS, contentLength := ULLONG_MAX, meth := q.meth, index := |q.word| + 1,
       major := MajorOf(q), minor := MinorOf(q), state := HeaderFieldStart)
  }

  // The first line behind the method.
  lemma RestRun(r: Run, q: Request, b: Bytes) returns (r': Run)
    requires r.ctl == Next && r.st.state == ReqSpacesBeforeUrl && r.pend == Closed
    requires r.st.meth == q.meth && UrlOk(q.meth, q.url) && (q.version.Some? ==> VersionOk(q.version.value))
    ensures RunBytes(r, q.url + LineRest(q) + b) == RunBytes(r', b)
    ensures r' == r.(st := r.st.(major := MajorOf(q), minor := MinorOf(q), state := HeaderFieldStart),
                     used := r.used + |q.url + LineRest(q)|, trace := Emit(r.trace, Data(UrlData, q.url)))
  {
    hide RunBytes, Decimal, UrlOk, VersionOk, EndText, VersionText, PROTOCOL, Emit;
    if q.version.Some? {
      var v := q.version.value;
      VersionSplit(q, b);
      var r1 := WholeUrl(r, q.url);
      RunAppend(r, q.url + [' '],
                v.spaces + (PROTOCOL + (v.major + (['.'] + (v.minor + (EndText(q.lineEnd) + b))))));
      r' := VersionLineRun(r1, v, q.lineEnd, b);
    } else {
      assert LineRest(q) == EndText(q.lineEnd);
      Regroup(q.url, EndText(q.lineEnd), b);
      r' := UrlAlone(r, q.url, q.lineEnd, b);
    }
  }

  /** The first line of a request. */
  lemma FirstLineRun(r: Run, q: Request, b: Bytes) returns (r': Run)
    requires AtStart(r) && LineOk(q)
    ensures r' == r.(st := AfterLine(r.st, q), used := r.used + |LineText(q)|,
                     trace := r.trace + [MessageBegin, Data(UrlData, q.url)])
    ensures RunBytes(r, LineText(q) + b) == RunBytes(r', b)
  {
    hide RunBytes, MajorOf, MinorOf, UrlOk, VersionOk, MethodString, LineRest, Dispatch, LineText;
    LineCut(q, b);
    var rest := q.url + LineRest(q) + b;
    forall i | 0 <= i < |q.lead| ensures Dispatch(r.st, q.lead[i]) == Go(r.st) { LeadDispatch(r.st, q.lead[i]); }
    StayRun(r, q.lead, q.word + [' '] + (q.spaces + rest));
    var r1 := WordRun(r.(used := r.used + |q.lead|), q, q.spaces + rest);
    SpaceDispatch(r1.st);
    StayRun(r1, q.spaces, rest);
    r' := RestRun(r1.(used := r1.used + |q.spaces|), q, b);
    assert r.trace + [MessageBegin] + [Data(UrlData, q.url)] == r.trace + [MessageBegin, Data(UrlData, q.url)];
  }

  lemma LineCut(q: Request, b: Bytes)
    ensures LineText(q) + b == q.lead + (q.word + [' '] + (q.spaces + (q.url + LineRest(q) + b)))
    ensures |LineText(q)| == |q.lead| + |q.word| + 1 + |q.spaces| + |q.url + LineRest(q)|
  {
    hide LineRest;
    Regroup(q.spaces, q.url + LineRest(q), b);
    Regroup(q.word + [' '], q.spaces + (q.url + LineRest(q)), b);
    Regroup(q.lead, q.word + [' '] + (q.spaces + (q.url + LineRest(q))), b);
  }

  // The method and the space behind it.
  lemma WordRun(r: Run, q: Request, b: Bytes) returns (r': Run)
    requires AtStart(r) && LineOk(q)
    ensures r' == r.(st := r.st.(flags := NO_FLAGS, contentLength := ULLONG_MAX, state := ReqSpacesBeforeUrl,
                                 meth := q.meth, index := |q.word| + 1),
                     trace := r.trace + [MessageBegin], used := r.used + |q.word| + 1)
    ensures RunBytes(r, q.word + [' '] + b) == RunBytes(r', b)
  {
    hide RunBytes, UrlOk, VersionOk, MethodString, LeadOk, Spaces;
    WordOk(q.meth, q.word);
    MethodExact(r, q.word, q.meth);
    RunAppend(r, q.word + [' '], b);
    r' := RunBytes(r, q.word + [' ']);
  }

  // ---------- the head

  // A parser that waits for a request.
  ghost predicate Waiting(s: Parser) { Inv(s) && s.state == StartReq && s.ptype == ParserType.Request }

  lemma FreshWaits(answerNoBody: bool)
    ensures Waiting(Fresh(ParserType.Request, answerNoBody)) && Inv(Fresh(ParserType.Request, answerNoBody))
  {
  }

  // The parser behind the head of a request.
  ghost predicate AtBody(q: Request, st: Parser, s: Parser)
    requires RequestOk(q, st.answerNoBody)
  {
    && s == AfterHead(AfterLine(st, q).(flags := LinesFlags(NO_FLAGS, q.headers), contentLength := Length(q)))
            .(state := s.state, hstate := s.hstate, index := s.index)
    && s.upgrade == TakesOver(q) && Fits(q.body, s) && s.state == BodyState(s).0
  }

  lemma AfterHeaders(st: Parser, q: Request, s: Parser)
    requires Waiting(st) && RequestOk(q, st.answerNoBody) && Effects(q.headers, AfterLine(st, q), s)
    ensures !s.flags.trailing && AfterHead(s).upgrade == TakesOver(q)
    ensures Fits(q.body, AfterHead(s))
    ensures AtBody(q, st, AfterHead(s).(state := BodyState(AfterHead(s)).0))
  {
    SameBody(q.body, AfterHead(s), BodyState(AfterHead(s)).0);
    hide SomeChunked, SomeUpgrade, SomeOption, Decimal, Inv, VersionOk, UrlOk, ShouldKeepAlive, ChunksOk, LastOk,
         MajorOf, MinorOf, HeadersOk, MethodString;
  }

  lemma StartWaiting(s: Parser, t: Trace)
    requires Waiting(s)
    ensures s.errno == Ok && s.state == StartReq && Start(s, t) == Run(s, t, Closed, Next, 0) && Inv(s)
  {
    hide Inv;
    InvOk(s);
  }

  lemma RequestParts(q: Request, skip: bool)
    requires RequestOk(q, skip)
    ensures HeadersOk(q.headers) && LineOk(q) && !q.body.UntilEnd?
    ensures q.version.Some? ==> VersionOk(q.version.value)
  {
    hide VersionOk, UrlOk, MethodString;
  }

  /** The head of a request. */
  lemma HeadRun(st: Parser, t: Trace, q: Request) returns (r: Run)
    requires Waiting(st) && RequestOk(q, st.answerNoBody)
    ensures r == RunBytes(Start(st, t), HeadText(q)) && r.pend == Closed && r.used == |HeadText(q)|
    ensures AtBody(q, st, r.st) && r.ctl == if BodyState(r.st).1 && r.st.upgrade then Exit else Next
    ensures r.trace == t + HeadEvents(q) + if BodyState(r.st).1 then [MessageComplete] else []
  {
    hide RunBytes, RequestOk, Waiting, Effects, AfterLine, HeadersOk, BodyState, VersionOk, UrlOk, Fits, TakesOver,
         NoField, LineText, Start, EndText, AfterHead, AtBody, MethodString;
    var end := EndText(q.headEnd);
    RequestParts(q, st.answerNoBody);
    StartWaiting(st, t);
    var r0 := Start(st, t);
    var r1 := FirstLineRun(r0, q, LinesText(q.headers) + end);
    LineFresh(r0.trace, q.url);
    LineAtName(r0, q, r1);
    EndNotBlank(q.headEnd);
    var r2 := LinesRun(r1, q.headers, end);
    r := HeadLineRun(st, t, q, r2);
  }

  // The empty line behind the headers.
  lemma HeadLineRun(st: Parser, t: Trace, q: Request, r2: Run) returns (r: Run)
    requires Waiting(st) && RequestOk(q, st.answerNoBody) && AtName(r2) && Effects(q.headers, AfterLine(st, q), r2.st)
    requires r2.trace == t + [MessageBegin, Data(UrlData, q.url)] + LineEvents(q.headers)
    ensures r == RunBytes(r2, EndText(q.headEnd)) && r.pend == Closed && r.used == r2.used + |EndText(q.headEnd)|
    ensures AtBody(q, st, r.st) && r.ctl == if BodyState(r.st).1 && r.st.upgrade then Exit else Next
    ensures r.trace == t + HeadEvents(q) + if BodyState(r.st).1 then [MessageComplete] else []
  {
    hide RunBytes, RequestOk, Waiting, Effects, AfterLine, HeadersOk, BodyState, VersionOk, Fits, TakesOver,
         EndText, AfterHead, AtBody;
    AfterHeaders(st, q, r2.st);
    r := HeadEnd(r2, q.headEnd);
    SameBody(q.body, AfterHead(r2.st), BodyState(AfterHead(r2.st)).0);
    assert r2.trace + [HeadersComplete(TakesOver(q))] == t + HeadEvents(q);
  }

  lemma LineFresh(t: Trace, url: Bytes)
    ensures NoField(t + [MessageBegin, Data(UrlData, url)])
  {
  }

  lemma LineAtName(r0: Run, q: Request, r1: Run)
    requires AtStart(r0) && (q.version.Some? ==> VersionOk(q.version.value))
    requires r1 == r0.(st := AfterLine(r0.st, q), used := r1.used, trace := r1.trace)
    ensures AtName(r1)
  {
    hide VersionOk, MajorOf, MinorOf;
  }

  // ---------- the whole request

  // The parser behind a request.
  ghost predicate RequestRead(q: Request, st: Parser, s: Parser)
    requires RequestOk(q, st.answerNoBody)
  {
    && s.ptype == ParserType.Request && s.answerNoBody == st.answerNoBody
    && s.meth == q.meth && s.major == MajorOf(q) && s.minor == MinorOf(q) && s.upgrade == TakesOver(q)
    && s.state == if KeepsAlive(q) then StartReq else Dead
  }

  lemma BodyRead(q: Request, st: Parser, s: Parser, s': Parser)
    requires Waiting(st) && RequestOk(q, st.answerNoBody) && AtBody(q, st, s) && MessageRead(q.body, s, s')
    ensures RequestRead(q, st, s')
  {
    hide SomeChunked, SomeUpgrade, SomeOption, Decimal, Inv, VersionOk, UrlOk, ChunksOk, LastOk, Fits, BodyState,
         MajorOf, MinorOf, HeadersOk, MethodString, RequestOk, TakesOver;
    RequestParts(q, st.answerNoBody);
    SomeOptionAppend(q.headers, Trailing(q.body), Options.ToClose);
    SomeOptionAppend(q.headers, Trailing(q.body), Options.ToKeepAlive);
    NoneSome(Options.ToClose);
    NoneSome(Options.ToKeepAlive);
  }

  /** A well-formed request is read to its end, and the application is told exactly what was written: the
      URL, every header name and value in order, the end of the headers, the body and the end of the
      message. The parser then knows method and version, whether another protocol takes over, and whether
      the connection is kept for another request. */
  lemma RequestRoundTrip(st: Parser, t: Trace, q: Request)
    requires Waiting(st) && RequestOk(q, st.answerNoBody)
    ensures var e := Exec(st, t, Print(q));
            && e.ctl == (if TakesOver(q) then Exit else Next) && e.used == |Print(q)| && RequestRead(q, st, e.st)
            && e.trace == t + HeadEvents(q) + TailEvents(q.body)
  {
    hide RequestOk, HeadText, RunBytes, Inv, BodyState, LineEvents, Fits, BodyText, NewMessage, Decimal, Start,
         TakesOver, RequestRead, MessageRead, AtBody, HeadEvents;
    var r := HeadRun(st, t, q);
    BodyAhead(q, st, r.st);
    StartWaiting(st, t);
    HeadNonempty(q);
    HeadLast(q, t);
    EmptyBody(q.body, r.st);
    MessageExec(st, t, HeadText(q), q.body, r);
    BodyRead(q, st, r.st, Exec(st, t, Print(q)).st);
  }

  lemma BodyAhead(q: Request, st: Parser, s: Parser)
    requires RequestOk(q, st.answerNoBody) && AtBody(q, st, s)
    ensures Fits(q.body, s) && s.state == BodyState(s).0 && s.upgrade == TakesOver(q)
  {
  }

  lemma HeadLast(q: Request, t: Trace)
    ensures HeadEvents(q) != [] && !HeadEvents(q)[|HeadEvents(q)| - 1].Data?
    ensures t + HeadEvents(q) != [] && !(t + HeadEvents(q))[|t + HeadEvents(q)| - 1].Data?
  {
  }

  lemma HeadNonempty(q: Request)
    ensures HeadText(q) != []
  {
  }

  // ---------- requests in a row

  function Prints(qs: seq<Request>): seq<Bytes> { if qs == [] then [] else [Print(qs[0])] + Prints(qs[1..]) }

  ghost function AllEvents(qs: seq<Request>): Trace {
    if qs == [] then [] else HeadEvents(qs[0]) + TailEvents(qs[0].body) + AllEvents(qs[1..])
  }

  // Every request is well-formed, and all but the last keep the connection.
  ghost predicate RowOk(qs: seq<Request>, skip: bool) {
    && (forall i :: 0 <= i < |qs| ==> RequestOk(qs[i], skip))
    && forall i :: 0 <= i < |qs| - 1 ==> KeepsAlive(qs[i]) && !TakesOver(qs[i])
  }

  lemma WaitsAgain(st: Parser, t: Trace, q: Request)
    requires Waiting(st) && RequestOk(q, st.answerNoBody) && KeepsAlive(q) && !TakesOver(q)
    ensures var e := Exec(st, t, Print(q)); Waiting(e.st) && e.st.answerNoBody == st.answerNoBody
  {
    hide Exec, Inv, RequestOk, KeepsAlive, TakesOver, Print, HeadEvents, TailEvents, MajorOf, MinorOf;
    RequestRoundTrip(st, t, q);
    StartWaiting(st, t);
    ExecKeepsInv(st, t, Print(q));
  }

  lemma RowOfOne(q: Request)
    ensures Prints([q]) == [Print(q)] && AllEvents([q]) == HeadEvents(q) + TailEvents(q.body)
  {
    hide Print, HeadEvents, TailEvents;
    assert [q][1..] == [];
    assert Prints([]) == [] && AllEvents([]) == [];
  }

  lemma {:induction false} RowRoundTrip(st: Parser, t: Trace, qs: seq<Request>)
    requires Waiting(st) && qs != [] && RowOk(qs, st.answerNoBody)
    ensures var e, last := ExecAll(st, t, Prints(qs)), qs[|qs| - 1];
            && e.ctl == (if TakesOver(last) then Exit else Next) && e.used == |Concat(Prints(qs))|
            && RequestRead(last, st, e.st) && e.trace == t + AllEvents(qs)
    decreases |qs|
  {
    hide Exec, Inv, RequestOk, KeepsAlive, TakesOver, Print, HeadEvents, TailEvents, MajorOf, MinorOf, Waiting,
         RequestRead;
    var q, more := qs[0], qs[1..];
    RequestRoundTrip(st, t, q);
    var e1 := Exec(st, t, Print(q));
    var here := HeadEvents(q) + TailEvents(q.body);
    assert t + HeadEvents(q) + TailEvents(q.body) == t + here;
    if more == [] {
      assert qs == [q];
      RowOfOne(q);
      OneExec(st, t, Print(q));
    } else {
      WaitsAgain(st, t, q);
      RowRoundTrip(e1.st, e1.trace, more);
      assert Prints(qs)[1..] == Prints(more);
      SameStart(more[|more| - 1], st, e1.st, ExecAll(e1.st, e1.trace, Prints(more)).st);
      assert t + here + AllEvents(more) == t + (here + AllEvents(more));
    }
  }

  lemma SameStart(q: Request, st: Parser, s1: Parser, s: Parser)
    requires st.answerNoBody == s1.answerNoBody && RequestOk(q, st.answerNoBody) && RequestRead(q, s1, s)
    ensures RequestRead(q, st, s)
  {
    hide RequestOk, KeepsAlive, TakesOver, MajorOf, MinorOf;
    RequestParts(q, st.answerNoBody);
  }

  lemma PrintsNonempty(qs: seq<Request>, i: nat)
    requires i < |Prints(qs)|
    ensures Prints(qs)[i] != []
    decreases i
  {
    hide HeadText, BodyText;
    if i == 0 {
      HeadNonempty(qs[0]);
    } else {
      PrintsNonempty(qs[1..], i - 1);
    }
  }

  /** Any number of requests in a row, cut into buffers in any way: each is reported exactly as it was
      written, one after the other. */
  lemma RequestsAnySplit(st: Parser, t: Trace, qs: seq<Request>, bufs: seq<Bytes>)
    requires Waiting(st) && qs != [] && RowOk(qs, st.answerNoBody)
    requires bufs != [] && (forall i :: 0 <= i < |bufs| ==> bufs[i] != []) && Concat(bufs) == Concat(Prints(qs))
    ensures var e, last := ExecAll(st, t, bufs), qs[|qs| - 1];
            && e.ctl == (if TakesOver(last) then Exit else Next) && e.used == |Concat(bufs)|
            && RequestRead(last, st, e.st) && e.trace == t + AllEvents(qs)
  {
    hide Exec, ExecAll, Inv, RequestOk, Print, HeadEvents, TailEvents, RequestRead, TakesOver, KeepsAlive;
    RowRoundTrip(st, t, qs);
    StartWaiting(st, t);
    forall i | 0 <= i < |Prints(qs)| ensures Prints(qs)[i] != [] { PrintsNonempty(qs, i); }
    AnySplit(st, t, Prints(qs));
    AnySplit(st, t, bufs);
  }

  // The shortest kind of request is among the well-formed ones.
  lemma ShortestRequest()
    ensures RequestOk(Request.Request([], GET, ['G', 'E', 'T'], [], ['/'], None, BareLf, [], BareLf, NoBody), false)
  {
    assert ['/'][1..] == [];
    assert Urls.Walk(ReqSpacesBeforeUrl, ['/']) == Urls.Walk(ReqPath, []);
  }
}
