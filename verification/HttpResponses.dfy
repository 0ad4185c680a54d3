/** Whole responses: what is written is what the application is told, however the bytes arrive. */
module HttpResponses {
  import opened Common
  import opened HttpTypes
  import opened HttpDispatch
  import opened HttpInvariant
  import opened HttpRun
  import opened HttpLengths
  import opened HttpVersions
  import opened HttpFolding
  import opened HttpHeaderLines
  import opened HttpChunked
  import opened HttpBodies
  import Options = HttpConnection

  // ---------- responses and their text

  // `lead` is any line ends in front of the response, `spaces` more than one space in front of the status,
  // which may stand without a space and a reason behind it.
  datatype Response = Response(
    lead: Bytes, major: Bytes, minor: Bytes, spaces: Bytes, status: Bytes, reason: Option<Bytes>, lineEnd: LineEnd,
    headers: seq<Header>, headEnd: LineEnd, body: Body)

  predicate ReasonOk(reason: Bytes) { forall i :: 0 <= i < |reason| ==> reason[i] != CR && reason[i] != LF }

  // Whether a response of this status without a length lasts until the end of input.
  predicate OpenEnded(status: nat) { status / 100 != 1 && status != 204 && status != 304 }

  predicate PartsOk(q: Response) {
    && LeadOk(q.lead) && NumberOk(q.major) && NumberOk(q.minor) && Spaces(q.spaces) && NumberOk(q.status)
    && (q.reason.Some? ==> ReasonOk(q.reason.value)) && HeadersOk(q.headers)
  }

  function Length(q: Response): nat
    requires HeadersOk(q.headers)
  {
    GivenLength(q.headers, ULLONG_MAX)
  }

  // Another protocol takes over behind the response.
  ghost predicate TakesOver(q: Response) { SomeUpgrade(q.headers) && SomeOption(q.headers, Options.ToUpgrade) }

  // Nothing but the end of input ends the response.
  ghost predicate Lasts(q: Response)
    requires PartsOk(q)
  {
    !SomeChunked(q.headers) && Length(q) == ULLONG_MAX && OpenEnded(Decimal(0, q.status))
  }

  // The response is well-formed and has the body it announces; skip says that the application wants none.
  ghost predicate ResponseOk(q: Response, skip: bool) {
    && PartsOk(q)
    && match q.body
       case NoBody =>
         || skip
         || (!SomeChunked(q.headers)
             && (Length(q) == 0 || (Length(q) == ULLONG_MAX && (TakesOver(q) || !OpenEnded(Decimal(0, q.status))))))
       case Sized(bytes) => !skip && !SomeChunked(q.headers) && 0 < |bytes| == Length(q) < ULLONG_MAX
       case Coded(chunks, last, trailer) =>
         !skip && SomeChunked(q.headers) && ChunksOk(chunks) && LastOk(last, trailer)
       case UntilEnd(_) => !skip && !TakesOver(q) && Lasts(q)
  }

  // The first line behind the status.
  function ReasonText(q: Response): Bytes {
    if q.reason.Some? then [' '] + (q.reason.value + EndText(q.lineEnd)) else EndText(q.lineEnd)
  }

  function LineText(q: Response): Bytes {
    q.lead + (PROTOCOL + (q.major + (['.'] + (q.minor + ([' '] + (q.spaces + (q.status + ReasonText(q))))))))
  }

  function HeadText(q: Response): Bytes { LineText(q) + (LinesText(q.headers) + EndText(q.headEnd)) }

  function Print(q: Response): Bytes { HeadText(q) + BodyText(q.body) }

  // ---------- what the response means

  // The connection is kept for another response.
  ghost predicate KeepsAlive(q: Response, skip: bool)
    requires PartsOk(q)
  {
    var hs := q.headers + Trailing(q.body);
    && (q.body.NoBody? && Lasts(q) ==> skip)
    && if Decimal(0, q.major) > 0 && Decimal(0, q.minor) > 0 then !SomeOption(hs, Options.ToClose)
       else SomeOption(hs, Options.ToKeepAlive)
  }

  // Every line end in front of a response begins a message.
  function Begins(n: nat): Trace { if n == 0 then [] else [MessageBegin] + Begins(n - 1) }

  function ReasonEvents(reason: Option<Bytes>): Trace {
    if reason.Some? && reason.value != [] then [Data(StatusData, reason.value)] else []
  }

  // What the application is told of the first line.
  function LineStart(q: Response): Trace { Begins(|q.lead|) + [MessageBegin] + ReasonEvents(q.reason) }

  // What the application is told up to the end of the headers.
  ghost function HeadEvents(q: Response): Trace {
    LineStart(q) + LineEvents(q.headers) + [HeadersComplete(TakesOver(q))]
  }

  // ---------- the status

  lemma StatusDispatch(s: Parser, ch: Byte)
    requires IsNum(ch)
    ensures s.state == ResHttpMinor ==> Dispatch(s, ' ') == Go(s.(state := ResFirstStatusCode))
    ensures s.state == ResFirstStatusCode ==>
              Dispatch(s, ' ') == Go(s) && Dispatch(s, ch) == Go(s.(status := Digit(ch), state := ResStatusCode))
    ensures s.state == ResStatusCode ==> Dispatch(s, ' ') == Go(s.(state := ResStatusStart))
  {
    hide DispatchHeader, DispatchBody, DispatchUrl, DispatchStart;
  }

  lemma StatusRun(r: Run, xs: Bytes, ds: Bytes, b: Bytes) returns (r': Run)
    requires r.ctl == Next && r.pend == Closed && r.st.state == ResHttpMinor && Spaces(xs) && NumberOk(ds)
    ensures r' == r.(st := r.st.(status := Decimal(0, ds), state := ResStatusCode), used := r.used + 1 + |xs| + |ds|)
    ensures RunBytes(r, [' '] + (xs + (ds + b))) == RunBytes(r', b)
  {
    hide Dispatch, RunBytes, Decimal, NumberOk;
    FirstIsDigit(ds);
    StatusDispatch(r.st, ds[0]);
    var r0 := r.(st := r.st.(state := ResFirstStatusCode), used := r.used + 1);
    OneGo(r, ' ', r0.st, xs + (ds + b));
    StatusDispatch(r0.st, ds[0]);
    StayRun(r0, xs, ds + b);
    var r1 := r0.(used := r0.used + |xs|);
    r' := WholeNumber(r1, Status, ds, r1.st.(status := Digit(ds[0]), state := ResStatusCode), b);
  }

  // ---------- the reason

  lemma ReasonDispatch(s: Parser, ch: Byte)
    ensures ch != CR && ch != LF && s.state == ResStatusStart ==>
              Dispatch(s, ch) == Outcome(s.(state := ResStatus, index := 0), Mark(StatusData), Next)
    ensures ch != CR && ch != LF && s.state == ResStatus ==> Dispatch(s, ch) == Go(s)
    ensures s.state == ResStatus ==>
              && Dispatch(s, CR) == Outcome(s.(state := ResLineAlmostDone), Flush(StatusData), Next)
              && Dispatch(s, LF) == Outcome(s.(state := HeaderFieldStart), Flush(StatusData), Next)
  {
    hide DispatchHeader, DispatchBody, DispatchUrl, DispatchStart;
  }

  lemma EndDispatch(s: Parser)
    ensures s.state == ResStatusStart || s.state == ResStatusCode ==>
              && Dispatch(s, CR) == Go(s.(state := ResLineAlmostDone))
              && Dispatch(s, LF) == Go(s.(state := HeaderFieldStart))
    ensures s.state == ResLineAlmostDone ==> Dispatch(s, LF) == Go(s.(state := HeaderFieldStart))
  {
    hide DispatchHeader, DispatchBody, DispatchUrl, DispatchStart;
  }

  lemma ReasonFirst(r: Run, ch: Byte)
    requires r.ctl == Next && r.pend == Closed && r.st.state == ResStatusStart && ch != CR && ch != LF
    ensures Resume(r, ch) == r.(st := r.st.(state := ResStatus, index := 0), pend := Open(StatusData, [ch]),
                                used := r.used + 1)
  {
    hide Dispatch;
    ReasonDispatch(r.st, ch);
    assert Grow(Open(StatusData, []), ch) == Open(StatusData, [ch]);
  }

  lemma ReasonStep(r: Run, ch: Byte)
    requires r.ctl == Next && r.st.state == ResStatus && r.pend.Open? && ch != CR && ch != LF
    ensures Resume(r, ch) == r.(pend := Open(r.pend.kind, r.pend.bytes + [ch]), used := r.used + 1)
  {
    hide Dispatch;
    ReasonDispatch(r.st, ch);
  }

  lemma {:induction false} ReasonRun(r: Run, xs: Bytes)
    requires r.ctl == Next && r.st.state == ResStatus && r.pend.Open? && r.pend.kind == StatusData && ReasonOk(xs)
    ensures RunBytes(r, xs) == r.(pend := Open(StatusData, r.pend.bytes + xs), used := r.used + |xs|)
    decreases |xs|
  {
    hide Resume;
    if xs == [] {
      assert r.pend.bytes + xs == r.pend.bytes;
    } else {
      ReasonStep(r, xs[0]);
      ReasonRun(Resume(r, xs[0]), xs[1..]);
      assert r.pend.bytes + [xs[0]] + xs[1..] == r.pend.bytes + xs;
    }
  }

  // The byte that ends the reason moves the parser to s.
  lemma ReasonLast(r: Run, ch: Byte, s: Parser)
    requires r.ctl == Next && r.pend.Open? && Dispatch(r.st, ch) == Outcome(s, Flush(StatusData), Next)
    ensures Resume(r, ch) == r.(st := s, pend := Closed, used := r.used + 1,
                                trace := Emit(r.trace, Data(r.pend.kind, r.pend.bytes)))
  {
    hide Dispatch, Emit;
  }

  // A reason that is not empty.
  lemma WholeReason(r: Run, reason: Bytes) returns (r': Run)
    requires r.ctl == Next && r.pend == Closed && r.st.state == ResStatusStart && ReasonOk(reason) && reason != []
    ensures r' == RunBytes(r, reason)
    ensures r' == r.(st := r.st.(state := ResStatus, index := 0), pend := Open(StatusData, reason),
                     used := r.used + |reason|)
  {
    hide RunBytes, Resume;
    ReasonFirst(r, reason[0]);
    var r1 := Resume(r, reason[0]);
    ReasonRun(r1, reason[1..]);
    assert [reason[0]] + reason[1..] == reason;
    RunAppend(r, [reason[0]], reason[1..]);
    RunOne(r, reason[0]);
    r' := RunBytes(r1, reason[1..]);
  }

  // The end of a line without a reason, or behind an empty one.
  lemma LineEndRun(r: Run, e: LineEnd, b: Bytes) returns (r': Run)
    requires r.ctl == Next && r.pend == Closed && (r.st.state == ResStatusStart || r.st.state == ResStatusCode)
    ensures r' == r.(st := r.st.(state := HeaderFieldStart), used := r.used + |EndText(e)|)
    ensures RunBytes(r, EndText(e) + b) == RunBytes(r', b)
  {
    hide Dispatch, RunBytes;
    EndDispatch(r.st);
    r' := r.(st := r.st.(state := HeaderFieldStart), used := r.used + |EndText(e)|);
    if e.CrLf? {
      var r1 := r.(st := r.st.(state := ResLineAlmostDone), used := r.used + 1);
      assert EndText(e) + b == [CR] + ([LF] + b);
      OneGo(r, CR, r1.st, [LF] + b);
      EndDispatch(r1.st);
      OneGo(r1, LF, r'.st, b);
    } else {
      OneGo(r, LF, r'.st, b);
    }
  }

  // The end of a line with a reason.
  lemma ReasonEndRun(r: Run, e: LineEnd, b: Bytes) returns (r': Run)
    requires r.ctl == Next && r.pend.Open? && r.st.state == ResStatus
    ensures r' == r.(st := r.st.(state := HeaderFieldStart), pend := Closed, used := r.used + |EndText(e)|,
                     trace := Emit(r.trace, Data(r.pend.kind, r.pend.bytes)))
    ensures RunBytes(r, EndText(e) + b) == RunBytes(r', b)
  {
    hide Dispatch, RunBytes, Emit, Resume;
    ReasonDispatch(r.st, ' ');
    if e.CrLf? {
      ReasonLast(r, CR, r.st.(state := ResLineAlmostDone));
      var r1 := Resume(r, CR);
      assert EndText(e) + b == [CR] + ([LF] + b);
      RunAppend(r, [CR], [LF] + b);
      RunOne(r, CR);
      EndDispatch(r1.st);
      OneGo(r1, LF, r1.st.(state := HeaderFieldStart), b);
      r' := r1.(st := r1.st.(state := HeaderFieldStart), used := r1.used + 1);
    } else {
      ReasonLast(r, LF, r.st.(state := HeaderFieldStart));
      RunAppend(r, [LF], b);
      RunOne(r, LF);
      r' := Resume(r, LF);
    }
  }

  // The first line behind the status.
  lemma EndOfLine(r: Run, q: Response, b: Bytes) returns (r': Run)
    requires r.ctl == Next && r.pend == Closed && r.st.state == ResStatusCode
    requires q.reason.Some? ==> ReasonOk(q.reason.value)
    requires r.trace == [] || !r.trace[|r.trace| - 1].Data?
    ensures r' == r.(st := r.st.(state := HeaderFieldStart, index := r'.st.index), used := r.used + |ReasonText(q)|,
                     trace := r.trace + ReasonEvents(q.reason))
    ensures RunBytes(r, ReasonText(q) + b) == RunBytes(r', b)
  {
    hide RunBytes, Dispatch, EndText, ReasonOk, ReasonText, ReasonEvents;
    ReasonCut(q, b);
    if q.reason.None? {
      NoReason(r.trace, q.reason);
      r' := LineEndRun(r, q.lineEnd, b);
    } else {
      StatusDispatch(r.st, '0');
      var r1 := r.(st := r.st.(state := ResStatusStart), used := r.used + 1);
      OneGo(r, ' ', r1.st, q.reason.value + (EndText(q.lineEnd) + b));
      r' := ReasonLine(r1, q.reason.value, q.lineEnd, b);
    }
  }

  lemma ReasonCut(q: Response, b: Bytes)
    ensures q.reason.None? ==> ReasonText(q) == EndText(q.lineEnd)
    ensures q.reason.Some? ==>
              && ReasonText(q) + b == [' '] + (q.reason.value + (EndText(q.lineEnd) + b))
              && |ReasonText(q)| == 1 + |q.reason.value| + |EndText(q.lineEnd)|
  {
    hide EndText;
  }

  lemma NoReason(t: Trace, reason: Option<Bytes>)
    requires reason.None?
    ensures t + ReasonEvents(reason) == t
  {
  }

  // The first line behind the space that follows the status.
  lemma ReasonLine(r: Run, reason: Bytes, e: LineEnd, b: Bytes) returns (r': Run)
    requires r.ctl == Next && r.pend == Closed && r.st.state == ResStatusStart && ReasonOk(reason)
    requires r.trace == [] || !r.trace[|r.trace| - 1].Data?
    ensures r' == r.(st := r.st.(state := HeaderFieldStart, index := r'.st.index),
                     used := r.used + |reason| + |EndText(e)|, trace := r.trace + ReasonEvents(Some(reason)))
    ensures RunBytes(r, reason + (EndText(e) + b)) == RunBytes(r', b)
  {
    hide RunBytes, Dispatch, EndText, ReasonOk;
    var c := EndText(e) + b;
    if reason == [] {
      assert reason + c == c;
      assert r.trace + ReasonEvents(Some(reason)) == r.trace;
      r' := LineEndRun(r, e, b);
    } else {
      var r1 := WholeReason(r, reason);
      RunAppend(r, reason, c);
      r' := ReasonEndRun(r1, e, b);
      assert r.trace + ReasonEvents(Some(reason)) == Emit(r.trace, Data(StatusData, reason));
    }
  }

  // ---------- the head

  // A parser that waits for a response.
  ghost predicate Waiting(s: Parser) {
    Inv(s) && s.state == StartRes && s.ptype == ParserType.Response && s.meth != CONNECT
  }

  lemma FreshWaits(answerNoBody: bool)
    ensures Waiting(Fresh(ParserType.Response, answerNoBody)) && Inv(Fresh(ParserType.Response, answerNoBody))
  {
  }

  // What the first line makes of the parser.
  function AfterLine(s: Parser, q: Response): Parser
    requires PartsOk(q)
  {
    s.(flags := NO_FLAGS, contentLength := ULLONG_MAX, major := Decimal(0, q.major), minor := Decimal(0, q.minor),
       status := Decimal(0, q.status), state := HeaderFieldStart)
  }

  lemma StartWaiting(s: Parser, t: Trace)
    requires Waiting(s)
    ensures s.errno == Ok && s.state == StartRes && Start(s, t) == Run(s, t, Closed, Next, 0) && Inv(s)
  {
    hide Inv;
    InvOk(s);
  }

  lemma LeadDispatch(s: Parser, ch: Byte)
    requires s.state == StartRes && (ch == CR || ch == LF)
    ensures Dispatch(s, ch) == Outcome(s.(flags := NO_FLAGS, contentLength := ULLONG_MAX), Notify(MessageBegin), Next)
  {
    hide DispatchHeader, DispatchBody, DispatchUrl, DispatchResponseLine, DispatchRequestLine;
  }

  // The line ends in front of a response.
  lemma {:induction false} LeadRun(r: Run, xs: Bytes, b: Bytes) returns (r': Run)
    requires r.ctl == Next && r.pend == Closed && r.st.state == StartRes && LeadOk(xs)
    ensures r' == r.(st := r.st.(flags := r'.st.flags, contentLength := r'.st.contentLength), used := r.used + |xs|,
                     trace := r.trace + Begins(|xs|))
    ensures RunBytes(r, xs + b) == RunBytes(r', b)
    decreases |xs|
  {
    hide Dispatch, RunBytes, Resume;
    if xs == [] {
      assert xs + b == b && r.trace + Begins(0) == r.trace;
      r' := r;
    } else {
      var s := r.st.(flags := NO_FLAGS, contentLength := ULLONG_MAX);
      LeadDispatch(r.st, xs[0]);
      NotifyRun(r, xs[0], s, MessageBegin);
      assert xs + b == [xs[0]] + (xs[1..] + b);
      RunAppend(r, [xs[0]], xs[1..] + b);
      RunOne(r, xs[0]);
      r' := LeadRun(Resume(r, xs[0]), xs[1..], b);
      assert r.trace + [MessageBegin] + Begins(|xs| - 1) == r.trace + Begins(|xs|);
    }
  }

  lemma StartDispatch(s: Parser)
    requires s.state == StartRes
    ensures Dispatch(s, 'H') == Outcome(s.(flags := NO_FLAGS, contentLength := ULLONG_MAX, state := ResH),
                                        Notify(MessageBegin), Next)
  {
  }

  lemma FirstLetter(r: Run, b: Bytes) returns (r': Run)
    requires r.ctl == Next && r.pend == Closed && r.st.state == StartRes
    ensures r' == r.(st := r.st.(flags := NO_FLAGS, contentLength := ULLONG_MAX, state := ResH), used := r.used + 1,
                     trace := r.trace + [MessageBegin])
    ensures RunBytes(r, ['H'] + b) == RunBytes(r', b)
  {
    hide Dispatch, Resume, RunBytes;
    StartDispatch(r.st);
    NotifyRun(r, 'H', r.st.(flags := NO_FLAGS, contentLength := ULLONG_MAX, state := ResH), MessageBegin);
    RunAppend(r, ['H'], b);
    RunOne(r, 'H');
    r' := Resume(r, 'H');
  }

  lemma LineSplit(q: Response, b: Bytes)
    ensures |PROTOCOL| == 5
    ensures |LineText(q)| == |q.lead| + 7 + |q.major| + |q.minor| + |q.spaces| + |q.status| + |ReasonText(q)|
    ensures var c := [' '] + (q.spaces + (q.status + (ReasonText(q) + b)));
            LineText(q) + b == q.lead + (['H'] + (PROTOCOL[1..] + (q.major + (['.'] + (q.minor + c)))))
  {
    hide ReasonText;
    var w5 := q.status + ReasonText(q);
    Regroup(q.status, ReasonText(q), b);
    var w4 := q.spaces + w5;
    Regroup(q.spaces, w5, b);
    Regroup([' '], w4, b);
    var w3 := [' '] + w4;
    Regroup(q.minor, w3, b);
    Regroup(['.'], q.minor + w3, b);
    var w2 := ['.'] + (q.minor + w3);
    Regroup(q.major, w2, b);
    Regroup(PROTOCOL, q.major + w2, b);
    Regroup(q.lead, PROTOCOL + (q.major + w2), b);
    Regroup(['H'], PROTOCOL[1..], q.major + w2 + b);
    assert ['H'] + PROTOCOL[1..] == PROTOCOL;
  }

  /** The first line of a response. */
  lemma FirstLineRun(r: Run, q: Response, b: Bytes) returns (r': Run)
    requires r.ctl == Next && r.pend == Closed && r.st.state == StartRes && PartsOk(q)
    ensures r' == r.(st := AfterLine(r.st, q).(index := r'.st.index), used := r.used + |LineText(q)|,
                     trace := r.trace + LineStart(q))
    ensures RunBytes(r, LineText(q) + b) == RunBytes(r', b)
  {
    hide RunBytes, Decimal, PROTOCOL, NumberOk, ReasonOk, ReasonText, LineText, ReasonEvents, HeadersOk, LeadOk, Spaces,
         Begins;
    LineSplit(q, b);
    var c2 := [' '] + (q.spaces + (q.status + (ReasonText(q) + b)));
    var c0 := q.major + (['.'] + (q.minor + c2));
    var r0 := LeadRun(r, q.lead, ['H'] + (PROTOCOL[1..] + c0));
    var r1 := FirstLetter(r0, PROTOCOL[1..] + c0);
    ProtocolRun(r1, true, 1, c0);
    var r2 := r1.(st := r1.st.(state := ResFirstHttpMajor), used := r1.used + 4);
    var r3 := NumbersRun(r2, q, ReasonText(q) + b);
    r' := EndOfLine(r3, q, b);
    assert r.trace + Begins(|q.lead|) + [MessageBegin] + ReasonEvents(q.reason) == r.trace + LineStart(q);
  }

  // The numbers of the first line.
  lemma NumbersRun(r: Run, q: Response, b: Bytes) returns (r': Run)
    requires r.ctl == Next && r.pend == Closed && r.st.state == ResFirstHttpMajor && PartsOk(q)
    ensures r' == r.(st := r.st.(major := Decimal(0, q.major), minor := Decimal(0, q.minor),
                                 status := Decimal(0, q.status), state := ResStatusCode),
                     used := r.used + |q.major| + 2 + |q.minor| + |q.spaces| + |q.status|)
    ensures RunBytes(r, q.major + (['.'] + (q.minor + ([' '] + (q.spaces + (q.status + b)))))) == RunBytes(r', b)
  {
    hide RunBytes, Decimal, NumberOk, ReasonOk, HeadersOk, LeadOk, Spaces;
    var r1 := VersionRun(r, true, q.major, q.minor, [' '] + (q.spaces + (q.status + b)));
    r' := StatusRun(r1, q.spaces, q.status, b);
  }

  // The parser behind the head of a response.
  ghost predicate AtBody(q: Response, st: Parser, s: Parser)
    requires ResponseOk(q, st.answerNoBody)
  {
    && s == AfterHead(AfterLine(st, q).(flags := LinesFlags(NO_FLAGS, q.headers), contentLength := Length(q)))
            .(state := s.state, hstate := s.hstate, index := s.index)
    && s.upgrade == TakesOver(q) && Fits(q.body, s) && s.state == BodyState(s).0
  }

  lemma AfterHeaders(st: Parser, q: Response, i: nat, s: Parser)
    requires Waiting(st) && ResponseOk(q, st.answerNoBody)
    requires Effects(q.headers, AfterLine(st, q).(index := i), s)
    ensures !s.flags.trailing && AfterHead(s).upgrade == TakesOver(q)
    ensures AtBody(q, st, AfterHead(s).(state := BodyState(AfterHead(s)).0))
  {
    hide SomeChunked, SomeUpgrade, SomeOption, Decimal, Inv, NumberOk, ReasonOk, ShouldKeepAlive, ChunksOk, LastOk,
         HeadersOk;
    SameBody(q.body, AfterHead(s), BodyState(AfterHead(s)).0);
  }

  /** The head of a response. */
  lemma HeadRun(st: Parser, t: Trace, q: Response) returns (r: Run)
    requires Waiting(st) && ResponseOk(q, st.answerNoBody)
    ensures r == RunBytes(Start(st, t), HeadText(q)) && r.pend == Closed && r.used == |HeadText(q)|
    ensures AtBody(q, st, r.st) && r.ctl == if BodyState(r.st).1 && r.st.upgrade then Exit else Next
    ensures r.trace == t + HeadEvents(q) + if BodyState(r.st).1 then [MessageComplete] else []
  {
    hide RunBytes, PartsOk, Waiting, Effects, AfterLine, HeadersOk, BodyState, Fits, TakesOver, LineStart,
         NoField, LineText, Start, EndText, AfterHead, AtBody, Lasts;
    var end := EndText(q.headEnd);
    StartWaiting(st, t);
    HeaderPart(q);
    var r1 := FirstLineRun(Start(st, t), q, LinesText(q.headers) + end);
    LineFresh(t, q);
    LineState(q, st, r1.st.index);
    EndNotBlank(q.headEnd);
    var r2 := LinesRun(r1, q.headers, end);
    r := HeadLineRun(st, t, q, r1.st.index, r2);
  }

  // The empty line behind the headers.
  lemma HeadLineRun(st: Parser, t: Trace, q: Response, i: nat, r2: Run) returns (r: Run)
    requires Waiting(st) && ResponseOk(q, st.answerNoBody) && AtName(r2)
    requires Effects(q.headers, AfterLine(st, q).(index := i), r2.st)
    requires r2.trace == t + LineStart(q) + LineEvents(q.headers)
    ensures r == RunBytes(r2, EndText(q.headEnd)) && r.pend == Closed && r.used == r2.used + |EndText(q.headEnd)|
    ensures AtBody(q, st, r.st) && r.ctl == if BodyState(r.st).1 && r.st.upgrade then Exit else Next
    ensures r.trace == t + HeadEvents(q) + if BodyState(r.st).1 then [MessageComplete] else []
  {
    hide RunBytes, PartsOk, Waiting, Effects, AfterLine, HeadersOk, BodyState, Fits, TakesOver, EndText, AfterHead,
         AtBody, LineStart, Lasts;
    AfterHeaders(st, q, i, r2.st);
    r := HeadEnd(r2, q.headEnd);
    SameBody(q.body, AfterHead(r2.st), BodyState(AfterHead(r2.st)).0);
    assert r2.trace + [HeadersComplete(TakesOver(q))] == t + HeadEvents(q);
  }

  lemma HeaderPart(q: Response)
    requires PartsOk(q)
    ensures HeadersOk(q.headers)
  {
  }

  lemma LineFresh(t: Trace, q: Response)
    ensures NoField(t + LineStart(q))
  {
    hide Begins;
  }

  lemma LineState(q: Response, s: Parser, i: nat)
    requires PartsOk(q)
    ensures AfterLine(s, q).(index := i).state == HeaderFieldStart
  {
  }

  // ---------- the whole response

  // The parser behind a response; a body that lasts until the end of input is still being read.
  ghost predicate ResponseRead(q: Response, st: Parser, s: Parser)
    requires ResponseOk(q, st.answerNoBody)
  {
    && s.ptype == ParserType.Response && s.answerNoBody == st.answerNoBody && s.meth == st.meth
    && s.major == Decimal(0, q.major) && s.minor == Decimal(0, q.minor) && s.status == Decimal(0, q.status)
    && s.upgrade == TakesOver(q)
    && s.state == if q.body.UntilEnd? then BodyIdentityEof
                  else if KeepsAlive(q, st.answerNoBody) then StartRes else Dead
  }

  lemma BodyAhead(q: Response, st: Parser, s: Parser)
    requires ResponseOk(q, st.answerNoBody) && AtBody(q, st, s)
    ensures Fits(q.body, s) && s.state == BodyState(s).0 && s.upgrade == TakesOver(q)
  {
  }

  // The length of a finished message as the parser still knows it.
  lemma LengthLeft(q: Response, st: Parser, s: Parser, s': Parser)
    requires Waiting(st) && ResponseOk(q, st.answerNoBody) && AtBody(q, st, s) && MessageRead(q.body, s, s')
    ensures !q.body.UntilEnd? ==> (NeedsEof(s') <==> q.body.NoBody? && Lasts(q) && !st.answerNoBody)
  {
    hide SomeUpgrade, SomeOption, Decimal, Inv, NumberOk, ReasonOk, ChunksOk, LastOk, Fits, BodyState, HeadersOk,
         TakesOver, SomeChunked;
  }

  lemma BodyRead(q: Response, st: Parser, s: Parser, s': Parser)
    requires Waiting(st) && ResponseOk(q, st.answerNoBody) && AtBody(q, st, s) && MessageRead(q.body, s, s')
    ensures ResponseRead(q, st, s')
  {
    hide SomeChunked, SomeUpgrade, SomeOption, Decimal, Inv, NumberOk, ReasonOk, ChunksOk, LastOk, Fits, BodyState,
         HeadersOk, TakesOver, NeedsEof, Lasts;
    LengthLeft(q, st, s, s');
    SomeOptionAppend(q.headers, Trailing(q.body), Options.ToClose);
    SomeOptionAppend(q.headers, Trailing(q.body), Options.ToKeepAlive);
    NoneSome(Options.ToClose);
    NoneSome(Options.ToKeepAlive);
  }

  /** A well-formed response is read to its end, and the application is told exactly what was written: the
      reason, every header name and value in order, the end of the headers, the body and the end of the
      message. The parser then knows version and status, whether another protocol takes over, and whether
      the connection is kept for another response. */
  lemma ResponseRoundTrip(st: Parser, t: Trace, q: Response)
    requires Waiting(st) && ResponseOk(q, st.answerNoBody)
    ensures var e := Exec(st, t, Print(q));
            && e.ctl == (if TakesOver(q) then Exit else Next) && e.used == |Print(q)| && ResponseRead(q, st, e.st)
            && e.trace == t + HeadEvents(q) + TailEvents(q.body)
  {
    hide ResponseOk, HeadText, RunBytes, Inv, BodyState, LineEvents, Fits, BodyText, NewMessage, Decimal, Start,
         TakesOver, ResponseRead, MessageRead, AtBody, HeadEvents;
    var r := HeadRun(st, t, q);
    BodyAhead(q, st, r.st);
    StartWaiting(st, t);
    HeadNonempty(q);
    HeadLast(q, t);
    EmptyBody(q.body, r.st);
    MessageExec(st, t, HeadText(q), q.body, r);
    BodyRead(q, st, r.st, Exec(st, t, Print(q)).st);
  }

  lemma HeadLast(q: Response, t: Trace)
    ensures HeadEvents(q) != [] && !HeadEvents(q)[|HeadEvents(q)| - 1].Data?
    ensures t + HeadEvents(q) != [] && !(t + HeadEvents(q))[|t + HeadEvents(q)| - 1].Data?
  {
    hide LineStart;
  }

  lemma HeadNonempty(q: Response)
    ensures HeadText(q) != []
  {
  }

  /** The end of input ends a response whose body lasts until then. */
  lemma EndOfResponse(st: Parser, t: Trace, q: Response)
    requires Waiting(st) && ResponseOk(q, st.answerNoBody) && q.body.UntilEnd?
    ensures var e := Exec(st, t, Print(q));
            Exec(e.st, e.trace, []) == Result(e.st, t + HeadEvents(q) + TailEvents(q.body) + [MessageComplete], 0, Next)
  {
    hide RunBytes, Inv, Print, HeadEvents, PartsOk, Decimal, Lasts, Waiting, KeepsAlive, TakesOver;
    ResponseRoundTrip(st, t, q);
    StartWaiting(st, t);
    ExecKeepsInv(st, t, Print(q));
  }

  // ---------- responses in a row

  function Prints(qs: seq<Response>): seq<Bytes> { if qs == [] then [] else [Print(qs[0])] + Prints(qs[1..]) }

  ghost function AllEvents(qs: seq<Response>): Trace {
    if qs == [] then [] else HeadEvents(qs[0]) + TailEvents(qs[0].body) + AllEvents(qs[1..])
  }

  // Every response is well-formed, and all but the last keep the connection.
  ghost predicate RowOk(qs: seq<Response>, skip: bool) {
    && (forall i :: 0 <= i < |qs| ==> ResponseOk(qs[i], skip))
    && forall i :: 0 <= i < |qs| - 1 ==> KeepsAlive(qs[i], skip) && !TakesOver(qs[i]) && !qs[i].body.UntilEnd?
  }

  lemma WaitsAgain(st: Parser, t: Trace, q: Response)
    requires Waiting(st) && ResponseOk(q, st.answerNoBody)
    requires KeepsAlive(q, st.answerNoBody) && !TakesOver(q) && !q.body.UntilEnd?
    ensures var e := Exec(st, t, Print(q)); Waiting(e.st) && e.st.answerNoBody == st.answerNoBody
  {
    hide Exec, Inv, ResponseOk, KeepsAlive, TakesOver, Print, HeadEvents, TailEvents, Decimal;
    ResponseRoundTrip(st, t, q);
    StartWaiting(st, t);
    ExecKeepsInv(st, t, Print(q));
  }

  // What is known behind the last of several responses.
  ghost predicate RowRead(q: Response, skip: bool, s: Parser)
    requires ResponseOk(q, skip)
  {
    && s.major == Decimal(0, q.major) && s.minor == Decimal(0, q.minor) && s.status == Decimal(0, q.status)
    && s.upgrade == TakesOver(q)
    && s.state == if q.body.UntilEnd? then BodyIdentityEof else if KeepsAlive(q, skip) then StartRes else Dead
  }

  lemma ReadInRow(q: Response, st: Parser, s: Parser)
    requires ResponseOk(q, st.answerNoBody) && ResponseRead(q, st, s)
    ensures RowRead(q, st.answerNoBody, s)
  {
    hide PartsOk, KeepsAlive, TakesOver, Lasts, Decimal;
  }

  lemma RowOfOne(q: Response)
    ensures Prints([q]) == [Print(q)] && AllEvents([q]) == HeadEvents(q) + TailEvents(q.body)
  {
    hide Print, HeadEvents, TailEvents;
    assert [q][1..] == [];
    assert Prints([]) == [] && AllEvents([]) == [];
  }

  lemma {:induction false} RowRoundTrip(st: Parser, t: Trace, qs: seq<Response>)
    requires Waiting(st) && qs != [] && RowOk(qs, st.answerNoBody)
    ensures var e, last := ExecAll(st, t, Prints(qs)), qs[|qs| - 1];
            && e.ctl == (if TakesOver(last) then Exit else Next) && e.used == |Concat(Prints(qs))|
            && RowRead(last, st.answerNoBody, e.st) && e.trace == t + AllEvents(qs)
    decreases |qs|
  {
    hide Exec, Inv, ResponseOk, KeepsAlive, TakesOver, Print, HeadEvents, TailEvents, Decimal, Waiting,
         ResponseRead, RowRead;
    var q, more := qs[0], qs[1..];
    ResponseRoundTrip(st, t, q);
    var e1 := Exec(st, t, Print(q));
    var here := HeadEvents(q) + TailEvents(q.body);
    assert t + HeadEvents(q) + TailEvents(q.body) == t + here;
    if more == [] {
      assert qs == [q];
      RowOfOne(q);
      OneExec(st, t, Print(q));
      ReadInRow(q, st, e1.st);
    } else {
      WaitsAgain(st, t, q);
      RowRoundTrip(e1.st, e1.trace, more);
      assert Prints(qs)[1..] == Prints(more);
      assert t + here + AllEvents(more) == t + (here + AllEvents(more));
    }
  }

  lemma PrintsNonempty(qs: seq<Response>, i: nat)
    requires i < |Prints(qs)|
    ensures Prints(qs)[i] != []
    decreases i
  {
    hide HeadText, BodyText;
    if i == 0 {
      HeadNonempty(qs[0]);
    } else {
      PrintsNonempty(qs[1..], i - 1);
    }
  }

  /** Any number of responses in a row, cut into buffers in any way: each is reported exactly as it was
      written, one after the other. */
  lemma ResponsesAnySplit(st: Parser, t: Trace, qs: seq<Response>, bufs: seq<Bytes>)
    requires Waiting(st) && qs != [] && RowOk(qs, st.answerNoBody)
    requires bufs != [] && (forall i :: 0 <= i < |bufs| ==> bufs[i] != []) && Concat(bufs) == Concat(Prints(qs))
    ensures var e, last := ExecAll(st, t, bufs), qs[|qs| - 1];
            && e.ctl == (if TakesOver(last) then Exit else Next) && e.used == |Concat(bufs)|
            && RowRead(last, st.answerNoBody, e.st) && e.trace == t + AllEvents(qs)
  {
    hide Exec, ExecAll, Inv, ResponseOk, Print, HeadEvents, TailEvents, RowRead, TakesOver, KeepsAlive;
    RowRoundTrip(st, t, qs);
    StartWaiting(st, t);
    forall i | 0 <= i < |Prints(qs)| ensures Prints(qs)[i] != [] { PrintsNonempty(qs, i); }
    AnySplit(st, t, Prints(qs));
    AnySplit(st, t, bufs);
  }

  // The shortest kind of response is among the well-formed ones, alone and in a row.
  lemma ShortestResponse()
    ensures var q := Response.Response([], ['1'], ['1'], [], ['2', '0', '4'], None, BareLf, [], BareLf, NoBody);
            ResponseOk(q, false) && RowOk([q], false)
  {
    var status: Bytes := ['2', '0', '4'];
    assert status[1..] == ['0', '4'] && status[1..][1..] == ['4'] && status[1..][1..][1..] == [];
    assert ['1'][1..] == [];
  }
}
