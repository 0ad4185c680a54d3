/** Whole connections: a new parser is given the buffers of a connection one after the other. */
module HttpSessions {
  import opened HttpTypes
  import opened HttpDispatch
  import opened HttpInvariant
  import opened HttpRun
  import opened HttpCounting
  import opened HttpHeaderLimit
  import opened HttpParser
  import opened HttpMessageLimit
  import Requests = HttpRequests
  import Responses = HttpResponses

  // ---------- what the application sees of a call that has stopped

  // The parser is between messages.
  predicate AtRest(s: State) { s.Dead? || s.StartReqOrRes? || s.StartReq? || s.StartRes? }

  // A message has ended with which another protocol takes over.
  predicate HandsOver(s: Parser) { s.upgrade && AtRest(s.state) }

  ghost predicate Shows(o: Outcome) {
    && (o.ctl == Next || o.ctl == Reexec ==> !HandsOver(o.st))
    && (o.ctl == Exit ==> HandsOver(o.st))
  }

  lemma NameShows(s: Parser, ch: Byte)
    requires s.state.HeaderField?
    ensures Shows(DispatchField(s, ch))
  {
    hide NameStep, TokenChar, IsNameState, CountsIndex;
  }

  lemma ValueShows(s: Parser, ch: Byte)
    requires s.state.HeaderValue?
    ensures Shows(DispatchValue(s, ch))
  {
    hide Lower, TokenChar, Follow, SetOption;
  }

  lemma DoneShows(s: Parser, ch: Byte)
    requires s.state.HeadersDone?
    ensures Shows(DispatchHeadersDone(s, ch))
  {
    hide ShouldKeepAlive, NeedsEof;
  }

  lemma HeaderShows(s: Parser, ch: Byte)
    requires IsHeaderState(s.state)
    ensures Shows(DispatchHeader(s, ch))
  {
    hide DispatchField, FirstNameState, FinishValue, TokenChar, DispatchValue, Lower, DispatchHeadersDone;
    if s.state.HeaderField? {
      NameShows(s, ch);
    } else if s.state.HeaderValue? {
      ValueShows(s, ch);
    } else if s.state.HeadersDone? {
      DoneShows(s, ch);
    }
  }

  lemma BodyShows(s: Parser, ch: Byte)
    requires IsBodyState(s.state)
    ensures Shows(DispatchBody(s, ch))
  {
    hide ShouldKeepAlive;
  }

  lemma UrlShows(s: Parser, ch: Byte)
    requires IsUrlState(s.state)
    ensures Shows(DispatchUrl(s, ch))
  {
    hide ParseUrlChar;
    UrlCharStays(s.state, ch);
  }

  lemma ResponseShows(s: Parser, ch: Byte)
    requires IsResponseState(s.state)
    ensures Shows(DispatchResponseLine(s, ch))
  {
    hide IsNum, Digit;
  }

  lemma UrlStartShows(s: Parser, ch: Byte)
    requires s.state.ReqSpacesBeforeUrl?
    ensures Shows(DispatchUrlStart(s, ch))
  {
    hide ParseUrlChar;
    UrlCharStays(if s.meth == CONNECT then ReqServerStart else ReqSpacesBeforeUrl, ch);
  }

  lemma RequestShows(s: Parser, ch: Byte)
    requires IsRequestState(s.state)
    ensures Shows(DispatchRequestLine(s, ch))
  {
    hide IsNum, Digit, DispatchUrlStart;
    if s.state.ReqSpacesBeforeUrl? {
      UrlStartShows(s, ch);
    }
  }

  lemma BeginShows(s: Parser, ch: Byte)
    requires !IsHeaderState(s.state) && !IsBodyState(s.state) && !HandsOver(s)
    requires !IsUrlState(s.state) && !IsResponseState(s.state) && !IsRequestState(s.state)
    ensures Shows(DispatchStart(s, ch))
  {
    hide FirstMethod, SwitchMethod, MethodString;
  }

  lemma StartShows(s: Parser, ch: Byte)
    requires !IsHeaderState(s.state) && !IsBodyState(s.state) && !HandsOver(s)
    ensures Shows(DispatchStartLine(s, ch))
  {
    hide DispatchUrl, DispatchResponseLine, DispatchRequestLine, DispatchStart, Shows;
    if IsUrlState(s.state) {
      UrlShows(s, ch);
    } else if IsResponseState(s.state) {
      ResponseShows(s, ch);
    } else if IsRequestState(s.state) {
      RequestShows(s, ch);
    } else {
      BeginShows(s, ch);
    }
  }

  lemma PassShows(s: Parser, ch: Byte)
    requires !HandsOver(s)
    ensures Shows(Dispatch(s, ch))
  {
    hide DispatchHeader, DispatchBody, DispatchStartLine, Shows;
    if IsHeaderState(s.state) {
      HeaderShows(s, ch);
    } else if IsBodyState(s.state) {
      BodyShows(s, ch);
    } else {
      StartShows(s, ch);
    }
  }

  lemma {:induction false} ByteShows(r: Run, ch: Byte)
    requires r.ctl == Next && !HandsOver(r.st)
    ensures var q := Resume(r, ch);
            (q.ctl == Next ==> !HandsOver(q.st)) && (q.ctl == Exit ==> HandsOver(q.st))
    decreases Rank(r.st.state)
  {
    hide Dispatch, Step, HandsOver, Rank;
    var o := Dispatch(r.st, ch);
    PassShows(r.st, ch);
    StepShape(r, o, ch);
    if o.ctl == Reexec {
      ReexecDescends(r.st, ch);
      ByteShows(Step(r, o, ch), ch);
    }
  }

  lemma {:induction false} RunShows(r: Run, xs: Bytes)
    requires r.ctl == Next && !HandsOver(r.st)
    ensures var q := RunBytes(r, xs);
            (q.ctl == Next ==> !HandsOver(q.st)) && (q.ctl == Exit ==> HandsOver(q.st))
    decreases |xs|
  {
    hide Resume, HandsOver;
    if xs != [] {
      ByteShows(r, xs[0]);
      if Resume(r, xs[0]).ctl == Next {
        RunShows(Resume(r, xs[0]), xs[1..]);
      }
    }
  }

  /** A call that has met no error has returned early, for another protocol to take over, if and only if the parser
      is between messages and its upgrade flag is set; the flag alone is also set while such a message is read. */
  lemma StopShows(st: Parser, t: Trace, data: Bytes)
    requires Inv(st) && !HandsOver(st) && data != []
    ensures var e := Exec(st, t, data);
            && (e.ctl == Exit <==> e.ctl != Failed && HandsOver(e.st))
            && (e.ctl == Next || e.ctl == Exit || e.ctl == Failed)
            && (e.ctl == Failed <==> e.st.errno != Ok)
  {
    hide Inv, RunBytes, HandsOver, RunOk;
    RunShows(Start(st, t), data);
    ExecKeepsInv(st, t, data);
    StartOk(st, t);
    RunOkAll(Start(st, t), data);
    Ends(RunBytes(Start(st, t), data));
    InvOk(st);
  }

  lemma Ends(r: Run)
    requires RunOk(r)
    ensures r.ctl == Next || r.ctl == Exit || r.ctl == Failed
  {
    hide Inv, OpenToken;
  }

  // ---------- feeding a parser

  /** Feeds the buffers to the parser until it reports an error or another protocol takes over. The header of a
      message is found too large if and only if the counter goes beyond the limit, and then the callbacks are a
      beginning of those without a limit; else the parser, the callbacks and the number of bytes consumed are those
      of the calls one after the other. */
  method Feed(p: HttpParser, bufs: seq<Bytes>) returns (n: nat)
    requires p.Valid() && p.st.errno == Ok && !HandsOver(p.st)
    requires forall i :: 0 <= i < |bufs| ==> bufs[i] != [] && |bufs[i]| < MAX_BUFFER
    modifies p
    ensures p.Valid()
    ensures p.st.errno == HeaderOverflow <==> !FitsAll(old(p.st), Merged(old(p.events)), old(p.nread), bufs)
    ensures var e := ExecAll(old(p.st), Merged(old(p.events)), bufs);
            if p.st.errno == HeaderOverflow then IsBeginning(Merged(p.events), e.trace)
            else p.st == e.st && n == e.used && Merged(p.events) == e.trace
  {
    hide Inv, Exec, Merged, Counter, HandsOver, IsBeginning;
    n := 0;
    ghost var s0, t0, n0 := p.st, Merged(p.events), p.nread;
    var i := 0;
    assert bufs[0..] == bufs;
    while i < |bufs|
      invariant i <= |bufs| && p.Valid() && p.st.errno == Ok && !HandsOver(p.st)
      invariant FitsAll(s0, t0, n0, bufs) <==> FitsAll(p.st, Merged(p.events), p.nread, bufs[i..])
      invariant var rest := ExecAll(p.st, Merged(p.events), bufs[i..]);
                ExecAll(s0, t0, bufs) == rest.(used := n + rest.used)
    {
      StopShows(p.st, Merged(p.events), bufs[i]);
      assert bufs[i..][1..] == bufs[i + 1..];
      ExecAllExtends(p.st, Merged(p.events), bufs[i..]);
      ghost var told := Exec(p.st, Merged(p.events), bufs[i]).trace;
      var k := p.Execute(bufs[i]);
      n, i := n + k, i + 1;
      if p.st.errno != Ok || HandsOver(p.st) {
        if p.st.errno == HeaderOverflow {
          BeginningOf(Merged(p.events), told, ExecAll(s0, t0, bufs).trace);
        }
        return;
      }
    }
  }

  lemma NothingMerged()
    ensures Merged([]) == []
  {
  }

  // The buffers that hold the text, none of them empty or too long for one call.
  ghost predicate Cut(bufs: seq<Bytes>, text: Bytes) {
    && bufs != [] && (forall i :: 0 <= i < |bufs| ==> bufs[i] != [] && |bufs[i]| < MAX_BUFFER)
    && Concat(bufs) == text
  }

  /** A new parser and any row of well-formed requests, cut into buffers in any way. Either a header is found too
      large, and the application has been told a beginning of what was written, or every byte is consumed and it is
      told exactly what was written. Where no buffer ends
      inside a name or a value, the first happens if and only if some part of the row exceeds the limit; however the
      row is cut, it does not happen if all parts keep within half of it. */
  method ReadRequests(skip: bool, ghost qs: seq<Requests.Request>, bufs: seq<Bytes>) returns (p: HttpParser, n: nat)
    requires qs != [] && Requests.RowOk(qs, skip) && Cut(bufs, Concat(Requests.Prints(qs)))
    ensures fresh(p) && p.Valid()
    ensures p.st.errno == HeaderOverflow <==> !FitsAll(Fresh(ParserType.Request, skip), [], 0, bufs)
    ensures EndsClean(Fresh(ParserType.Request, skip), [], bufs) ==>
              (p.st.errno == HeaderOverflow <==> RequestsPeak(0, qs) > MAX_HEADER_SIZE)
    ensures 2 * RequestsPeak(0, qs) <= MAX_HEADER_SIZE ==> p.st.errno != HeaderOverflow
    ensures p.st.errno == HeaderOverflow ==> IsBeginning(Merged(p.events), Requests.AllEvents(qs))
    ensures p.st.errno != HeaderOverflow ==>
              && p.st.errno == Ok && n == |Concat(bufs)| && Merged(p.events) == Requests.AllEvents(qs)
              && Requests.RequestRead(qs[|qs| - 1], Fresh(ParserType.Request, skip), p.st)
  {
    hide Inv, FitsAll, ExecAll, Requests.RequestOk, Requests.Waiting, Requests.RequestRead, Requests.AllEvents,
         Requests.TakesOver, Requests.KeepsAlive, EndsClean, RequestsPeak, IsBeginning;
    NothingMerged();
    Requests.FreshWaits(skip);
    RequestsFit(Fresh(ParserType.Request, skip), [], qs, bufs);
    p := new HttpParser.Init(ParserType.Request, skip);
    n := Feed(p, bufs);
    Requests.RequestsAnySplit(Fresh(ParserType.Request, skip), [], qs, bufs);
    AllKeepOk(Fresh(ParserType.Request, skip), [], bufs);
    assert [] + Requests.AllEvents(qs) == Requests.AllEvents(qs);
  }

  // The connection is closed between messages or in a body that lasts until then.
  method CloseInput(p: HttpParser)
    requires p.Valid() && p.st.errno == Ok
    requires p.st.state.BodyIdentityEof? || p.st.state.StartRes? || p.st.state.Dead?
    modifies p
    ensures p.Valid() && p.st == old(p.st)
    ensures Merged(p.events)
            == Merged(old(p.events)) + if p.st.state.BodyIdentityEof? then [MessageComplete] else []
  {
    hide Inv, Merged, Counter;
    CounterNothing(Start(p.st, Merged(p.events)), p.nread);
    var _ := p.Execute([]);
  }

  /** The same of responses; in the end the connection is closed, which ends a body that lasts until then. */
  method ReadResponses(skip: bool, ghost qs: seq<Responses.Response>, bufs: seq<Bytes>) returns (p: HttpParser, n: nat)
    requires qs != [] && Responses.RowOk(qs, skip) && Cut(bufs, Concat(Responses.Prints(qs)))
    ensures fresh(p) && p.Valid()
    ensures p.st.errno == HeaderOverflow <==> !FitsAll(Fresh(ParserType.Response, skip), [], 0, bufs)
    ensures EndsClean(Fresh(ParserType.Response, skip), [], bufs) ==>
              (p.st.errno == HeaderOverflow <==> ResponsesPeak(0, qs) > MAX_HEADER_SIZE)
    ensures 2 * ResponsesPeak(0, qs) <= MAX_HEADER_SIZE ==> p.st.errno != HeaderOverflow
    ensures p.st.errno == HeaderOverflow ==> IsBeginning(Merged(p.events), Responses.AllEvents(qs))
    ensures p.st.errno != HeaderOverflow ==>
              && p.st.errno == Ok && n == |Concat(bufs)| && Responses.RowRead(qs[|qs| - 1], skip, p.st)
              && Merged(p.events)
                 == Responses.AllEvents(qs) + if qs[|qs| - 1].body.UntilEnd? then [MessageComplete] else []
  {
    hide Inv, FitsAll, ExecAll, Responses.ResponseOk, Responses.Waiting, Responses.RowRead, Responses.AllEvents,
         Responses.TakesOver, Responses.KeepsAlive, Merged, EndsClean, ResponsesPeak, IsBeginning;
    NothingMerged();
    Responses.FreshWaits(skip);
    ResponsesFit(Fresh(ParserType.Response, skip), [], qs, bufs);
    p := new HttpParser.Init(ParserType.Response, skip);
    n := Feed(p, bufs);
    Responses.ResponsesAnySplit(Fresh(ParserType.Response, skip), [], qs, bufs);
    AllKeepOk(Fresh(ParserType.Response, skip), [], bufs);
    assert [] + Responses.AllEvents(qs) == Responses.AllEvents(qs);
    if p.st.errno == Ok {
      RowState(qs[|qs| - 1], skip, p.st);
      CloseInput(p);
    }
  }

  lemma RowState(q: Responses.Response, skip: bool, s: Parser)
    requires Responses.ResponseOk(q, skip) && Responses.RowRead(q, skip, s)
    ensures if q.body.UntilEnd? then s.state == BodyIdentityEof else s.state == StartRes || s.state == Dead
  {
    hide Responses.PartsOk, Responses.KeepsAlive, Responses.TakesOver, Responses.Lasts;
  }

  // Calls that do not fail report no error.
  lemma {:induction false} AllKeepOk(st: Parser, t: Trace, bufs: seq<Bytes>)
    requires Inv(st)
    ensures ExecAll(st, t, bufs).ctl != Failed ==> ExecAll(st, t, bufs).st.errno == Ok
    decreases |bufs|
  {
    hide Inv, Exec;
    InvOk(st);
    if bufs != [] {
      ExecKeepsInv(st, t, bufs[0]);
      var e := Exec(st, t, bufs[0]);
      if e.ctl == Next {
        AllKeepOk(e.st, e.trace, bufs[1..]);
      }
    }
  }
}
