/** The end of the headers, and the body that follows: which kind it is, and that it is handed out exactly. */
module HttpBodies {
  import opened HttpTypes
  import opened HttpDispatch
  import opened HttpInvariant
  import opened HttpRun
  import opened HttpSkips
  import opened HttpFolding
  import opened HttpHeaderLines
  import opened HttpChunked

  // ---------- bodies

  // No body, one of known length, a chunked one, or one that lasts until the end of input.
  datatype Body =
    | NoBody
    | Sized(bytes: Bytes)
    | Coded(chunks: seq<Chunk>, last: Chunk, trailer: Trailer)
    | UntilEnd(bytes: Bytes)

  function BodyText(b: Body): Bytes {
    match b
    case NoBody => []
    case Sized(bytes) => bytes
    case Coded(chunks, last, trailer) => Encode(chunks, last, trailer)
    case UntilEnd(bytes) => bytes
  }

  // What the application is told behind the end of the headers.
  function TailEvents(b: Body): Trace {
    match b
    case NoBody => [MessageComplete]
    case Sized(bytes) => [Data(BodyData, bytes), MessageComplete]
    case Coded(chunks, _, trailer) => BodyEvents(chunks, trailer)
    case UntilEnd(bytes) => if bytes == [] then [] else [Data(BodyData, bytes)]
  }

  // The header lines in the body's trailer.
  function Trailing(b: Body): seq<Header> { if b.Coded? then b.trailer.lines else [] }

  // The parser at the end of the headers: it knows whether another protocol takes over and whether the body
  // is left out.
  function AfterHead(s: Parser): Parser {
    s.(state := HeadersDone, upgrade := (s.flags.upgrade && s.flags.connUpgrade) || s.meth == CONNECT,
       flags := s.flags.(skipBody := s.flags.skipBody || s.answerNoBody))
  }

  predicate HasBody(s: Parser) { s.flags.chunked || (s.contentLength > 0 && s.contentLength != ULLONG_MAX) }

  // The state after the empty line behind the headers, and whether that ends the message.
  function BodyState(s: Parser): (State, bool) {
    if s.flags.skipBody || (s.upgrade && (s.meth == CONNECT || !HasBody(s))) then (NewMessage(s), true)
    else if s.flags.chunked then (ChunkSizeStart, false)
    else if s.contentLength == 0 then (NewMessage(s), true)
    else if s.contentLength != ULLONG_MAX then (BodyIdentity, false)
    else if NeedsEof(s) then (BodyIdentityEof, false)
    else (NewMessage(s), true)
  }

  // The body is the one that the headers announce.
  ghost predicate Fits(b: Body, s: Parser) {
    match b
    case NoBody => BodyState(s).1
    case Sized(bytes) => BodyState(s).0 == BodyIdentity && |bytes| == s.contentLength
    case Coded(chunks, last, trailer) =>
      BodyState(s).0 == ChunkSizeStart && ChunksOk(chunks) && LastOk(last, trailer)
    case UntilEnd(_) => BodyState(s).0 == BodyIdentityEof
  }

  // ---------- the empty line

  lemma HeadEndDispatch(s: Parser)
    requires !s.flags.trailing
    ensures s.state == HeaderFieldStart ==>
              && Dispatch(s, CR) == Go(s.(state := HeadersAlmostDone))
              && Dispatch(s, LF) == Again(s, HeadersAlmostDone)
    ensures s.state == HeadersAlmostDone ==>
              Dispatch(s, LF) == Outcome(AfterHead(s), Notify(HeadersComplete(AfterHead(s).upgrade)), Reexec)
    ensures s.state == HeadersDone ==>
              var (next, ends) := BodyState(s);
              Dispatch(s, LF) == Outcome(s.(state := next), if ends then Notify(MessageComplete) else NoAct,
                                         if ends && s.upgrade then Exit else Next)
  {
    hide ShouldKeepAlive, NeedsEof;
  }

  lemma FeedRun(r: Run) returns (r': Run)
    requires r.ctl == Next && r.pend == Closed && r.st.state == HeadersAlmostDone && !r.st.flags.trailing
    ensures r' == Resume(r, LF) && HeadRead(r.st, r.trace, r'.st, r'.trace, r'.ctl)
    ensures r' == r.(st := r'.st, used := r.used + 1, trace := r'.trace, ctl := r'.ctl)
  {
    hide Dispatch, BodyState;
    HeadEndDispatch(r.st);
    var s := AfterHead(r.st);
    HeadEndDispatch(s);
    var r2 := r.(st := s, trace := r.trace + [HeadersComplete(s.upgrade)]);
    assert Resume(r, LF) == Resume(r2, LF);
    r' := Resume(r, LF);
  }

  // The end of the headers as the application sees it, and what it makes of the parser.
  ghost predicate HeadRead(s: Parser, t: Trace, s': Parser, t': Trace, c: Control) {
    var a := AfterHead(s);
    var (next, ends) := BodyState(a);
    && s' == a.(state := next) && c == (if ends && a.upgrade then Exit else Next)
    && t' == t + [HeadersComplete(a.upgrade)] + if ends then [MessageComplete] else []
  }

  /** The empty line behind the headers: it tells whether another protocol takes over and which kind of body
      follows, and ends the message if there is none. */
  lemma HeadEnd(r: Run, e: LineEnd) returns (r': Run)
    requires AtName(r) && !r.st.flags.trailing
    ensures r' == RunBytes(r, EndText(e)) && HeadRead(r.st, r.trace, r'.st, r'.trace, r'.ctl)
    ensures r' == r.(st := r'.st, used := r.used + |EndText(e)|, trace := r'.trace, ctl := r'.ctl)
  {
    hide RunBytes, HeadRead, Dispatch;
    HeadEndDispatch(r.st);
    if e.CrLf? {
      r' := CrLfEnd(r);
    } else {
      r' := FeedRun(r.(st := r.st.(state := HeadersAlmostDone)));
      BareRun(r);
      RunOne(r, LF);
    }
    StateAside(r.st, r.trace, r'.st, r'.trace, r'.ctl);
  }

  lemma CrLfEnd(r: Run) returns (r': Run)
    requires AtName(r) && !r.st.flags.trailing
    ensures r' == RunBytes(r, [CR] + [LF])
    ensures HeadRead(r.st.(state := HeadersAlmostDone), r.trace, r'.st, r'.trace, r'.ctl)
    ensures r' == r.(st := r'.st, used := r.used + 2, trace := r'.trace, ctl := r'.ctl)
  {
    hide Dispatch, RunBytes, HeadRead, Resume;
    HeadEndDispatch(r.st);
    GoRun(r, CR, r.st.(state := HeadersAlmostDone));
    RunOne(r, CR);
    RunAppend(r, [CR], [LF]);
    r' := FeedRun(Resume(r, CR));
    RunOne(Resume(r, CR), LF);
  }

  lemma StateAside(s: Parser, t: Trace, s': Parser, t': Trace, c: Control)
    requires HeadRead(s.(state := HeadersAlmostDone), t, s', t', c)
    ensures HeadRead(s, t, s', t', c)
  {
    hide BodyState;
  }

  // ---------- reading the body

  lemma SameBody(b: Body, s: Parser, next: State)
    ensures BodyState(s.(state := next)) == BodyState(s) && (Fits(b, s.(state := next)) <==> Fits(b, s))
  {
  }

  // What the trailer of the body makes of the flags.
  ghost function BodyFlags(f: Flags, b: Body): Flags {
    if b.Coded? then LinesFlags(f.(trailing := true), b.trailer.lines) else f
  }

  // The parser behind a message with this body, and what it still knows of the message.
  ghost predicate MessageRead(b: Body, s: Parser, s': Parser) {
    && s' == s.(flags := BodyFlags(s.flags, b), state := s'.state, contentLength := s'.contentLength,
                hstate := s'.hstate, index := s'.index)
    && (b.Sized? ==> s'.contentLength == 0) && (b.NoBody? ==> s'.contentLength == s.contentLength)
    && s'.state == if b.UntilEnd? then BodyIdentityEof else NewMessage(s')
  }

  lemma NewMessageStable(s: Parser, h: HeaderState, i: nat)
    ensures NewMessage(s.(state := NewMessage(s), hstate := h, index := i)) == NewMessage(s)
  {
  }

  lemma UntilEndExec(s: Parser, t: Trace, bytes: Bytes)
    requires Inv(s) && s.state == BodyIdentityEof && bytes != [] && (t == [] || !t[|t| - 1].Data?)
    ensures Exec(s, t, bytes) == Result(s, t + [Data(BodyData, bytes)], |bytes|, Next)
  {
    hide RunBytes, Inv;
    InvOk(s);
    SkipEof(Start(s, t), bytes);
    assert [] + bytes == bytes;
  }

  lemma CodedExec(s: Parser, t: Trace, b: Body)
    requires b.Coded? && Fits(b, s) && s.state == BodyState(s).0 && Inv(s)
    ensures var e := Exec(s, t, BodyText(b));
            && e.ctl == (if s.upgrade then Exit else Next) && e.used == |BodyText(b)| && e.trace == t + TailEvents(b)
            && MessageRead(b, s, e.st)
  {
    hide Exec, Inv, NewMessage, BodyState, Encode, BodyEvents, LinesFlags, ChunksOk, LastOk;
    LastLines(b.last, b.trailer);
    ChunkedRoundTrip(s, t, b.chunks, b.last, b.trailer);
    var e := Exec(s, t, BodyText(b));
    var s1 := s.(flags := LinesFlags(s.flags.(trailing := true), b.trailer.lines),
                 contentLength := GivenLength(b.trailer.lines, 0), state := MessageDone);
    NewMessageStable(s1, e.st.hstate, e.st.index);
  }

  /** The body is consumed to its end and handed out exactly. */
  lemma BodyExec(b: Body, s: Parser, t: Trace)
    requires Fits(b, s) && s.state == BodyState(s).0 && Inv(s) && BodyText(b) != []
    requires t == [] || !t[|t| - 1].Data?
    ensures var e := Exec(s, t, BodyText(b));
            && e.ctl == (if s.upgrade then Exit else Next) && e.used == |BodyText(b)| && e.trace == t + TailEvents(b)
            && MessageRead(b, s, e.st)
  {
    hide Exec, Inv, NewMessage, Encode, BodyEvents, LinesFlags, ChunksOk, LastOk, BodyState, HeadersOk;
    match b {
      case NoBody =>
      case Sized(bytes) =>
        IdentityRoundTrip(s, t, bytes);
        NewMessageStable(s.(contentLength := 0, state := MessageDone), s.hstate, s.index);
      case Coded(_, _, _) =>
        CodedExec(s, t, b);
      case UntilEnd(bytes) =>
        UntilEndExec(s, t, bytes);
        OpenNoUpgrade(s);
    }
  }

  lemma OpenNoUpgrade(s: Parser)
    requires BodyState(s).0 == BodyIdentityEof
    ensures !s.upgrade
  {
  }

  lemma EmptyBody(b: Body, s: Parser)
    requires Fits(b, s)
    ensures BodyText(b) == [] ==> b.NoBody? || b == UntilEnd([])
    ensures b.NoBody? <==> BodyState(s).1
    ensures b.NoBody? ==> BodyState(s).0 == NewMessage(s)
    ensures b.UntilEnd? ==> BodyState(s).0 == BodyIdentityEof && !s.upgrade
  {
    hide Encode, Inv, ChunksOk, LastOk, ShouldKeepAlive, NeedsEof;
    match b {
      case NoBody =>
      case Sized(_) =>
      case Coded(chunks, last, trailer) =>
        EncodeNonempty(chunks, last, trailer);
      case UntilEnd(_) =>
        OpenNoUpgrade(s);
    }
  }

  /** A head that has been read, and the body behind it. */
  lemma MessageExec(st: Parser, t: Trace, head: Bytes, b: Body, r: Run)
    requires Inv(st) && head != [] && Exec(st, t, head) == Result(r.st, r.trace, |head|, r.ctl)
    requires r.pend == Closed && r == RunBytes(Start(st, t), head)
    requires r.ctl == if BodyState(r.st).1 && r.st.upgrade then Exit else Next
    requires Fits(b, r.st) && r.st.state == BodyState(r.st).0 && r.trace != [] && !r.trace[|r.trace| - 1].Data?
    ensures var e := Exec(st, t, head + BodyText(b));
            && e.ctl == (if r.st.upgrade then Exit else Next) && e.used == |head + BodyText(b)|
            && MessageRead(b, r.st, e.st)
            && e.trace == r.trace + if BodyState(r.st).1 then [] else TailEvents(b)
  {
    hide Exec, Inv, Fits, BodyText, BodyState, EndsInToken, FailsInToken, TailEvents, NewMessage, RunBytes;
    EmptyBody(b, r.st);
    if BodyText(b) == [] {
      assert head + BodyText(b) == head;
      NoTail(b);
      NewMessageStable(r.st, r.st.hstate, r.st.index);
    } else {
      ExecKeepsInv(st, t, head);
      BodyExec(b, r.st, r.trace);
      ClosedEnd(st, t, head);
      NoBodyNoText(b);
      SplitInvariance(st, t, head, BodyText(b));
    }
  }

  lemma ClosedEnd(st: Parser, t: Trace, head: Bytes)
    ensures EndsInToken(st, t, head) <==> RunBytes(Start(st, t), head).pend.Open?
  {
  }

  lemma NoTail(b: Body)
    ensures b == UntilEnd([]) ==> TailEvents(b) == []
  {
  }

  lemma NoBodyNoText(b: Body)
    ensures b.NoBody? ==> BodyText(b) == []
  {
  }
}
