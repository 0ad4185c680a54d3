/** Which messages keep within the limit on header bytes. */
module HttpMessageLimit {
  import opened Common
  import opened HttpTypes
  import opened HttpDispatch
  import opened HttpInvariant
  import opened HttpRun
  import opened HttpSkips
  import opened HttpLengths
  import opened HttpFolding
  import opened HttpHeaderLines
  import opened HttpChunked
  import opened HttpBodies
  import opened HttpCounting
  import opened HttpHeaderLimit
  import Requests = HttpRequests
  import Responses = HttpResponses

  // ---------- traces

  // Nothing in the trace tells an end of a head.
  predicate Plain(t: Trace) { forall i :: 0 <= i < |t| ==> !IsMilestone(t[i]) }

  lemma {:induction false} PlainCounts(t: Trace, u: Trace)
    requires Plain(u)
    ensures Milestones(t + u) == Milestones(t) && ResetsIn(t + u) == ResetsIn(t)
    decreases |u|
  {
    if u == [] {
      assert t + u == t;
    } else {
      var n := |u| - 1;
      assert (t + u)[..|t + u| - 1] == t + u[..n];
      PlainCounts(t, u[..n]);
    }
  }

  lemma {:induction false} LinesPlain(hs: seq<Header>)
    ensures Plain(LineEvents(hs))
  {
    if hs != [] {
      LinesPlain(hs[1..]);
    }
  }

  lemma ToldOnce(t: Trace, e: Event, u: Trace)
    requires Plain(u) && IsReset(e)
    ensures ResetsIn(t + [e] + u) == ResetsIn(t) + 1
  {
    PlainCounts(t + [e], u);
    assert (t + [e])[..|t|] == t;
  }

  // ---------- headers and trailers

  // The empty line but for its last byte.
  function EndInit(e: LineEnd): Bytes { if e.CrLf? then [CR] else [] }

  lemma EndCut(xs: Bytes, e: LineEnd)
    ensures xs + EndText(e) == (xs + EndInit(e)) + [LF]
  {
  }

  lemma PrefixQuiet(r: Run, xs: Bytes, ys: Bytes)
    requires Quiet(r, xs + ys)
    ensures Quiet(r, xs)
  {
    hide Milestones, RunBytes;
    RunAppend(r, xs, ys);
    RunGrows(r, xs);
    RunGrows(RunBytes(r, xs), ys);
    StaysEnded(RunBytes(r, xs), ys);
  }

  lemma CrDispatch(s: Parser)
    requires s.state == HeaderFieldStart
    ensures Dispatch(s, CR) == Go(s.(state := HeadersAlmostDone))
  {
  }

  // Text that leads to the beginning of a line without telling an end of a head, and what may follow it.
  lemma QuietUpTo(r: Run, text: Bytes, e: LineEnd, r2: Run)
    requires r.ctl == Next && InHead(r.st.state) && AtName(r2) && RunBytes(r, text + [CR]) == RunBytes(r2, [CR])
    requires Milestones(r2.trace) == Milestones(r.trace)
    ensures Quiet(r, text + EndInit(e))
  {
    hide Milestones, RunBytes, Dispatch;
    CrDispatch(r2.st);
    GoRun(r2, CR, r2.st.(state := HeadersAlmostDone));
    RunOne(r2, CR);
    if e.BareLf? {
      assert text + EndInit(e) == text;
      PrefixQuiet(r, text, [CR]);
    }
  }

  /** A trailer counts, and what it counts is kept for the next message. */
  lemma TrailerLevel(r: Run, n: nat, tr: Trailer)
    requires AtName(r) && r.st.flags.trailing && HeadersOk(tr.lines) && NoField(r.trace) && r.st.contentLength == 0
    ensures Level(r, n, TrailerText(tr)) == Peak(r, n, TrailerText(tr)) == n + |TrailerText(tr)|
  {
    hide Milestones, ResetsIn, RunBytes, LinesText, EndText, MessageEnded, HeadersOk, NoField, Level, Peak, Quiet;
    var text := LinesText(tr.lines);
    var r2 := LinesRun(r, tr.lines, [CR]);
    LinesPlain(tr.lines);
    PlainCounts(r.trace, LineEvents(tr.lines));
    QuietUpTo(r, text, tr.end, r2);
    var r' := TrailerRun(r, tr);
    TrailerTold(r.trace, tr.lines);
    EndCut(text, tr.end);
    LinesLevel(r, n, text + EndInit(tr.end));
  }

  lemma TrailerTold(t: Trace, hs: seq<Header>)
    ensures ResetsIn(t + LineEvents(hs) + [ChunkComplete, MessageComplete]) == ResetsIn(t)
  {
    LinesPlain(hs);
    PlainCounts(t, LineEvents(hs));
    var u := t + LineEvents(hs);
    assert (u + [ChunkComplete])[..|u|] == u;
    assert (u + [ChunkComplete, MessageComplete])[..|u| + 1] == u + [ChunkComplete];
  }

  // ---------- chunks

  function SizeText(c: Chunk): Bytes { c.size + (c.ext + CRLF) }

  // The line with the size up to its last byte.
  lemma SizeQuiet(r: Run, c: Chunk)
    requires r.ctl == Next && r.st.state == ChunkSizeStart && r.st.flags.chunked && r.pend == Closed
    requires ChunkOk(c) && |c.data| <= MAX_CHUNK
    ensures Quiet(r, c.size + (c.ext + [CR]))
  {
    hide RunBytes, Dispatch, Milestones, ExtOk, Hexadecimal;
    ChunkSizeExact(r, c.size);
    var r1 := RunBytes(r, c.size);
    RunAppend(r, c.size, c.ext + [CR]);
    RunAppend(r1, c.ext, [CR]);
    if c.ext == [] {
      RunNothing(r1);
    } else {
      ExtBytes(r1, c.ext);
    }
    var r2 := RunBytes(r1, c.ext);
    SizeEndDispatch(r2.st, ';');
    GoRun(r2, CR, r2.st.(state := ChunkSizeAlmostDone));
    RunOne(r2, CR);
  }

  /** The line with a chunk's size counts, and is the last to count before the data. */
  lemma SizeLevel(r: Run, c: Chunk)
    requires r.ctl == Next && r.st.state == ChunkSizeStart && r.st.flags.chunked && r.pend == Closed
    requires ChunkOk(c) && |c.data| <= MAX_CHUNK
    ensures Level(r, 0, SizeText(c)) == 0 && Peak(r, 0, SizeText(c)) == |SizeText(c)|
  {
    hide RunBytes, ResetsIn, Quiet, Level, Peak, ChunkOk;
    SizeQuiet(r, c);
    SizeLine(r, c);
    var xs := c.size + (c.ext + [CR]);
    assert SizeText(c) == xs + [LF];
    assert RunBytes(r, SizeText(c)).trace == r.trace + [ChunkHeader(|c.data|)] + [];
    ToldOnce(r.trace, ChunkHeader(|c.data|), []);
    LinesLevel(r, 0, xs);
  }

  lemma OneLevel(r: Run, ch: Byte)
    requires r.ctl == Next && !ParsingHeader(r.st.state)
    ensures Level(r, 0, [ch]) == Peak(r, 0, [ch]) == 0
  {
    hide Resume, ByteCount;
    ByteCountBound(r.st, 0, ch);
    assert [ch][1..] == [];
    assert Level(Resume(r, ch), 0, []) == Peak(Resume(r, ch), 0, []) == 0;
  }

  // The line end behind the data of a chunk does not count.
  lemma DataEndLevel(r: Run)
    requires r.ctl == Next && r.st.state == ChunkDataAlmostDone && r.st.flags.chunked && r.st.contentLength == 0
    requires r.pend.Open? && r.pend.kind == BodyData
    ensures Level(r, 0, CRLF) == Peak(r, 0, CRLF) == 0
  {
    hide Dispatch, Level, Peak, Emit;
    DataEndDispatch(r.st);
    assert CRLF == [CR] + [LF];
    OneLevel(r, CR);
    OneLevel(Resume(r, CR), LF);
    LevelAppend(r, 0, [CR], [LF]);
    RunOne(r, CR);
  }

  // Body bytes do not count.
  lemma {:induction false} DataLevel(r: Run, xs: Bytes)
    requires InBody(r)
    requires |xs| < r.st.contentLength || (|xs| == r.st.contentLength && r.st.state == ChunkData)
    ensures Level(r, 0, xs) == Peak(r, 0, xs) == 0
    decreases |xs|
  {
    hide Resume, ByteCount;
    if xs != [] {
      ByteCountBound(r.st, 0, xs[0]);
      BodyByte(r, xs[0]);
      if |xs| == 1 {
        assert xs[1..] == [];
      } else {
        DataLevel(Resume(r, xs[0]), xs[1..]);
      }
    }
  }

  /** Of a chunk only the line with its size counts. */
  lemma ChunkLevel(r: Run, c: Chunk)
    requires r.ctl == Next && r.st.state == ChunkSizeStart && r.st.flags.chunked && r.pend == Closed
    requires BodyChunkOk(c)
    ensures Level(r, 0, EncodeChunk(c)) == 0 && Peak(r, 0, EncodeChunk(c)) == |SizeText(c)|
  {
    hide RunBytes, Level, Peak, ChunkOk, Emit;
    var line := SizeText(c);
    SizeLine(r, c);
    SizeLevel(r, c);
    var r1 := RunBytes(r, line);
    DataLevel(r1, c.data);
    SkipBody(r1, c.data);
    DataEndLevel(RunBytes(r1, c.data));
    LevelAppend(r1, 0, c.data, CRLF);
    LevelAppend(r, 0, line, c.data + CRLF);
  }

  // The longest of the lines with a size.
  function LongestSize(cs: seq<Chunk>): nat {
    if cs == [] then 0 else Max(|SizeText(cs[0])|, LongestSize(cs[1..]))
  }

  lemma {:induction false} ChunksLevel(r: Run, cs: seq<Chunk>)
    requires r.ctl == Next && r.st.state == ChunkSizeStart && r.st.flags.chunked && r.pend == Closed && ChunksOk(cs)
    ensures Level(r, 0, EncodeAll(cs)) == 0 && Peak(r, 0, EncodeAll(cs)) == LongestSize(cs)
    decreases |cs|
  {
    hide RunBytes, EncodeChunk, BodyChunkOk, SizeText;
    if cs != [] {
      ChunkRun(r, cs[0]);
      ChunkLevel(r, cs[0]);
      LevelAppend(r, 0, EncodeChunk(cs[0]), EncodeAll(cs[1..]));
      ChunksLevel(RunBytes(r, EncodeChunk(cs[0])), cs[1..]);
    }
  }

  function TrailerText(tr: Trailer): Bytes { LinesText(tr.lines) + EndText(tr.end) }

  /** The last chunk and the trailer. */
  lemma LastLevel(r: Run, last: Chunk, tr: Trailer)
    requires r.ctl == Next && r.st.state == ChunkSizeStart && r.st.flags.chunked && r.pend == Closed && LastOk(last, tr)
    ensures Level(r, 0, LastText(last, tr)) == |TrailerText(tr)|
    ensures Peak(r, 0, LastText(last, tr)) == Max(|SizeText(last)|, |TrailerText(tr)|)
  {
    hide RunBytes, Level, Peak, ChunkOk, HeadersOk, EndText, LinesText;
    SizeLine(r, last);
    var r1 := RunBytes(r, SizeText(last));
    AtTrailer(r, r1);
    SizeLevel(r, last);
    TrailerLevel(r1, 0, tr);
    LevelAppend(r, 0, SizeText(last), TrailerText(tr));
  }

  // ---------- bodies

  // The longest part of a body that counts: a line between chunks, or the trailer.
  function LongestLine(b: Body): nat {
    if b.Coded? then Max(LongestSize(b.chunks), Max(|SizeText(b.last)|, |TrailerText(b.trailer)|)) else 0
  }

  // What a body leaves in the counter for the next message: its trailer, if it has one.
  function Carried(b: Body): nat { if b.Coded? then |TrailerText(b.trailer)| else 0 }

  lemma CodedLevel(r: Run, b: Body)
    requires b.Coded? && ChunksOk(b.chunks) && LastOk(b.last, b.trailer)
    requires r.ctl == Next && r.st.state == ChunkSizeStart && r.st.flags.chunked && r.pend == Closed
    ensures Level(r, 0, BodyText(b)) == Carried(b) && Peak(r, 0, BodyText(b)) == LongestLine(b)
  {
    hide RunBytes, Level, Peak, LastOk, BodyChunkOk, SizeText, TrailerText, EncodeAll, LastText;
    ChunksRun(r, b.chunks);
    ChunksLevel(r, b.chunks);
    LastLevel(RunBytes(r, EncodeAll(b.chunks)), b.last, b.trailer);
    LevelAppend(r, 0, EncodeAll(b.chunks), LastText(b.last, b.trailer));
  }

  lemma SizedLevel(r: Run, bytes: Bytes)
    requires r.ctl == Next && r.st.state == BodyIdentity && 0 < |bytes| == r.st.contentLength < ULLONG_MAX
    ensures Level(r, 0, bytes) == Peak(r, 0, bytes) == 0
  {
    hide RunBytes, Level, Peak;
    var n := |bytes| - 1;
    assert bytes == bytes[..n] + [bytes[n]];
    DataLevel(r, bytes[..n]);
    LevelAppend(r, 0, bytes[..n], [bytes[n]]);
    if n == 0 {
      RunNothing(r);
    } else {
      SkipBody(r, bytes[..n]);
    }
    OneLevel(RunBytes(r, bytes[..n]), bytes[n]);
  }

  lemma {:induction false} EofLevel(r: Run, xs: Bytes)
    requires r.ctl == Next && r.st.state == BodyIdentityEof
    ensures Level(r, 0, xs) == Peak(r, 0, xs) == 0
    decreases |xs|
  {
    hide Resume, ByteCount;
    if xs != [] {
      ByteCountBound(r.st, 0, xs[0]);
      EofByte(r, xs[0]);
      EofLevel(Resume(r, xs[0]), xs[1..]);
    }
  }

  /** Of a body only the lines between the chunks count, and its trailer counts towards the next message. */
  lemma BodyLevel(r: Run, b: Body)
    requires r.pend == Closed && Inv(r.st) && Fits(b, r.st) && r.st.state == BodyState(r.st).0
    requires !b.NoBody? ==> r.ctl == Next
    ensures Level(r, 0, BodyText(b)) == Carried(b) && Peak(r, 0, BodyText(b)) == LongestLine(b)
  {
    hide Inv, BodyState, ChunksOk, LastOk, Encode;
    match b {
      case NoBody =>
      case Sized(bytes) =>
        InvIdentity(r.st);
        SizedLevel(r, bytes);
      case Coded(_, _, _) =>
        InvChunk(r.st);
        CodedLevel(r, b);
      case UntilEnd(bytes) =>
        EofLevel(r, bytes);
    }
  }

  // ---------- requests

  // What stands in front of the last byte of the head.
  function RequestInit(q: Requests.Request): Bytes {
    Requests.LineText(q) + LinesText(q.headers) + EndInit(q.headEnd)
  }

  lemma RequestQuiet(st: Parser, t: Trace, q: Requests.Request)
    requires Requests.Waiting(st) && Requests.RequestOk(q, st.answerNoBody)
    ensures Quiet(Start(st, t), RequestInit(q)) && Requests.HeadText(q) == RequestInit(q) + [LF]
  {
    hide RunBytes, Milestones, ResetsIn, Requests.RequestOk, Requests.Waiting, Requests.AfterLine, Requests.LineText,
         HeadersOk, Effects, NoField, Quiet, Start, EndText, Requests.VersionOk;
    var r0, line, lines := Start(st, t), Requests.LineText(q), LinesText(q.headers);
    Requests.RequestParts(q, st.answerNoBody);
    Requests.StartWaiting(st, t);
    var r1 := Requests.FirstLineRun(r0, q, lines + [CR]);
    Requests.LineFresh(t, q.url);
    Requests.LineAtName(r0, q, r1);
    var r2 := LinesRun(r1, q.headers, [CR]);
    RequestPlain(t, q);
    Regroup(line, lines, [CR]);
    QuietUpTo(r0, line + lines, q.headEnd, r2);
    EndCut(line + lines, q.headEnd);
    Regroup(line, lines, EndText(q.headEnd));
  }

  lemma RequestPlain(t: Trace, q: Requests.Request)
    ensures var u := [MessageBegin, Data(UrlData, q.url)];
            Milestones(t + u + LineEvents(q.headers)) == Milestones(t)
  {
    hide Milestones, ResetsIn;
    PlainCounts(t, [MessageBegin, Data(UrlData, q.url)]);
    LinesPlain(q.headers);
    PlainCounts(t + [MessageBegin, Data(UrlData, q.url)], LineEvents(q.headers));
  }

  lemma RequestTold(t: Trace, q: Requests.Request, u: Trace)
    requires Plain(u)
    ensures ResetsIn(t + Requests.HeadEvents(q) + u) == ResetsIn(t) + 1
  {
    hide ResetsIn, Milestones, Requests.TakesOver;
    var v := [MessageBegin, Data(UrlData, q.url)] + LineEvents(q.headers);
    var e := HeadersComplete(Requests.TakesOver(q));
    LinesPlain(q.headers);
    PlainCounts(t, v);
    ToldOnce(t + v, e, u);
    assert t + Requests.HeadEvents(q) + u == t + v + [e] + u;
  }

  /** Of a request the head counts, and of its body the lines between chunks and the trailer; the trailer counts
      towards the next request. */
  lemma RequestLevel(st: Parser, t: Trace, n: nat, q: Requests.Request)
    requires Requests.Waiting(st) && Requests.RequestOk(q, st.answerNoBody)
    ensures var r := Start(st, t);
            && Peak(r, n, Requests.Print(q)) == Max(n + |Requests.HeadText(q)|, LongestLine(q.body))
            && Level(r, n, Requests.Print(q)) == Carried(q.body)
  {
    hide RunBytes, ResetsIn, Quiet, Level, Peak, LongestLine, Carried, Requests.RequestOk, Requests.Waiting, BodyText,
         Requests.HeadText, Requests.HeadEvents, Requests.AtBody, BodyState, Inv, Start, Fits, RequestInit;
    var r := Requests.HeadRun(st, t, q);
    Requests.BodyAhead(q, st, r.st);
    RequestQuiet(st, t, q);
    Requests.StartWaiting(st, t);
    RequestTold(t, q, if BodyState(r.st).1 then [MessageComplete] else []);
    LinesLevel(Start(st, t), n, RequestInit(q));
    EmptyBody(q.body, r.st);
    HeadInv(st, t, Requests.HeadText(q));
    BodyLevel(r, q.body);
    LevelAppend(Start(st, t), n, Requests.HeadText(q), BodyText(q.body));
  }

  lemma HeadInv(st: Parser, t: Trace, xs: Bytes)
    requires Inv(st) && (RunBytes(Start(st, t), xs).ctl == Next || RunBytes(Start(st, t), xs).ctl == Exit)
    ensures Inv(RunBytes(Start(st, t), xs).st)
  {
    hide Inv, RunBytes, OpenToken;
    StartOk(st, t);
    RunOkAll(Start(st, t), xs);
  }

  // ---------- responses

  function ResponseInit(q: Responses.Response): Bytes {
    Responses.LineText(q) + LinesText(q.headers) + EndInit(q.headEnd)
  }

  lemma {:induction false} BeginsPlain(n: nat)
    ensures Plain(Responses.Begins(n))
  {
    if n > 0 {
      BeginsPlain(n - 1);
    }
  }

  lemma StartPlain(q: Responses.Response)
    ensures Plain(Responses.LineStart(q) + LineEvents(q.headers))
  {
    BeginsPlain(|q.lead|);
    LinesPlain(q.headers);
  }

  lemma ResponseQuiet(st: Parser, t: Trace, q: Responses.Response)
    requires Responses.Waiting(st) && Responses.ResponseOk(q, st.answerNoBody)
    ensures Quiet(Start(st, t), ResponseInit(q)) && Responses.HeadText(q) == ResponseInit(q) + [LF]
  {
    hide RunBytes, Milestones, ResetsIn, Responses.PartsOk, Responses.Waiting, Responses.AfterLine, Responses.LineText,
         HeadersOk, Effects, NoField, Quiet, Start, EndText, Responses.LineStart, Responses.Lasts, Responses.TakesOver,
         Plain;
    var r0, line, lines := Start(st, t), Responses.LineText(q), LinesText(q.headers);
    Responses.HeaderPart(q);
    Responses.StartWaiting(st, t);
    var r1 := Responses.FirstLineRun(r0, q, lines + [CR]);
    Responses.LineFresh(t, q);
    Responses.LineState(q, st, r1.st.index);
    var r2 := LinesRun(r1, q.headers, [CR]);
    StartPlain(q);
    PlainCounts(t, Responses.LineStart(q) + LineEvents(q.headers));
    Regroup(t, Responses.LineStart(q), LineEvents(q.headers));
    Regroup(line, lines, [CR]);
    QuietUpTo(r0, line + lines, q.headEnd, r2);
    EndCut(line + lines, q.headEnd);
    Regroup(line, lines, EndText(q.headEnd));
  }

  lemma ResponseTold(t: Trace, q: Responses.Response, u: Trace)
    requires Plain(u)
    ensures ResetsIn(t + Responses.HeadEvents(q) + u) == ResetsIn(t) + 1
  {
    hide ResetsIn, Milestones, Responses.TakesOver, Responses.LineStart, Plain;
    var v := Responses.LineStart(q) + LineEvents(q.headers);
    var e := HeadersComplete(Responses.TakesOver(q));
    StartPlain(q);
    PlainCounts(t, v);
    ToldOnce(t + v, e, u);
    assert t + Responses.HeadEvents(q) + u == t + v + [e] + u;
  }

  /** The same of responses. */
  lemma ResponseLevel(st: Parser, t: Trace, n: nat, q: Responses.Response)
    requires Responses.Waiting(st) && Responses.ResponseOk(q, st.answerNoBody)
    ensures var r := Start(st, t);
            && Peak(r, n, Responses.Print(q)) == Max(n + |Responses.HeadText(q)|, LongestLine(q.body))
            && Level(r, n, Responses.Print(q)) == Carried(q.body)
  {
    hide RunBytes, ResetsIn, Quiet, Level, Peak, LongestLine, Carried, Responses.ResponseOk, Responses.Waiting,
         BodyText, Responses.HeadText, Responses.HeadEvents, Responses.AtBody, BodyState, Inv, Start, Fits,
         ResponseInit;
    var r := Responses.HeadRun(st, t, q);
    Responses.BodyAhead(q, st, r.st);
    ResponseQuiet(st, t, q);
    Responses.StartWaiting(st, t);
    ResponseTold(t, q, if BodyState(r.st).1 then [MessageComplete] else []);
    LinesLevel(Start(st, t), n, ResponseInit(q));
    EmptyBody(q.body, r.st);
    HeadInv(st, t, Responses.HeadText(q));
    BodyLevel(r, q.body);
    LevelAppend(Start(st, t), n, Responses.HeadText(q), BodyText(q.body));
  }

  // ---------- messages in a row

  // The most the counter holds while the requests are read, n bytes having been counted before.
  function RequestsPeak(n: nat, qs: seq<Requests.Request>): nat
    decreases |qs|
  {
    if qs == [] then n
    else Max(Max(n + |Requests.HeadText(qs[0])|, LongestLine(qs[0].body)), RequestsPeak(Carried(qs[0].body), qs[1..]))
  }

  function ResponsesPeak(n: nat, qs: seq<Responses.Response>): nat
    decreases |qs|
  {
    if qs == [] then n
    else Max(Max(n + |Responses.HeadText(qs[0])|, LongestLine(qs[0].body)), ResponsesPeak(Carried(qs[0].body), qs[1..]))
  }

  lemma CarriedBelow(b: Body)
    ensures Carried(b) <= LongestLine(b)
  {
    hide LongestSize, SizeText, TrailerText;
  }

  /** The peak of a row of requests is that of one of them. */
  lemma {:induction false} RequestsRowPeak(st: Parser, t: Trace, n: nat, qs: seq<Requests.Request>)
    requires Requests.Waiting(st) && Requests.RowOk(qs, st.answerNoBody)
    ensures Peak(Start(st, t), n, Concat(Requests.Prints(qs))) == RequestsPeak(n, qs)
    decreases |qs|
  {
    hide Exec, Inv, Level, Peak, Requests.RequestOk, Requests.KeepsAlive, Requests.TakesOver, Requests.Print,
         LongestLine, Carried, Requests.HeadText, Requests.Waiting, RunBytes;
    if qs == [] {
      NoPeak(Start(st, t), n);
    } else {
      var q, more := qs[0], qs[1..];
      var r, text, rest := Start(st, t), Requests.Print(q), Concat(Requests.Prints(more));
      RequestLevel(st, t, n, q);
      CarriedBelow(q.body);
      assert Requests.Prints(qs)[1..] == Requests.Prints(more);
      LevelAppend(r, n, text, rest);
      if more == [] {
        NoPeak(RunBytes(r, text), Carried(q.body));
      } else {
        var e := Exec(st, t, text);
        Requests.WaitsAgain(st, t, q);
        Requests.RequestRoundTrip(st, t, q);
        Requests.StartWaiting(st, t);
        Requests.PrintsNonempty(qs, 0);
        ExecIsRun(st, t, text);
        SameLevel(RunBytes(r, text), Start(e.st, e.trace), Carried(q.body), rest);
        RequestsRowPeak(e.st, e.trace, Carried(q.body), more);
      }
    }
  }

  /** The same of responses. */
  lemma {:induction false} ResponsesRowPeak(st: Parser, t: Trace, n: nat, qs: seq<Responses.Response>)
    requires Responses.Waiting(st) && Responses.RowOk(qs, st.answerNoBody)
    ensures Peak(Start(st, t), n, Concat(Responses.Prints(qs))) == ResponsesPeak(n, qs)
    decreases |qs|
  {
    hide Exec, Inv, Level, Peak, Responses.ResponseOk, Responses.KeepsAlive, Responses.TakesOver, Responses.Print,
         LongestLine, Carried, Responses.HeadText, Responses.Waiting, RunBytes;
    if qs == [] {
      NoPeak(Start(st, t), n);
    } else {
      var q, more := qs[0], qs[1..];
      var r, text, rest := Start(st, t), Responses.Print(q), Concat(Responses.Prints(more));
      ResponseLevel(st, t, n, q);
      CarriedBelow(q.body);
      assert Responses.Prints(qs)[1..] == Responses.Prints(more);
      LevelAppend(r, n, text, rest);
      if more == [] {
        NoPeak(RunBytes(r, text), Carried(q.body));
      } else {
        var e := Exec(st, t, text);
        Responses.WaitsAgain(st, t, q);
        Responses.ResponseRoundTrip(st, t, q);
        Responses.StartWaiting(st, t);
        Responses.PrintsNonempty(qs, 0);
        ExecIsRun(st, t, text);
        SameLevel(RunBytes(r, text), Start(e.st, e.trace), Carried(q.body), rest);
        ResponsesRowPeak(e.st, e.trace, Carried(q.body), more);
      }
    }
  }

  /** Requests in a row, cut into buffers: if none of these ends inside a name or a value, a header is found too large
      if and only if some head, with the trailer of the request before, or a line between chunks, or a trailer exceeds
      the limit; and however they are cut, none is found too large if all keep within half of it. */
  lemma RequestsFit(st: Parser, t: Trace, qs: seq<Requests.Request>, bufs: seq<Bytes>)
    requires Requests.Waiting(st) && qs != [] && Requests.RowOk(qs, st.answerNoBody)
    requires (forall i :: 0 <= i < |bufs| ==> bufs[i] != []) && Concat(bufs) == Concat(Requests.Prints(qs))
    ensures EndsClean(st, t, bufs) ==> (FitsAll(st, t, 0, bufs) <==> RequestsPeak(0, qs) <= MAX_HEADER_SIZE)
    ensures 2 * RequestsPeak(0, qs) <= MAX_HEADER_SIZE ==> FitsAll(st, t, 0, bufs)
  {
    hide Exec, ExecAll, Inv, RunBytes, Peak, FitsAll, EndsClean, RequestsPeak, Requests.RequestOk, Requests.TakesOver,
         Requests.RequestRead, Requests.AllEvents, Requests.Print, Requests.Waiting, Start;
    var text := Concat(Requests.Prints(qs));
    Requests.StartWaiting(st, t);
    RequestsRowPeak(st, t, 0, qs);
    Requests.PrintsNonempty(qs, 0);
    OneExec(st, t, text);
    Requests.RequestsAnySplit(st, t, qs, [text]);
    ExecIsRun(st, t, text);
    if EndsClean(st, t, bufs) {
      CleanFits(st, t, 0, bufs);
    }
    if 2 * RequestsPeak(0, qs) <= MAX_HEADER_SIZE {
      HalfFits(st, t, 0, 0, bufs);
    }
  }

  /** The same of responses. */
  lemma ResponsesFit(st: Parser, t: Trace, qs: seq<Responses.Response>, bufs: seq<Bytes>)
    requires Responses.Waiting(st) && qs != [] && Responses.RowOk(qs, st.answerNoBody)
    requires (forall i :: 0 <= i < |bufs| ==> bufs[i] != []) && Concat(bufs) == Concat(Responses.Prints(qs))
    ensures EndsClean(st, t, bufs) ==> (FitsAll(st, t, 0, bufs) <==> ResponsesPeak(0, qs) <= MAX_HEADER_SIZE)
    ensures 2 * ResponsesPeak(0, qs) <= MAX_HEADER_SIZE ==> FitsAll(st, t, 0, bufs)
  {
    hide Exec, ExecAll, Inv, RunBytes, Peak, FitsAll, EndsClean, ResponsesPeak, Responses.ResponseOk,
         Responses.TakesOver, Responses.RowRead, Responses.AllEvents, Responses.Print, Responses.Waiting, Start;
    var text := Concat(Responses.Prints(qs));
    Responses.StartWaiting(st, t);
    ResponsesRowPeak(st, t, 0, qs);
    Responses.PrintsNonempty(qs, 0);
    OneExec(st, t, text);
    Responses.ResponsesAnySplit(st, t, qs, [text]);
    ExecIsRun(st, t, text);
    if EndsClean(st, t, bufs) {
      CleanFits(st, t, 0, bufs);
    }
    if 2 * ResponsesPeak(0, qs) <= MAX_HEADER_SIZE {
      HalfFits(st, t, 0, 0, bufs);
    }
  }
}
