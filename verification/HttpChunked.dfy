/** Decoding a chunked body inverts its encoding (section 4.1 of RFC 7230), however the input is cut. */
module HttpChunked {
  import opened Common
  import opened HttpTypes
  import opened HttpDispatch
  import opened HttpInvariant
  import opened HttpRun
  import opened HttpSkips
  import opened HttpLengths
  import opened HttpFolding
  import opened HttpHeaderLines

  // A chunk as written: hexadecimal digits, an optional extension, the data.
  datatype Chunk = Chunk(size: Bytes, ext: Bytes, data: Bytes)

  const CRLF: Bytes := [CR, LF]

  predicate ExtOk(ext: Bytes) {
    CR !in ext && (ext != [] ==> ext[0] == ';' || ext[0] == ' ')
  }

  predicate ChunkOk(c: Chunk) {
    && c.size != [] && HexDigits(c.size) && Hexadecimal(0, c.size) == |c.data| && ExtOk(c.ext)
  }

  // A chunk of a body: its data is not empty and not too long.
  predicate BodyChunkOk(c: Chunk) { ChunkOk(c) && 0 < |c.data| <= MAX_CHUNK }

  predicate ChunksOk(cs: seq<Chunk>) { forall i :: 0 <= i < |cs| ==> BodyChunkOk(cs[i]) }

  function EncodeChunk(c: Chunk): Bytes { c.size + (c.ext + CRLF) + (c.data + CRLF) }

  function EncodeAll(cs: seq<Chunk>): Bytes {
    if cs == [] then [] else EncodeChunk(cs[0]) + EncodeAll(cs[1..])
  }

  // What follows the last chunk's size: header lines, and an empty line.
  datatype Trailer = Trailer(lines: seq<Header>, end: LineEnd)

  predicate LastOk(last: Chunk, tr: Trailer) { ChunkOk(last) && last.data == [] && HeadersOk(tr.lines) }

  function LastText(last: Chunk, tr: Trailer): Bytes {
    last.size + (last.ext + CRLF) + (LinesText(tr.lines) + EndText(tr.end))
  }

  // The chunks, then the last one without data, and the trailer.
  function Encode(cs: seq<Chunk>, last: Chunk, tr: Trailer): Bytes { EncodeAll(cs) + LastText(last, tr) }

  // The callbacks for a list of chunks.
  function ChunkEvents(cs: seq<Chunk>): Trace {
    if cs == [] then []
    else [ChunkHeader(|cs[0].data|), Data(BodyData, cs[0].data), ChunkComplete] + ChunkEvents(cs[1..])
  }

  function AllData(cs: seq<Chunk>): Bytes { if cs == [] then [] else cs[0].data + AllData(cs[1..]) }

  // The body bytes handed out in a trace.
  function BodyOf(t: Trace): Bytes {
    if t == [] then []
    else (if t[0].Data? && t[0].kind == BodyData then t[0].bytes else []) + BodyOf(t[1..])
  }

  // ---------- the line with the size

  lemma ParametersRun(r: Run, ext: Bytes)
    requires r.ctl == Next && r.st.state == ChunkParameters && r.st.flags.chunked && r.pend == Closed && CR !in ext
    ensures RunBytes(r, ext) == r.(used := r.used + |ext|)
    decreases |ext|
  {
    hide Dispatch;
    if ext != [] {
      ParameterDispatch(r.st, ext[0]);
      ParametersRun(Resume(r, ext[0]), ext[1..]);
    }
  }

  lemma ParameterDispatch(s: Parser, ch: Byte)
    requires s.state == ChunkParameters && s.flags.chunked && ch != CR
    ensures Dispatch(s, ch) == Go(s)
  {
  }

  lemma SizeEndDispatch(s: Parser, ch: Byte)
    requires s.flags.chunked && (s.state == ChunkSize || s.state == ChunkParameters)
    ensures Dispatch(s, CR) == Go(s.(state := ChunkSizeAlmostDone))
    ensures s.state == ChunkSize && (ch == ';' || ch == ' ') ==> Dispatch(s, ch) == Go(s.(state := ChunkParameters))
  {
  }

  function AfterSizeLine(s: Parser): Parser {
    if s.contentLength == 0 then s.(flags := s.flags.(trailing := true), state := HeaderFieldStart)
    else s.(state := ChunkData)
  }

  lemma SizeLineDispatch(s: Parser)
    requires s.flags.chunked && s.state == ChunkSizeAlmostDone
    ensures Dispatch(s, LF) == Outcome(AfterSizeLine(s), Notify(ChunkHeader(s.contentLength)), Next)
  {
  }

  lemma AfterSizeState(s: Parser, st: State)
    ensures AfterSizeLine(s.(state := st)) == AfterSizeLine(s)
  {
  }

  lemma CrLfRun(r: Run)
    requires r.ctl == Next && Resume(r, CR).ctl == Next
    ensures RunBytes(r, CRLF) == Resume(Resume(r, CR), LF)
  {
    hide Resume;
    assert CRLF[1..] == [LF];
    RunOne(Resume(r, CR), LF);
  }

  lemma SizeEnd(r: Run)
    requires r.ctl == Next && r.st.flags.chunked && r.pend == Closed
    requires r.st.state == ChunkSize || r.st.state == ChunkParameters
    ensures RunBytes(r, CRLF) == r.(st := AfterSizeLine(r.st), used := r.used + 2,
                                    trace := r.trace + [ChunkHeader(r.st.contentLength)])
  {
    hide Dispatch, RunBytes, Resume, AfterSizeLine;
    var s := r.st.(state := ChunkSizeAlmostDone);
    SizeEndDispatch(r.st, ';');
    SizeLineDispatch(s);
    GoRun(r, CR, s);
    NotifyRun(Resume(r, CR), LF, AfterSizeLine(s), ChunkHeader(s.contentLength));
    CrLfRun(r);
    AfterSizeState(r.st, ChunkSizeAlmostDone);
  }

  lemma ExtRun(r: Run, ext: Bytes) returns (r': Run)
    requires r.ctl == Next && r.st.state == ChunkSize && r.st.flags.chunked && r.pend == Closed && ExtOk(ext)
    ensures r' == RunBytes(r, ext + CRLF)
    ensures r' == r.(st := AfterSizeLine(r.st), used := r.used + |ext| + 2,
                     trace := r.trace + [ChunkHeader(r.st.contentLength)])
  {
    hide Resume, AfterSizeLine, RunBytes, ExtOk;
    if ext == [] {
      assert ext + CRLF == CRLF;
      SizeEnd(r);
      r' := RunBytes(r, CRLF);
    } else {
      RunAppend(r, ext, CRLF);
      ExtBytes(r, ext);
      AfterSizeState(r.st, ChunkParameters);
      SizeEnd(RunBytes(r, ext));
      r' := RunBytes(RunBytes(r, ext), CRLF);
    }
  }

  lemma ExtBytes(r: Run, ext: Bytes)
    requires r.ctl == Next && r.st.state == ChunkSize && r.st.flags.chunked && r.pend == Closed && ExtOk(ext)
             && ext != []
    ensures RunBytes(r, ext) == r.(st := r.st.(state := ChunkParameters), used := r.used + |ext|)
  {
    hide Resume;
    ExtFirst(r, ext[0]);
    ParametersRun(Resume(r, ext[0]), ext[1..]);
  }

  lemma ExtFirst(r: Run, ch: Byte)
    requires r.ctl == Next && r.st.state == ChunkSize && r.st.flags.chunked && r.pend == Closed
    requires ch == ';' || ch == ' '
    ensures Resume(r, ch) == r.(st := r.st.(state := ChunkParameters), used := r.used + 1)
  {
    hide Dispatch;
    SizeEndDispatch(r.st, ch);
  }

  /** The line with a chunk's size. */
  lemma SizeLine(r: Run, c: Chunk)
    requires r.ctl == Next && r.st.state == ChunkSizeStart && r.st.flags.chunked && r.pend == Closed
    requires ChunkOk(c) && |c.data| <= MAX_CHUNK
    ensures RunBytes(r, c.size + (c.ext + CRLF)) ==
            r.(st := AfterSizeLine(r.st.(contentLength := |c.data|)), used := r.used + |c.size| + |c.ext| + 2,
               trace := r.trace + [ChunkHeader(|c.data|)])
  {
    hide RunBytes;
    ChunkSizeExact(r, c.size);
    RunAppend(r, c.size, c.ext + CRLF);
    var _ := ExtRun(RunBytes(r, c.size), c.ext);
  }

  // ---------- a chunk

  lemma DataEndDispatch(s: Parser)
    requires s.flags.chunked && s.contentLength == 0
    ensures s.state == ChunkDataAlmostDone ==>
              Dispatch(s, CR) == Outcome(s.(state := ChunkDataDone), Flush(BodyData), Next)
    ensures s.state == ChunkDataDone ==>
              Dispatch(s, LF) == Outcome(s.(state := ChunkSizeStart), Notify(ChunkComplete), Next)
  {
  }

  lemma DataEnd(r: Run)
    requires r.ctl == Next && r.st.state == ChunkDataAlmostDone && r.st.flags.chunked && r.st.contentLength == 0
    requires r.pend.Open? && r.pend.kind == BodyData
    ensures RunBytes(r, CRLF) == r.(st := r.st.(state := ChunkSizeStart), pend := Closed, used := r.used + 2,
                                    trace := Emit(r.trace, Data(BodyData, r.pend.bytes)) + [ChunkComplete])
  {
    hide Dispatch, RunBytes;
    DataEndDispatch(r.st);
    DataEndDispatch(r.st.(state := ChunkDataDone));
    CrLfRun(r);
  }

  /** A whole chunk. */
  lemma ChunkRun(r: Run, c: Chunk)
    requires r.ctl == Next && r.st.state == ChunkSizeStart && r.st.flags.chunked && r.pend == Closed
    requires BodyChunkOk(c)
    ensures RunBytes(r, EncodeChunk(c)) == r.(st := r.st.(contentLength := 0), used := r.used + |EncodeChunk(c)|,
                                              trace := r.trace + ChunkEvents([c]))
  {
    hide RunBytes;
    var line := c.size + (c.ext + CRLF);
    SizeLine(r, c);
    RunAppend(r, line, c.data + CRLF);
    var r1 := RunBytes(r, line);
    RunAppend(r1, c.data, CRLF);
    SkipBody(r1, c.data);
    var r2 := RunBytes(r1, c.data);
    assert [] + c.data == c.data;
    DataEnd(r2);
    assert Emit(r1.trace, Data(BodyData, c.data)) == r1.trace + [Data(BodyData, c.data)];
    assert ChunkEvents([c]) == [ChunkHeader(|c.data|), Data(BodyData, c.data), ChunkComplete];
  }

  lemma FirstChunkEvents(cs: seq<Chunk>)
    requires cs != []
    ensures ChunkEvents(cs) == ChunkEvents([cs[0]]) + ChunkEvents(cs[1..])
  {
    assert [cs[0]][1..] == [];
  }

  lemma {:induction false} ChunksRun(r: Run, cs: seq<Chunk>)
    requires r.ctl == Next && r.st.state == ChunkSizeStart && r.st.flags.chunked && r.pend == Closed
    requires ChunksOk(cs)
    ensures RunBytes(r, EncodeAll(cs)) == r.(st := if cs == [] then r.st else r.st.(contentLength := 0),
                                             used := r.used + |EncodeAll(cs)|, trace := r.trace + ChunkEvents(cs))
    decreases |cs|
  {
    hide RunBytes, EncodeChunk, Emit;
    if cs == [] {
      RunNothing(r);
      assert r.trace + ChunkEvents(cs) == r.trace;
    } else {
      var r1 := RunBytes(r, EncodeChunk(cs[0]));
      ChunkRun(r, cs[0]);
      RunAppend(r, EncodeChunk(cs[0]), EncodeAll(cs[1..]));
      ChunksRun(r1, cs[1..]);
      FirstChunkEvents(cs);
      Regroup(r.trace, ChunkEvents([cs[0]]), ChunkEvents(cs[1..]));
    }
  }

  // ---------- the end of the body

  lemma TrailerDispatch(s: Parser)
    requires s.flags.trailing
    ensures s.state == HeaderFieldStart ==>
              && Dispatch(s, CR) == Go(s.(state := HeadersAlmostDone))
              && Dispatch(s, LF) == Again(s, HeadersAlmostDone)
    ensures s.state == HeadersAlmostDone ==>
              Dispatch(s, LF) == Outcome(s.(state := MessageDone), Notify(ChunkComplete), Reexec)
    ensures s.state == MessageDone ==>
              Dispatch(s, LF) == Outcome(s.(state := NewMessage(s)), Notify(MessageComplete),
                                         if s.upgrade then Exit else Next)
  {
    hide ShouldKeepAlive;
  }

  // The parser behind the message, but for what the automaton for headers has left in it.
  ghost function MessageEnded(s: Parser, tr: Trailer): Parser
    requires HeadersOk(tr.lines)
  {
    var s1 := s.(flags := LinesFlags(s.flags.(trailing := true), tr.lines),
                 contentLength := GivenLength(tr.lines, 0), state := MessageDone);
    s1.(state := NewMessage(s1))
  }

  lemma FeedRun(r: Run) returns (r': Run)
    requires r.ctl == Next && r.st.state == HeadersAlmostDone && r.st.flags.trailing && r.pend == Closed
    ensures r' == Resume(r, LF)
    ensures var s1 := r.st.(state := MessageDone);
            r' == r.(st := s1.(state := NewMessage(s1)), used := r.used + 1,
                     trace := r.trace + [ChunkComplete, MessageComplete], ctl := if r.st.upgrade then Exit else Next)
  {
    hide Dispatch, NewMessage;
    TrailerDispatch(r.st);
    TrailerDispatch(r.st.(state := MessageDone));
    assert r.trace + [ChunkComplete] + [MessageComplete] == r.trace + [ChunkComplete, MessageComplete];
    r' := Resume(r, LF);
  }

  // The empty line behind the trailer.
  lemma EmptyLine(r: Run, e: LineEnd) returns (r': Run)
    requires AtName(r) && r.st.flags.trailing
    ensures r' == RunBytes(r, EndText(e))
    ensures var s1 := r.st.(state := MessageDone);
            r' == r.(st := s1.(state := NewMessage(s1)), used := r.used + |EndText(e)|,
                     trace := r.trace + [ChunkComplete, MessageComplete], ctl := if r.st.upgrade then Exit else Next)
  {
    hide NewMessage, RunBytes, Resume;
    if e.CrLf? {
      r' := EmptyCrLf(r);
    } else {
      r' := EmptyLf(r);
    }
  }

  lemma EmptyCrLf(r: Run) returns (r': Run)
    requires AtName(r) && r.st.flags.trailing
    ensures r' == RunBytes(r, [CR] + [LF])
    ensures var s1 := r.st.(state := MessageDone);
            r' == r.(st := s1.(state := NewMessage(s1)), used := r.used + 2,
                     trace := r.trace + [ChunkComplete, MessageComplete], ctl := if r.st.upgrade then Exit else Next)
  {
    hide Dispatch, NewMessage, RunBytes, Resume;
    TrailerDispatch(r.st);
    GoRun(r, CR, r.st.(state := HeadersAlmostDone));
    r' := FeedRun(Resume(r, CR));
    assert [CR] + [LF] == CRLF;
    CrLfRun(r);
  }

  lemma EmptyLf(r: Run) returns (r': Run)
    requires AtName(r) && r.st.flags.trailing
    ensures r' == RunBytes(r, [LF])
    ensures var s1 := r.st.(state := MessageDone);
            r' == r.(st := s1.(state := NewMessage(s1)), used := r.used + 1,
                     trace := r.trace + [ChunkComplete, MessageComplete], ctl := if r.st.upgrade then Exit else Next)
  {
    hide Dispatch, NewMessage, RunBytes, Resume;
    TrailerDispatch(r.st);
    r' := FeedRun(r.(st := r.st.(state := HeadersAlmostDone)));
    BareRun(r);
    RunOne(r, LF);
  }

  lemma BareRun(r: Run)
    requires AtName(r) && Dispatch(r.st, LF) == Again(r.st, HeadersAlmostDone)
    ensures Resume(r, LF) == Resume(r.(st := r.st.(state := HeadersAlmostDone)), LF)
  {
    hide Dispatch;
  }

  // The trailer, from the line behind the last chunk's size on.
  lemma TrailerRun(r: Run, tr: Trailer) returns (r': Run)
    requires AtName(r) && r.st.flags.trailing && HeadersOk(tr.lines) && NoField(r.trace) && r.st.contentLength == 0
    ensures r' == RunBytes(r, LinesText(tr.lines) + EndText(tr.end))
    ensures r' == r.(st := MessageEnded(r.st, tr).(hstate := r'.st.hstate, index := r'.st.index),
                     used := r.used + |LinesText(tr.lines) + EndText(tr.end)|,
                     trace := r.trace + LineEvents(tr.lines) + [ChunkComplete, MessageComplete],
                     ctl := if r.st.upgrade then Exit else Next)
  {
    hide RunBytes, NewMessage, EndText, NoField, HeadersOk, LinesFlags;
    EndNotBlank(tr.end);
    var r1 := LinesRun(r, tr.lines, EndText(tr.end));
    TrailingStays(r.st.flags, tr.lines);
    r' := EmptyLine(r1, tr.end);
    StateAside(r1.st, MessageEnded(r.st, tr));
  }

  lemma EndNotBlank(e: LineEnd)
    ensures !IsBlank(EndText(e)[0])
  {
  }

  lemma TrailingStays(f: Flags, hs: seq<Header>)
    ensures LinesFlags(f, hs).trailing == f.trailing && f.(trailing := f.trailing) == f
  {
    hide SomeChunked, SomeUpgrade, SomeOption;
  }

  // Where the next message starts does not depend on the automaton for headers.
  lemma StateAside(s: Parser, t: Parser)
    requires s == t.(state := s.state, hstate := s.hstate, index := s.index)
    ensures NewMessage(s.(state := MessageDone)) == NewMessage(t) == NewMessage(t.(state := MessageDone))
  {
  }

  lemma LastChunkRun(r: Run, last: Chunk, tr: Trailer) returns (r': Run)
    requires r.ctl == Next && r.st.state == ChunkSizeStart && r.st.flags.chunked && r.pend == Closed && LastOk(last, tr)
    ensures r' == RunBytes(r, LastText(last, tr))
    ensures r' == r.(st := MessageEnded(r.st, tr).(hstate := r'.st.hstate, index := r'.st.index),
                     used := r.used + |LastText(last, tr)|,
                     trace := r.trace + [ChunkHeader(0)] + LineEvents(tr.lines) + [ChunkComplete, MessageComplete],
                     ctl := if r.st.upgrade then Exit else Next)
  {
    hide RunBytes, NewMessage, HeadersOk, LinesFlags, EndText;
    var line := last.size + (last.ext + CRLF);
    SizeLine(r, last);
    RunAppend(r, line, LinesText(tr.lines) + EndText(tr.end));
    var r1 := RunBytes(r, line);
    AtTrailer(r, r1);
    r' := TrailerRun(r1, tr);
  }

  lemma AtTrailer(r: Run, r1: Run)
    requires r.ctl == Next && r.pend == Closed
    requires r1 == r.(st := AfterSizeLine(r.st.(contentLength := 0)), used := r1.used,
             trace := r.trace + [ChunkHeader(0)])
    ensures AtName(r1) && r1.st.flags.trailing && r1.st.contentLength == 0 && NoField(r1.trace)
    ensures r1.st == r.st.(flags := r.st.flags.(trailing := true), contentLength := 0, state := HeaderFieldStart)
  {
  }

  function BodyEvents(cs: seq<Chunk>, tr: Trailer): Trace {
    ChunkEvents(cs) + ([ChunkHeader(0)] + LineEvents(tr.lines) + [ChunkComplete, MessageComplete])
  }

  lemma {:induction false} BodyOfAppend(t: Trace, u: Trace)
    ensures BodyOf(t + u) == BodyOf(t) + BodyOf(u)
  {
    if t == [] {
      assert t + u == u;
    } else {
      var first := if t[0].Data? && t[0].kind == BodyData then t[0].bytes else [];
      assert (t + u)[0] == t[0] && (t + u)[1..] == t[1..] + u;
      BodyOfAppend(t[1..], u);
      Regroup(first, BodyOf(t[1..]), BodyOf(u));
    }
  }

  lemma {:induction false} BodyOfChunks(cs: seq<Chunk>)
    ensures BodyOf(ChunkEvents(cs)) == AllData(cs)
  {
    if cs != [] {
      var e := [ChunkHeader(|cs[0].data|), Data(BodyData, cs[0].data), ChunkComplete];
      BodyOfAppend(e, ChunkEvents(cs[1..]));
      BodyOfChunks(cs[1..]);
      assert [ChunkComplete][1..] == [];
      assert e[1..][1..] == [ChunkComplete];
      assert BodyOf([ChunkComplete]) == [];
      assert BodyOf(e[1..]) == cs[0].data + [];
      assert BodyOf(e) == cs[0].data;
    }
  }

  lemma {:induction false} BodyOfLines(hs: seq<Header>)
    ensures BodyOf(LineEvents(hs)) == []
  {
    if hs != [] {
      var e := [Data(FieldData, hs[0].name), Data(ValueData, hs[0].value)];
      BodyOfAppend(e, LineEvents(hs[1..]));
      BodyOfLines(hs[1..]);
      assert e[1..] == [Data(ValueData, hs[0].value)] && e[1..][1..] == [];
    }
  }

  lemma BodyOfAll(cs: seq<Chunk>, tr: Trailer)
    ensures BodyOf(BodyEvents(cs, tr)) == AllData(cs)
  {
    hide BodyOf;
    BodyOfChunks(cs);
    BodyOfLines(tr.lines);
    var head, lines, end := [ChunkHeader(0)], LineEvents(tr.lines), [ChunkComplete, MessageComplete];
    NoBodyIn();
    BodyOfAppend(head, lines);
    BodyOfAppend(head + lines, end);
    BodyOfAppend(ChunkEvents(cs), head + lines + end);
  }

  lemma NoBodyIn()
    ensures BodyOf([ChunkHeader(0)]) == [] && BodyOf([ChunkComplete, MessageComplete]) == []
  {
    assert [ChunkComplete, MessageComplete][1..] == [MessageComplete];
  }

  /** Feeding the encoding of a list of chunks reports every chunk with exactly its data, then the header
      lines of the trailer, then one end of message, and consumes the encoding to its last byte. */
  lemma ChunkedRoundTrip(st: Parser, t: Trace, cs: seq<Chunk>, last: Chunk, tr: Trailer)
    requires Inv(st) && st.state == ChunkSizeStart && ChunksOk(cs) && LastOk(last, tr)
    ensures var e := Exec(st, t, Encode(cs, last, tr));
            e == Result(MessageEnded(st, tr).(hstate := e.st.hstate, index := e.st.index), t + BodyEvents(cs, tr),
                        |Encode(cs, last, tr)|, if st.upgrade then Exit else Next)
    ensures BodyOf(BodyEvents(cs, tr)) == AllData(cs)
  {
    hide RunBytes, LastText, EncodeAll, ChunkEvents, MessageEnded, Inv, LastOk, ChunksOk, BodyOf, BodyEvents;
    assert st.errno == Ok && st.flags.chunked by { InvChunk(st); }
    var r := WholeRun(Start(st, t), cs, last, tr);
    EncodeNonempty(cs, last, tr);
    BodyOfAll(cs, tr);
  }

  // The run over the whole encoding.
  lemma WholeRun(r: Run, cs: seq<Chunk>, last: Chunk, tr: Trailer) returns (r': Run)
    requires r.ctl == Next && r.st.state == ChunkSizeStart && r.st.flags.chunked && r.pend == Closed
    requires ChunksOk(cs) && LastOk(last, tr)
    ensures r' == RunBytes(r, Encode(cs, last, tr)) && HeadersOk(tr.lines)
    ensures r' == r.(st := MessageEnded(r.st, tr).(hstate := r'.st.hstate, index := r'.st.index),
                     used := r.used + |Encode(cs, last, tr)|, trace := r.trace + BodyEvents(cs, tr),
                     ctl := if r.st.upgrade then Exit else Next)
  {
    hide RunBytes, LastText, EncodeAll, ChunkEvents, MessageEnded, LastOk, ChunksOk;
    ChunksRun(r, cs);
    RunAppend(r, EncodeAll(cs), LastText(last, tr));
    var r1 := RunBytes(r, EncodeAll(cs));
    r' := LastChunkRun(r1, last, tr);
    LastLines(last, tr);
    SameEnd(r.st, r1.st, tr);
    AllEvents(r.trace, cs, tr);
  }

  lemma AllEvents(t: Trace, cs: seq<Chunk>, tr: Trailer)
    ensures t + ChunkEvents(cs) + [ChunkHeader(0)] + LineEvents(tr.lines) + [ChunkComplete, MessageComplete]
            == t + BodyEvents(cs, tr)
  {
    hide ChunkEvents, LineEvents;
    var c, h, l, e := ChunkEvents(cs), [ChunkHeader(0)], LineEvents(tr.lines), [ChunkComplete, MessageComplete];
    assert BodyEvents(cs, tr) == c + (h + l + e);
    assert t + c + h + l + e == t + (c + (h + l + e));
  }

  lemma SameEnd(s: Parser, s1: Parser, tr: Trailer)
    requires s1 == s.(contentLength := s1.contentLength) && HeadersOk(tr.lines)
    ensures MessageEnded(s1, tr) == MessageEnded(s, tr)
  {
    hide NewMessage, LinesFlags;
  }

  lemma InvChunk(s: Parser)
    requires Inv(s) && s.state == ChunkSizeStart
    ensures s.errno == Ok && s.flags.chunked
  {
  }

  lemma EncodeNonempty(cs: seq<Chunk>, last: Chunk, tr: Trailer)
    ensures |Encode(cs, last, tr)| >= 3
  {
    hide LinesText;
  }

  /** The same however the encoding is cut into buffers. */
  lemma ChunkedAnySplit(st: Parser, t: Trace, cs: seq<Chunk>, last: Chunk, tr: Trailer, bufs: seq<Bytes>)
    requires Inv(st) && st.state == ChunkSizeStart && ChunksOk(cs) && LastOk(last, tr)
    requires bufs != [] && (forall i :: 0 <= i < |bufs| ==> bufs[i] != []) && Concat(bufs) == Encode(cs, last, tr)
    ensures var e := ExecAll(st, t, bufs);
            e == Result(MessageEnded(st, tr).(hstate := e.st.hstate, index := e.st.index), t + BodyEvents(cs, tr),
                        |Encode(cs, last, tr)|, if st.upgrade then Exit else Next)
  {
    hide Exec, ExecAll, Inv, MessageEnded, LastOk, ChunksOk, Encode, BodyEvents;
    LastLines(last, tr);
    ChunkedRoundTrip(st, t, cs, last, tr);
    AnySplit(st, t, bufs);
  }

  lemma LastLines(last: Chunk, tr: Trailer)
    requires LastOk(last, tr)
    ensures HeadersOk(tr.lines)
  {
  }

  // ---------- bodies of known length

  lemma LastByteDispatch(s: Parser, ch: Byte)
    requires s.state == BodyIdentity && s.contentLength == 1
    ensures Dispatch(s, ch) == Outcome(s.(contentLength := 0, state := MessageDone), MarkFlushIncl(BodyData), Reexec)
    ensures var s1 := s.(contentLength := 0, state := MessageDone);
            Dispatch(s1, ch) == Outcome(s1.(state := NewMessage(s1)), Notify(MessageComplete),
                                        if s.upgrade then Exit else Next)
  {
    hide ShouldKeepAlive;
  }

  // The body up to its last byte.
  lemma BeforeLast(r: Run, xs: Bytes) returns (r': Run)
    requires r.ctl == Next && r.st.state == BodyIdentity && r.pend == Closed
    requires |xs| + 1 == r.st.contentLength < ULLONG_MAX
    ensures r' == RunBytes(r, xs) && BodyBytes(r'.pend) == xs && (r'.pend.Open? ==> r'.pend.kind == BodyData)
    ensures r' == r.(st := r.st.(contentLength := 1), pend := r'.pend, used := r.used + |xs|)
  {
    hide RunBytes;
    if xs == [] {
      RunNothing(r);
    } else {
      SkipBody(r, xs);
      assert [] + xs == xs;
    }
    r' := RunBytes(r, xs);
  }

  /** A body of known length: exactly that many bytes are handed out, then one end of message. */
  lemma IdentityRoundTrip(st: Parser, t: Trace, body: Bytes)
    requires Inv(st) && st.state == BodyIdentity && |body| == st.contentLength
    requires t == [] || !t[|t| - 1].Data?
    ensures var s1 := st.(contentLength := 0, state := MessageDone);
            Exec(st, t, body) == Result(s1.(state := NewMessage(s1)), t + [Data(BodyData, body), MessageComplete],
                                        |body|, if st.upgrade then Exit else Next)
  {
    hide RunBytes, Dispatch, NewMessage, Inv;
    InvIdentity(st);
    var r := Start(st, t);
    var n := |body| - 1;
    assert body == body[..n] + [body[n]];
    RunAppend(r, body[..n], [body[n]]);
    var r1 := BeforeLast(r, body[..n]);
    RunOne(r1, body[n]);
    IdentityEnd(r1, body[n], body);
    assert t + [Data(BodyData, body)] + [MessageComplete] == t + [Data(BodyData, body), MessageComplete];
  }

  /** The same however the body is cut into buffers. */
  lemma IdentityAnySplit(st: Parser, t: Trace, body: Bytes, bufs: seq<Bytes>)
    requires Inv(st) && st.state == BodyIdentity && |body| == st.contentLength
    requires t == [] || !t[|t| - 1].Data?
    requires bufs != [] && (forall i :: 0 <= i < |bufs| ==> bufs[i] != []) && Concat(bufs) == body
    ensures var s1 := st.(contentLength := 0, state := MessageDone);
            ExecAll(st, t, bufs) == Result(s1.(state := NewMessage(s1)), t + [Data(BodyData, body), MessageComplete],
                                           |body|, if st.upgrade then Exit else Next)
  {
    hide Exec, ExecAll, Inv, NewMessage;
    IdentityRoundTrip(st, t, body);
    AnySplit(st, t, bufs);
  }

  lemma InvIdentity(s: Parser)
    requires Inv(s) && s.state == BodyIdentity
    ensures s.errno == Ok && 0 < s.contentLength < ULLONG_MAX
  {
  }

  lemma IdentityEnd(r: Run, ch: Byte, body: Bytes)
    requires r.ctl == Next && r.st.state == BodyIdentity && r.st.contentLength == 1
    requires (r.pend.Open? ==> r.pend.kind == BodyData) && BodyBytes(r.pend) + [ch] == body
    ensures var s1 := r.st.(contentLength := 0, state := MessageDone);
            Resume(r, ch) == r.(st := s1.(state := NewMessage(s1)), pend := Closed, used := r.used + 1,
                                trace := Emit(Emit(r.trace, Data(BodyData, body)), MessageComplete),
                                ctl := if r.st.upgrade then Exit else Next)
  {
    hide Dispatch, NewMessage, Emit;
    LastByteDispatch(r.st, ch);
  }
}
