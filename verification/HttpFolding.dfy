/** How header lines end, and values that are continued on further lines. */
module HttpFolding {
  import opened HttpTypes
  import opened HttpDispatch
  import opened HttpRun
  import opened HttpLengths
  import opened HttpConnection

  // What ends a line: CR LF, or a bare LF, which the parser takes as well.
  datatype LineEnd = CrLf | BareLf

  function EndText(e: LineEnd): (text: Bytes)
    ensures text != []
  {
    if e.CrLf? then [CR] + [LF] else [LF]
  }

  predicate IsBlank(ch: Byte) { ch == ' ' || ch == '\t' }

  predicate Blanks(ws: Bytes) { forall i :: 0 <= i < |ws| ==> IsBlank(ws[i]) }

  // An empty line in front of a value, which goes on with blanks on the next; a line that continues a value.
  datatype Gap = Gap(blanks: Bytes, end: LineEnd)

  datatype Fold = Fold(end: LineEnd, text: Bytes)

  function GapsText(gs: seq<Gap>): Bytes {
    if gs == [] then [] else gs[0].blanks + (EndText(gs[0].end) + GapsText(gs[1..]))
  }

  // Each of the lines begins with a blank, and so does the one behind them.
  predicate GapsOk(gs: seq<Gap>, blanks: Bytes)
    decreases |gs|
  {
    && Blanks(blanks)
    && (gs != [] ==> Blanks(gs[0].blanks) && Begun(gs[1..], blanks) && GapsOk(gs[1..], blanks))
  }

  predicate Begun(gs: seq<Gap>, blanks: Bytes) { if gs == [] then blanks != [] else gs[0].blanks != [] }

  predicate FoldOk(f: Fold) {
    f.text != [] && IsBlank(f.text[0]) && forall i :: 0 <= i < |f.text| ==> f.text[i] != CR && f.text[i] != LF
  }

  predicate FoldsOk(fs: seq<Fold>) { forall i :: 0 <= i < |fs| ==> FoldOk(fs[i]) }

  function FoldsText(fs: seq<Fold>): Bytes {
    if fs == [] then [] else EndText(fs[0].end) + (fs[0].text + FoldsText(fs[1..]))
  }

  // What the continuing lines add to the value.
  function FoldsValue(fs: seq<Fold>): Bytes { if fs == [] then [] else fs[0].text + FoldsValue(fs[1..]) }

  function Texts(fs: seq<Fold>): seq<Bytes> { if fs == [] then [] else [fs[0].text] + Texts(fs[1..]) }

  // ---------- the ends of lines

  lemma LineEndDispatch(s: Parser, ch: Byte)
    ensures s.state == HeaderValue ==>
              Dispatch(s, LF) == Outcome(s.(state := HeaderAlmostDone), Flush(ValueData), Reexec)
    ensures s.state == HeaderAlmostDone ==> Dispatch(s, LF) == Go(s.(state := HeaderValueLws))
    ensures s.state == HeaderValueDiscardWs ==>
              && Dispatch(s, CR) == Go(s.(state := HeaderValueDiscardWsAlmostDone))
              && Dispatch(s, LF) == Go(s.(state := HeaderValueDiscardLws))
    ensures s.state == HeaderValueDiscardWsAlmostDone ==> Dispatch(s, LF) == Go(s.(state := HeaderValueDiscardLws))
    ensures var s1 := s.(flags := FinishValue(s.flags, s.hstate), state := HeaderFieldStart);
            !IsBlank(ch) ==>
              && (s.state == HeaderValueLws ==> Dispatch(s, ch) == Outcome(s1, NoAct, Reexec))
              && (s.state == HeaderValueDiscardLws ==> Dispatch(s, ch) == Outcome(s1, MarkFlush(ValueData), Reexec))
  {
    hide FinishValue, DispatchFieldStart, DispatchField, ValueByte, DispatchValueStart;
  }

  // The parser is inside a value.
  ghost predicate InValue(r: Run) {
    r.ctl == Next && r.st.state == HeaderValue && r.pend.Open? && r.pend.kind == ValueData
  }

  // The end of a line with a value.
  lemma ValueEnd(r: Run, e: LineEnd) returns (r': Run)
    requires InValue(r)
    ensures r' == RunBytes(r, EndText(e))
    ensures r' == r.(st := r.st.(state := HeaderValueLws), pend := Closed, used := r.used + |EndText(e)|,
                     trace := Emit(r.trace, Data(ValueData, r.pend.bytes)))
  {
    hide Dispatch, RunBytes, Emit;
    var s := r.st.(state := HeaderAlmostDone);
    LineEndDispatch(r.st, ' ');
    LineEndDispatch(s, ' ');
    if e.CrLf? {
      ValueCr(r);
      var r1 := Resume(r, CR);
      GoRun(r1, LF, s.(state := HeaderValueLws));
      RunAppend(r, [CR], [LF]);
      RunOne(r, CR);
      RunOne(r1, LF);
    } else {
      var r1 := r.(st := s, pend := Closed, trace := Emit(r.trace, Data(ValueData, r.pend.bytes)));
      assert Resume(r, LF) == Resume(r1, LF);
      GoRun(r1, LF, s.(state := HeaderValueLws));
      RunOne(r, LF);
    }
    r' := RunBytes(r, EndText(e));
  }

  // The parser is in front of a value.
  ghost predicate AtValue(r: Run) { r.ctl == Next && r.st.state == HeaderValueDiscardWs && r.pend == Closed }

  lemma NothingRead(r: Run, e: LineEnd) returns (r': Run)
    requires AtValue(r)
    ensures r' == RunBytes(r, EndText(e))
    ensures r' == r.(st := r.st.(state := HeaderValueDiscardLws), used := r.used + |EndText(e)|)
  {
    hide Dispatch, Resume, RunBytes;
    LineEndDispatch(r.st, ' ');
    r' := RunBytes(r, EndText(e));
    if e.CrLf? {
      GoRun(r, CR, r.st.(state := HeaderValueDiscardWsAlmostDone));
      var r1 := Resume(r, CR);
      LineEndDispatch(r1.st, ' ');
      GoRun(r1, LF, r1.st.(state := HeaderValueDiscardLws));
      RunAppend(r, [CR], [LF]);
      RunOne(r, CR);
      RunOne(r1, LF);
    } else {
      GoRun(r, LF, r.st.(state := HeaderValueDiscardLws));
      RunOne(r, LF);
    }
  }

  // ---------- in front of a value

  lemma BlankDispatch(s: Parser, ch: Byte)
    requires s.state == HeaderValueDiscardWs && IsBlank(ch)
    ensures Dispatch(s, ch) == Go(s)
  {
    hide NameStep;
  }

  lemma {:induction false} BlankRun(r: Run, ws: Bytes)
    requires AtValue(r) && Blanks(ws)
    ensures RunBytes(r, ws) == r.(used := r.used + |ws|)
    decreases |ws|
  {
    hide Dispatch;
    if ws != [] {
      BlankDispatch(r.st, ws[0]);
      GoRun(r, ws[0], r.st);
      BlankRun(Resume(r, ws[0]), ws[1..]);
    }
  }

  lemma SameFirst(r: Run, q: Run, b: Bytes)
    requires b != [] && r.ctl == Next && q.ctl == Next && Resume(r, b[0]) == Resume(q, b[0])
    ensures RunBytes(r, b) == RunBytes(q, b)
  {
    hide Resume;
  }

  lemma GapByte(s: Parser, ch: Byte)
    requires s.state == HeaderValueDiscardLws && IsBlank(ch)
    ensures Dispatch(s, ch) == Go(s.(state := HeaderValueDiscardWs))
  {
    hide NameStep;
  }

  // The blank that begins a line is passed over in either state.
  lemma SameBlank(r: Run, b: Bytes)
    requires AtValue(r) && b != [] && IsBlank(b[0])
    ensures RunBytes(r.(st := r.st.(state := HeaderValueDiscardLws)), b) == RunBytes(r, b)
  {
    hide Dispatch, RunBytes;
    var q := r.(st := r.st.(state := HeaderValueDiscardLws));
    GapByte(q.st, b[0]);
    BlankDispatch(r.st, b[0]);
    GoRun(q, b[0], r.st);
    GoRun(r, b[0], r.st);
    SameFirst(q, r, b);
  }

  lemma BegunText(gs: seq<Gap>, blanks: Bytes)
    requires GapsOk(gs, blanks) && Begun(gs, blanks)
    ensures GapsText(gs) + blanks != [] && IsBlank((GapsText(gs) + blanks)[0])
  {
    hide EndText;
  }

  /** Everything in front of a value is passed over. */
  lemma {:induction false} GapsRun(r: Run, gs: seq<Gap>, blanks: Bytes)
    requires AtValue(r) && GapsOk(gs, blanks)
    ensures RunBytes(r, GapsText(gs) + blanks) == r.(used := r.used + |GapsText(gs) + blanks|)
    decreases |gs|
  {
    hide RunBytes, EndText;
    if gs == [] {
      assert GapsText(gs) + blanks == blanks;
      BlankRun(r, blanks);
    } else {
      var g, rest := gs[0], GapsText(gs[1..]) + blanks;
      assert GapsText(gs) + blanks == g.blanks + (EndText(g.end) + rest);
      BlankRun(r, g.blanks);
      RunAppend(r, g.blanks, EndText(g.end) + rest);
      var r1 := r.(used := r.used + |g.blanks|);
      var r2 := NothingRead(r1, g.end);
      RunAppend(r1, EndText(g.end), rest);
      BegunText(gs[1..], blanks);
      var r3 := r1.(used := r1.used + |EndText(g.end)|);
      SameBlank(r3, rest);
      GapsRun(r3, gs[1..], blanks);
    }
  }

  // ---------- continued values

  // Bytes xs of the value have been read from n bytes of input.
  ghost predicate Through(r: Run, r': Run, xs: Bytes, n: nat) {
    && InValue(r) && InValue(r') && r'.used == r.used + n
    && r'.st == r.st.(hstate := r'.st.hstate, index := r'.st.index, flags := r'.st.flags)
    && Emit(r'.trace, Data(ValueData, r'.pend.bytes)) == Emit(r.trace, Data(ValueData, r.pend.bytes + xs))
  }

  lemma ThroughNothing(r: Run)
    requires InValue(r)
    ensures Through(r, r, [], 0)
  {
    assert r.pend.bytes + [] == r.pend.bytes;
  }

  lemma ThroughAppend(r: Run, r1: Run, xs: Bytes, n: nat, r2: Run, ys: Bytes, k: nat)
    requires Through(r, r1, xs, n) && Through(r1, r2, ys, k)
    ensures Through(r, r2, xs + ys, n + k)
  {
    hide Emit;
    EmitGlue(r1.trace, ValueData, r1.pend.bytes, ys);
    EmitGlue(r.trace, ValueData, r.pend.bytes + xs, ys);
    assert r.pend.bytes + xs + ys == r.pend.bytes + (xs + ys);
  }

  lemma MovedThrough(r: Run, r': Run, v: Bytes)
    requires InValue(r) && Moved(r, r', v)
    ensures Through(r, r', v, |v|)
  {
    hide Emit;
  }

  // The state of the automaton after a first line that has been looked into, or passed over.
  predicate GoesOn(h: HeaderState) { !h.Upgrade? && !h.TransferEncoding? && !h.Connection? && !h.ContentLength? }

  function Folded(h: HeaderState): HeaderState { if h == MatchingConnectionTokenStart then h else General }

  lemma FoldDispatch(s: Parser, ch: Byte)
    requires GoesOn(s.hstate) && IsBlank(ch)
    ensures s.state == HeaderValueLws ==> Dispatch(s, ch) == Again(s, HeaderValueStart)
    ensures s.state == HeaderValueStart ==>
              Dispatch(s, ch) == Outcome(s.(state := HeaderValue, index := 0, hstate := Folded(s.hstate)),
                                         Mark(ValueData), Next)
  {
    hide Lower, NameStep, ValueByte;
  }

  // The end of a line, and the blank that begins the next.
  lemma FoldStart(r: Run, e: LineEnd, ch: Byte) returns (r': Run)
    requires InValue(r) && GoesOn(r.st.hstate) && IsBlank(ch)
    ensures r' == RunBytes(r, EndText(e) + [ch]) && Through(r, r', [ch], |EndText(e)| + 1) && InValue(r')
    ensures r'.st.flags == r.st.flags && r'.st.hstate == Folded(r.st.hstate) && r'.st.index == 0
  {
    hide RunBytes, Dispatch, Emit, EndText;
    var r1 := ValueEnd(r, e);
    RunAppend(r, EndText(e), [ch]);
    RunOne(r1, ch);
    FoldDispatch(r1.st, ch);
    var r2 := r1.(st := r1.st.(state := HeaderValueStart));
    FoldDispatch(r2.st, ch);
    assert Resume(r1, ch) == Resume(r2, ch);
    assert Grow(Open(ValueData, []), ch) == Open(ValueData, [ch]);
    r' := Resume(r2, ch);
    EmitGlue(r.trace, ValueData, r.pend.bytes, [ch]);
  }

  lemma FoldPart(fs: seq<Fold>)
    requires FoldsOk(fs) && fs != []
    ensures FoldOk(fs[0]) && FoldsOk(fs[1..]) && fs[0].text != [] && IsBlank(fs[0].text[0])
    ensures PieceFree(fs[0].text[1..])
  {
  }

  predicate PieceFree(p: Bytes) { forall i :: 0 <= i < |p| ==> p[i] != CR && p[i] != LF }

  lemma FoldCut(fs: seq<Fold>)
    requires fs != [] && fs[0].text != []
    ensures FoldsText(fs) == EndText(fs[0].end) + [fs[0].text[0]] + (fs[0].text[1..] + FoldsText(fs[1..]))
    ensures FoldsValue(fs) == [fs[0].text[0]] + (fs[0].text[1..] + FoldsValue(fs[1..]))
  {
    hide EndText, FoldsText, FoldsValue;
    FoldsFirst(fs);
    HeadCut(EndText(fs[0].end), fs[0].text, FoldsText(fs[1..]));
    HeadCut([], fs[0].text, FoldsValue(fs[1..]));
  }

  lemma FoldsFirst(fs: seq<Fold>)
    requires fs != []
    ensures FoldsText(fs) == EndText(fs[0].end) + (fs[0].text + FoldsText(fs[1..]))
    ensures FoldsValue(fs) == fs[0].text + FoldsValue(fs[1..])
  {
  }

  lemma HeadCut(a: Bytes, t: Bytes, b: Bytes)
    requires t != []
    ensures a + (t + b) == a + [t[0]] + (t[1..] + b) && t + b == [t[0]] + (t[1..] + b)
  {
  }

  lemma ThreeThrough(r: Run, r1: Run, e: nat, ch: Byte, r2: Run, xs: Bytes, r3: Run, ys: Bytes, n: nat)
    requires Through(r, r1, [ch], e + 1) && Through(r1, r2, xs, |xs|) && Through(r2, r3, ys, n)
    ensures Through(r, r3, [ch] + (xs + ys), e + 1 + (|xs| + n))
  {
    hide Through;
    ThroughAppend(r1, r2, xs, |xs|, r3, ys, n);
    ThroughAppend(r, r1, [ch], e + 1, r3, xs + ys, |xs| + n);
  }

  /** Continuing lines of a value that is not waiting for an option are not looked into. */
  lemma {:induction false} IgnoredFolds(r: Run, fs: seq<Fold>) returns (r': Run)
    requires InValue(r) && GoesOn(r.st.hstate) && r.st.hstate != MatchingConnectionTokenStart && FoldsOk(fs)
    ensures r' == RunBytes(r, FoldsText(fs)) && Through(r, r', FoldsValue(fs), |FoldsText(fs)|)
    ensures r'.st.flags == r.st.flags && r'.st.hstate == if fs == [] then r.st.hstate else General
    decreases |fs|
  {
    hide RunBytes, ValueByte, Through, FoldOk, EndText, Moved;
    if fs == [] {
      ThroughNothing(r);
      RunNothing(r);
      r' := r;
    } else {
      FoldPart(fs);
      FoldCut(fs);
      var text, rest := fs[0].text, FoldsText(fs[1..]);
      var r1 := FoldStart(r, fs[0].end, text[0]);
      var r2 := GeneralText(r1, text[1..]);
      r' := IgnoredFolds(r2, fs[1..]);
      RunAppend(r, EndText(fs[0].end) + [text[0]], text[1..] + rest);
      RunAppend(r1, text[1..], rest);
      ThreeThrough(r, r1, |EndText(fs[0].end)|, text[0], r2, text[1..], r', FoldsValue(fs[1..]), |rest|);
    }
  }

  lemma GeneralText(r: Run, xs: Bytes) returns (r': Run)
    requires InValue(r) && r.st.hstate == General && PieceFree(xs)
    ensures r' == RunBytes(r, xs) && Through(r, r', xs, |xs|) && r'.st == r.st && InValue(r')
  {
    hide RunBytes, ValueByte, Emit;
    forall ch: Byte ensures ValueByte(r.st, ch) == Go(r.st) { GeneralByte(r.st, ch); }
    StillRun(r, xs);
    r' := RunBytes(r, xs);
    MovedThrough(r, r', xs);
  }

  // ---------- continued lengths

  lemma LengthFoldDispatch(s: Parser, ch: Byte)
    requires s.hstate.ContentLength? && IsBlank(ch)
    ensures s.state == HeaderValueLws ==> Dispatch(s, ch) == Again(s, HeaderValueStart)
    ensures s.state == HeaderValueStart ==>
              Dispatch(s, ch) == Fail(s.(state := HeaderValue, index := 0), InvalidContentLength)
  {
    hide Lower, NameStep, ValueByte;
  }

  // The blank behind the line is refused before the value goes on.
  lemma LengthFoldRefused(r: Run, ch: Byte)
    requires r.ctl == Next && r.pend == Closed && r.st.state == HeaderValueLws
    requires r.st.hstate.ContentLength? && IsBlank(ch)
    ensures var q := Resume(r, ch);
            q.ctl == Failed && q.st.errno == InvalidContentLength && q.trace == r.trace && q.used == r.used
  {
    hide Dispatch, Emit;
    LengthFoldDispatch(r.st, ch);
    var r1 := r.(st := r.st.(state := HeaderValueStart));
    LengthFoldDispatch(r1.st, ch);
    assert Resume(r, ch) == Resume(r1, ch);
  }

  /** A Content-Length that is continued is an error, whatever follows: a line of it would have to begin with a
      digit. Its first line has been handed out by then. */
  lemma LengthFolds(r: Run, fs: seq<Fold>, b: Bytes) returns (r': Run)
    requires InValue(r) && r.st.hstate.ContentLength? && FoldsOk(fs) && fs != []
    ensures r' == RunBytes(r, FoldsText(fs) + b)
    ensures r'.ctl == Failed && r'.st.errno == InvalidContentLength && r'.used == r.used + |EndText(fs[0].end)|
    ensures r'.trace == Emit(r.trace, Data(ValueData, r.pend.bytes))
  {
    hide RunBytes, Resume, Dispatch, Emit, EndText, FoldOk, FoldsText;
    FoldPart(fs);
    FoldCut(fs);
    var ch, rest := fs[0].text[0], fs[0].text[1..] + FoldsText(fs[1..]) + b;
    var r1 := ValueEnd(r, fs[0].end);
    assert FoldsText(fs) + b == EndText(fs[0].end) + ([ch] + rest);
    RunAppend(r, EndText(fs[0].end), [ch] + rest);
    RunAppend(r1, [ch], rest);
    RunOne(r1, ch);
    LengthFoldRefused(r1, ch);
    StaysEnded(Resume(r1, ch), rest);
    r' := Resume(r1, ch);
  }

  // ---------- continued lists of options

  // The value ends where an option may begin.
  predicate Waits(m: Mode, ps: seq<Bytes>)
    requires ps != []
  {
    LastMode(m, ps).Listening? && Lead(Last(ps)) == |Last(ps)|
  }

  // The option is heard in the value v or, as far as it is listened to, in the texts of the lines that
  // continue it. The blank that begins such a line is passed over. What a line leaves unfinished is lost.
  ghost predicate HeardIn(m: Mode, v: Bytes, more: seq<Bytes>, k: Known)
    decreases |more|
  {
    var ps := Pieces(v);
    || SomeHeard(m, Init(ps), k)
    || (if more == [] then Heard(LastMode(m, ps), Last(ps), k)
        else Waits(m, ps) && more[0] != [] && HeardIn(Listening, more[0][1..], more[1..], k))
  }

  ghost function HearFolded(f: Flags, m: Mode, v: Bytes, more: seq<Bytes>): Flags {
    f.(keepAlive := f.keepAlive || HeardIn(m, v, more, ToKeepAlive), close := f.close || HeardIn(m, v, more, ToClose),
       connUpgrade := f.connUpgrade || HeardIn(m, v, more, ToUpgrade))
  }

  lemma WaitsIs(f: Flags, m: Mode, ps: seq<Bytes>, s: Parser)
    requires ps != [] && AtLast(f, m, ps, s)
    ensures Waits(m, ps) <==> s.hstate == MatchingConnectionTokenStart
    ensures Waits(m, ps) ==> s.index == 0
    ensures GoesOn(s.hstate) && NotChunked(s.hstate)
  {
    hide Hear, Begins, HttpConnection.Complete, IsToken, Init;
  }

  lemma LastHeard(f: Flags, m: Mode, v: Bytes, s: Parser)
    requires AtLast(f, m, Pieces(v), s)
    ensures FinishValue(s.flags, s.hstate) == HearFolded(f, m, v, [])
  {
    hide Passed, SomeHeard, Heard, SetOption, FinishValue, Pieces, Init, Last, LastMode, Waits;
    var ps := Pieces(v);
    WaitsIs(f, m, ps, s);
    FinishIsSet(s.flags, s.hstate);
    OptionSet(s.flags, LastMode(m, ps), Last(ps), s);
  }

  lemma NoMore(f: Flags, m: Mode, v: Bytes, more: seq<Bytes>, g: Flags)
    requires more != [] && !Waits(m, Pieces(v)) && g == Hear(f, m, Init(Pieces(v)))
    ensures g == HearFolded(f, m, v, more)
  {
    hide SomeHeard, Heard, Pieces, Init, Waits;
  }

  lemma HearOn(f: Flags, m: Mode, v: Bytes, more: seq<Bytes>)
    requires more != [] && more[0] != [] && Waits(m, Pieces(v))
    ensures HearFolded(Hear(f, m, Init(Pieces(v))), Listening, more[0][1..], more[1..]) == HearFolded(f, m, v, more)
  {
    hide SomeHeard, Heard, Pieces, Init, Waits;
  }

  /** A list of options that is continued: it is listened to on a further line only if the line before ends
      where an option may begin. */
  lemma {:induction false} OptionFolds(r: Run, f: Flags, m: Mode, v: Bytes, fs: seq<Fold>) returns (r': Run)
    requires InValue(r) && AtLast(f, m, Pieces(v), r.st) && FoldsOk(fs)
    ensures r' == RunBytes(r, FoldsText(fs)) && Through(r, r', FoldsValue(fs), |FoldsText(fs)|)
    ensures FinishValue(r'.st.flags, r'.st.hstate) == HearFolded(f, m, v, Texts(fs))
    decreases |fs|, 1
  {
    hide RunBytes, ValueByte, Through, FoldOk, EndText, Moved, HearFolded, FinishValue, Pieces, AtLast, Waits;
    WaitsIs(f, m, Pieces(v), r.st);
    if fs == [] {
      ThroughNothing(r);
      RunNothing(r);
      r' := r;
      LastHeard(f, m, v, r.st);
    } else if Waits(m, Pieces(v)) {
      r' := WaitingFold(r, f, m, v, fs);
    } else {
      r' := IgnoredFolds(r, fs);
      AtLastFlags(f, m, Pieces(v), r.st);
      NoMore(f, m, v, Texts(fs), r.st.flags);
      GeneralFinish(r'.st.flags);
    }
  }

  lemma AtLastFlags(f: Flags, m: Mode, ps: seq<Bytes>, s: Parser)
    requires ps != [] && AtLast(f, m, ps, s)
    ensures s.flags == Hear(f, m, Init(ps))
  {
    hide Hear, Passed;
  }

  lemma GeneralFinish(f: Flags)
    ensures FinishValue(f, General) == f
  {
  }

  // A line that is listened to.
  lemma WaitingFold(r: Run, f: Flags, m: Mode, v: Bytes, fs: seq<Fold>) returns (r': Run)
    requires InValue(r) && AtLast(f, m, Pieces(v), r.st) && FoldsOk(fs) && fs != [] && Waits(m, Pieces(v))
    ensures r' == RunBytes(r, FoldsText(fs)) && Through(r, r', FoldsValue(fs), |FoldsText(fs)|)
    ensures FinishValue(r'.st.flags, r'.st.hstate) == HearFolded(f, m, v, Texts(fs))
    decreases |fs|, 0
  {
    hide RunBytes, ValueByte, Through, FoldOk, EndText, Moved, HearFolded, FinishValue, Pieces, AtLast, Waits;
    WaitsIs(f, m, Pieces(v), r.st);
    AtLastFlags(f, m, Pieces(v), r.st);
    FoldPart(fs);
    FoldCut(fs);
    var text, rest := fs[0].text, FoldsText(fs[1..]);
    var r1 := FoldStart(r, fs[0].end, text[0]);
    var r2 := ListenedText(r1, text[1..]);
    r' := OptionFolds(r2, r1.st.flags, Listening, text[1..], fs[1..]);
    HearOn(f, m, v, Texts(fs));
    RunAppend(r, EndText(fs[0].end) + [text[0]], text[1..] + rest);
    RunAppend(r1, text[1..], rest);
    ThreeThrough(r, r1, |EndText(fs[0].end)|, text[0], r2, text[1..], r', FoldsValue(fs[1..]), |rest|);
  }

  lemma ListenedText(r: Run, xs: Bytes) returns (r': Run)
    requires InValue(r) && r.st.hstate == MatchingConnectionTokenStart && r.st.index == 0 && PieceFree(xs)
    ensures r' == RunBytes(r, xs) && Through(r, r', xs, |xs|) && AtLast(r.st.flags, Listening, Pieces(xs), r'.st)
    ensures InValue(r')
  {
    hide RunBytes, ValueByte, Emit, AtLast, Pieces, Hear;
    PiecesJoin(xs);
    r' := MoreRun(r, Listening, Pieces(xs));
    MovedThrough(r, r', xs);
  }
}
