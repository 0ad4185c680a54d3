/** How much of a message is counted towards the limit on header bytes. */
module HttpHeaderLimit {
  import opened HttpTypes
  import opened HttpDispatch
  import opened HttpInvariant
  import opened HttpRun
  import opened HttpCounting

  // ---------- the counter over a whole text

  function Charged(s: Parser, n: nat): nat { if ParsingHeader(s.state) then n + 1 else n }

  function Max(a: nat, b: nat): nat { if a < b then b else a }

  /** What the counter holds in the end, and the most it holds on the way, if there were no limit and no buffer
      ended inside a name or a value. */
  function Level(r: Run, n: nat, xs: Bytes): nat
    decreases |xs|
  {
    if xs == [] || r.ctl != Next then n
    else Level(Resume(r, xs[0]), ByteCount(r.st, Charged(r.st, n), xs[0]), xs[1..])
  }

  function Peak(r: Run, n: nat, xs: Bytes): nat
    decreases |xs|
  {
    if xs == [] || r.ctl != Next then n
    else Max(Charged(r.st, n), Peak(Resume(r, xs[0]), ByteCount(r.st, Charged(r.st, n), xs[0]), xs[1..]))
  }

  lemma {:induction false} LevelBelow(r: Run, n: nat, xs: Bytes)
    ensures Level(r, n, xs) <= Peak(r, n, xs) && n <= Peak(r, n, xs)
    decreases |xs|
  {
    hide Resume, ByteCount;
    if xs != [] && r.ctl == Next {
      LevelBelow(Resume(r, xs[0]), ByteCount(r.st, Charged(r.st, n), xs[0]), xs[1..]);
    }
  }

  lemma {:induction false} LevelAppend(r: Run, n: nat, a: Bytes, b: Bytes)
    ensures var q, k := RunBytes(r, a), Level(r, n, a);
            Level(r, n, a + b) == Level(q, k, b) && Peak(r, n, a + b) == Max(Peak(r, n, a), Peak(q, k, b))
    decreases |a|
  {
    hide Resume, ByteCount;
    LevelBelow(r, n, b);
    if a == [] {
      assert a + b == b;
    } else if r.ctl == Next {
      assert (a + b)[1..] == a[1..] + b;
      LevelAppend(Resume(r, a[0]), ByteCount(r.st, Charged(r.st, n), a[0]), a[1..], b);
    }
  }

  // What a byte does depends on the parser alone.
  lemma {:induction false} SameByte(x: Run, y: Run, ch: Byte)
    requires x.st == y.st && x.ctl == y.ctl
    ensures Resume(x, ch).st == Resume(y, ch).st && Resume(x, ch).ctl == Resume(y, ch).ctl
    decreases Rank(x.st.state)
  {
    hide Dispatch, Step, Rank;
    var o := Dispatch(x.st, ch);
    StepShape(x, o, ch);
    StepShape(y, o, ch);
    if o.ctl == Reexec {
      ReexecDescends(x.st, ch);
      SameByte(Step(x, o, ch), Step(y, o, ch), ch);
    }
  }

  lemma {:induction false} SameLevel(x: Run, y: Run, n: nat, xs: Bytes)
    requires x.st == y.st && x.ctl == y.ctl
    ensures Level(x, n, xs) == Level(y, n, xs) && Peak(x, n, xs) == Peak(y, n, xs)
    ensures RunBytes(x, xs).st == RunBytes(y, xs).st && RunBytes(x, xs).ctl == RunBytes(y, xs).ctl
    decreases |xs|
  {
    hide Resume, ByteCount;
    if xs != [] && x.ctl == Next {
      SameByte(x, y, xs[0]);
      SameLevel(Resume(x, xs[0]), Resume(y, xs[0]), ByteCount(x.st, Charged(x.st, n), xs[0]), xs[1..]);
    }
  }

  /** One buffer that is not refused and does not end inside a name or a value: the counter goes beyond the limit if
      and only if its peak does. */
  lemma {:induction false} PeakExact(r: Run, n: nat, xs: Bytes)
    requires RunBytes(r, xs).ctl != Failed && !Scans(RunBytes(r, xs).st.state) && n <= MAX_HEADER_SIZE
    ensures if Peak(r, n, xs) <= MAX_HEADER_SIZE then Counter(r, n, xs) == Level(r, n, xs)
            else Counter(r, n, xs) > MAX_HEADER_SIZE
    decreases |xs|
  {
    hide Resume, ByteCount, FailsInToken, GoesOver;
    if xs != [] && r.ctl == Next {
      if FailsInToken(r.st, xs) {
        FailsInTokenRuns(r, xs);
      }
      var k := ByteCount(r.st, Charged(r.st, n), xs[0]);
      ByteCountBound(r.st, Charged(r.st, n), xs[0]);
      if |xs| == 1 {
        assert xs == [xs[0]];
        RunOne(r, xs[0]);
        OverStays(r, xs[0]);
      }
      if Charged(r.st, n) <= MAX_HEADER_SIZE {
        PeakExact(Resume(r, xs[0]), k, xs[1..]);
      }
    }
  }

  lemma OverStays(r: Run, ch: Byte)
    requires r.ctl == Next
    ensures GoesOver(r.st, ch) ==> Scans(Resume(r, ch).st.state)
  {
    hide Dispatch, Apply;
    StepShape(r, Dispatch(r.st, ch), ch);
  }

  // No buffer ends inside a name or a value.
  predicate EndsClean(st: Parser, t: Trace, bufs: seq<Bytes>)
    decreases |bufs|
  {
    bufs != [] ==>
      var e := Exec(st, t, bufs[0]);
      !Scans(e.st.state) && (e.ctl == Next ==> EndsClean(e.st, e.trace, bufs[1..]))
  }

  lemma ExecIsRun(st: Parser, t: Trace, xs: Bytes)
    requires st.errno == Ok && xs != []
    ensures Exec(st, t, xs).st == RunBytes(Start(st, t), xs).st && Exec(st, t, xs).ctl == RunBytes(Start(st, t), xs).ctl
  {
    hide RunBytes;
  }

  /** Of a text that is not refused, cut into buffers none of which ends inside a name or a value, a header is found
      too large if and only if the peak of the whole is beyond the limit. */
  lemma {:induction false} CleanFits(st: Parser, t: Trace, n: nat, bufs: seq<Bytes>)
    requires Inv(st) && n <= MAX_HEADER_SIZE && forall i :: 0 <= i < |bufs| ==> bufs[i] != []
    requires RunBytes(Start(st, t), Concat(bufs)).ctl != Failed && EndsClean(st, t, bufs)
    ensures FitsAll(st, t, n, bufs) <==> Peak(Start(st, t), n, Concat(bufs)) <= MAX_HEADER_SIZE
    decreases |bufs|
  {
    hide RunBytes, Counter, Level, Peak, Inv, Exec, Scans;
    var r := Start(st, t);
    if bufs == [] {
      NoPeak(r, n);
    } else {
      var a, rest := bufs[0], bufs[1..];
      var e, q, k := Exec(st, t, a), RunBytes(r, a), Level(r, n, a);
      InvOk(st);
      ExecIsRun(st, t, a);
      ExecKeepsInv(st, t, a);
      RunAppend(r, a, Concat(rest));
      StaysEnded(q, Concat(rest));
      LevelAppend(r, n, a, Concat(rest));
      LevelBelow(r, n, a);
      PeakExact(r, n, a);
      if e.ctl == Next {
        SameLevel(q, Start(e.st, e.trace), k, Concat(rest));
        if k <= MAX_HEADER_SIZE {
          CleanFits(e.st, e.trace, k, rest);
        }
      } else {
        EndedPeak(q, k, Concat(rest));
      }
    }
  }

  lemma NoPeak(r: Run, n: nat)
    ensures Peak(r, n, []) == n
  {
  }

  lemma EndedPeak(r: Run, n: nat, xs: Bytes)
    requires r.ctl != Next
    ensures Peak(r, n, xs) == n
  {
  }

  // ---------- any cut

  lemma CountScales(s: Parser, a: nat, b: nat, ch: Byte)
    requires a <= 2 * b
    ensures ByteCount(s, a, ch) <= 2 * ByteCount(s, b, ch)
    decreases Rank(s.state)
  {
    hide Dispatch, Rank;
    if Dispatch(s, ch).ctl == Reexec {
      ReexecDescends(s, ch);
      CountScales(Dispatch(s, ch).st, PassCount(s, a, ch), PassCount(s, b, ch), ch);
    }
  }

  lemma OverCounts(s: Parser, n: nat, ch: Byte)
    requires GoesOver(s, ch)
    ensures ByteCount(s, n, ch) == n && ParsingHeader(s.state)
  {
    hide Dispatch;
  }

  /** A buffer costs at most twice what it would without its end. */
  lemma {:induction false} EndCosts(r: Run, m: nat, n: nat, xs: Bytes)
    requires m <= 2 * n && 2 * Peak(r, n, xs) <= MAX_HEADER_SIZE
    ensures Counter(r, m, xs) <= MAX_HEADER_SIZE
    ensures RunBytes(r, xs).ctl != Failed ==> Counter(r, m, xs) <= 2 * Level(r, n, xs)
    decreases |xs|
  {
    hide Resume, ByteCount, FailsInToken, GoesOver;
    if xs != [] && r.ctl == Next {
      var m', n' := Charged(r.st, m), Charged(r.st, n);
      CountScales(r.st, m', n', xs[0]);
      if FailsInToken(r.st, xs) {
        FailsInTokenRuns(r, xs);
      }
      if |xs| == 1 && GoesOver(r.st, xs[0]) {
        OverCounts(r.st, n', xs[0]);
        assert Level(Resume(r, xs[0]), n', xs[1..]) == n';
      } else {
        EndCosts(Resume(r, xs[0]), ByteCount(r.st, m', xs[0]), ByteCount(r.st, n', xs[0]), xs[1..]);
      }
    }
  }

  /** However a text is cut into buffers, its headers are not found too large if it keeps within half the limit. */
  lemma {:induction false} HalfFits(st: Parser, t: Trace, m: nat, n: nat, bufs: seq<Bytes>)
    requires m <= 2 * n && 2 * Peak(Start(st, t), n, Concat(bufs)) <= MAX_HEADER_SIZE
    requires forall i :: 0 <= i < |bufs| ==> bufs[i] != []
    ensures FitsAll(st, t, m, bufs)
    decreases |bufs|
  {
    hide RunBytes, Counter, Level, Peak;
    if bufs != [] {
      var r, a, rest := Start(st, t), bufs[0], bufs[1..];
      var k := Level(r, n, a);
      LevelAppend(r, n, a, Concat(rest));
      EndCosts(r, m, n, a);
      var e := Exec(st, t, a);
      if e.ctl == Next {
        SameLevel(RunBytes(r, a), Start(e.st, e.trace), k, Concat(rest));
        HalfFits(e.st, e.trace, Counter(r, m, a), k, rest);
      }
    }
  }

  // ---------- what the callbacks tell about the counter

  predicate IsMilestone(e: Event) { e.HeadersComplete? || e.ChunkHeader? || e.ChunkComplete? }

  predicate IsReset(e: Event) { e.HeadersComplete? || e.ChunkHeader? }

  function Milestones(t: Trace): nat {
    if t == [] then 0 else Milestones(t[..|t| - 1]) + if IsMilestone(t[|t| - 1]) then 1 else 0
  }

  function ResetsIn(t: Trace): nat {
    if t == [] then 0 else ResetsIn(t[..|t| - 1]) + if IsReset(t[|t| - 1]) then 1 else 0
  }

  lemma EmitCounts(t: Trace, e: Event)
    ensures Milestones(Emit(t, e)) == Milestones(t) + if IsMilestone(e) then 1 else 0
    ensures ResetsIn(Emit(t, e)) == ResetsIn(t) + if IsReset(e) then 1 else 0
  {
    var u := Emit(t, e);
    if t != [] && t[|t| - 1].Data? && e.Data? && t[|t| - 1].kind == e.kind {
      assert u[..|u| - 1] == t[..|t| - 1];
    } else {
      assert u[..|u| - 1] == t;
    }
  }

  lemma StepCounts(r: Run, o: Outcome, ch: Byte)
    ensures var t := Step(r, o, ch).trace;
            && Milestones(t) == Milestones(r.trace) + (if o.act.Notify? && IsMilestone(o.act.event) then 1 else 0)
            && ResetsIn(t) == ResetsIn(r.trace) + (if o.act.Notify? && IsReset(o.act.event) then 1 else 0)
  {
    hide Emit, Milestones, ResetsIn;
    var p := r.pend;
    match o.act {
      case NoAct =>
      case Mark(_) =>
      case Flush(_) =>
        if p.Open? { EmitCounts(r.trace, Data(p.kind, p.bytes)); }
      case MarkFlush(k) =>
        EmitCounts(r.trace, Data(k, Opened(p, k).bytes));
      case MarkFlushIncl(k) =>
        EmitCounts(r.trace, Data(k, Opened(p, k).bytes + [ch]));
      case Notify(e) =>
        EmitCounts(r.trace, e);
    }
  }

  // The parser is in a start line, in the headers or a trailer, or in the line with a chunk's size.
  predicate InHead(s: State) { ParsingHeader(s) && !s.HeadersDone? }

  predicate Tells(act: Act) { act.Notify? && IsMilestone(act.event) }

  // Where one pass over a byte of a head leads, and what it tells.
  predicate HeadStep(s: State, o: Outcome) {
    && o.ctl != Exit
    && (o.ctl == Next ==>
          if s.ChunkSizeAlmostDone? then Tells(o.act) && IsReset(o.act.event)
          else !Tells(o.act) && InHead(o.st.state))
    && (o.ctl == Reexec ==>
          && !Resets(s)
          && if o.st.state.HeadersDone? then Tells(o.act) && IsReset(o.act.event)
             else if o.st.state.MessageDone? then Tells(o.act) && !IsReset(o.act.event)
             else !Tells(o.act) && InHead(o.st.state))
  }

  lemma NamePass(s: Parser, ch: Byte)
    requires s.state.HeaderField?
    ensures HeadStep(s.state, DispatchField(s, ch))
  {
    hide NameStep, TokenChar, IsNameState, CountsIndex;
  }

  lemma ValuePass(s: Parser, ch: Byte)
    requires s.state.HeaderValue?
    ensures HeadStep(s.state, DispatchValue(s, ch))
  {
    hide Lower, TokenChar, Follow, SetOption;
  }

  lemma HeaderPass(s: Parser, ch: Byte)
    requires IsHeaderState(s.state) && InHead(s.state)
    ensures HeadStep(s.state, DispatchHeader(s, ch))
  {
    hide DispatchField, FirstNameState, FinishValue, TokenChar, DispatchValue, Lower;
    if s.state.HeaderField? {
      NamePass(s, ch);
    } else if s.state.HeaderValue? {
      ValuePass(s, ch);
    }
  }

  lemma ChunkPass(s: Parser, ch: Byte)
    requires IsBodyState(s.state) && InHead(s.state)
    ensures HeadStep(s.state, DispatchBody(s, ch))
  {
  }

  lemma UrlPass(s: Parser, ch: Byte)
    requires IsUrlState(s.state)
    ensures HeadStep(s.state, DispatchUrl(s, ch))
  {
    hide ParseUrlChar;
    UrlCharStays(s.state, ch);
  }

  lemma ResponsePass(s: Parser, ch: Byte)
    requires IsResponseState(s.state)
    ensures HeadStep(s.state, DispatchResponseLine(s, ch))
  {
    hide IsNum, Digit;
  }

  lemma RequestPass(s: Parser, ch: Byte)
    requires IsRequestState(s.state)
    ensures HeadStep(s.state, DispatchRequestLine(s, ch))
  {
    hide IsNum, Digit, DispatchUrlStart;
    if s.state.ReqSpacesBeforeUrl? {
      UrlStartPass(s, ch);
    }
  }

  lemma UrlStartPass(s: Parser, ch: Byte)
    requires s.state.ReqSpacesBeforeUrl?
    ensures HeadStep(s.state, DispatchUrlStart(s, ch))
  {
    hide ParseUrlChar;
    UrlCharStays(if s.meth == CONNECT then ReqServerStart else ReqSpacesBeforeUrl, ch);
  }

  lemma BeginPass(s: Parser, ch: Byte)
    requires !IsHeaderState(s.state) && !IsBodyState(s.state)
    ensures HeadStep(s.state, DispatchStart(s, ch))
  {
    hide FirstMethod, SwitchMethod, MethodString;
  }

  lemma StartPass(s: Parser, ch: Byte)
    requires !IsHeaderState(s.state) && !IsBodyState(s.state)
    ensures HeadStep(s.state, DispatchStartLine(s, ch))
  {
    hide DispatchUrl, DispatchResponseLine, DispatchRequestLine, DispatchStart, HeadStep;
    if IsUrlState(s.state) {
      UrlPass(s, ch);
    } else if IsResponseState(s.state) {
      ResponsePass(s, ch);
    } else if IsRequestState(s.state) {
      RequestPass(s, ch);
    } else {
      BeginPass(s, ch);
    }
  }

  lemma HeadPass(s: Parser, ch: Byte)
    requires InHead(s.state)
    ensures HeadStep(s.state, Dispatch(s, ch))
  {
    hide DispatchHeader, DispatchBody, DispatchStartLine, HeadStep, InHead;
    if IsHeaderState(s.state) {
      HeaderPass(s, ch);
    } else if IsBodyState(s.state) {
      ChunkPass(s, ch);
    } else {
      StartPass(s, ch);
    }
  }

  // ---------- one byte

  // What a byte of a head does to the counter: m before, k behind it.
  predicate ByteTold(r: Run, r': Run, m: nat, k: nat) {
    && Milestones(r'.trace) >= Milestones(r.trace) && ResetsIn(r'.trace) >= ResetsIn(r.trace)
    && (r'.ctl == Next && Milestones(r'.trace) == Milestones(r.trace) ==> InHead(r'.st.state) && k == m)
    && (r'.ctl == Next || r'.ctl == Exit ==> k == if ResetsIn(r'.trace) > ResetsIn(r.trace) then 0 else m)
  }

  // The end of the headers, or of the message, is dispatched once.
  lemma LastPass(s: Parser, ch: Byte)
    requires s.state.HeadersDone? || s.state.MessageDone?
    ensures var o := Dispatch(s, ch);
            && (o.ctl == Next || o.ctl == Exit || o.ctl == Failed) && !Tells(o.act)
            && (o.ctl != Failed && s.state.HeadersDone? ==> PassCount(s, 0, ch) == 0)
  {
    hide ShouldKeepAlive, NeedsEof;
  }

  lemma LastByte(r: Run, m: nat, ch: Byte)
    requires r.ctl == Next && (r.st.state.HeadersDone? || r.st.state.MessageDone?)
    ensures var r' := Resume(r, ch);
            && Milestones(r'.trace) == Milestones(r.trace) && ResetsIn(r'.trace) == ResetsIn(r.trace)
            && (r'.ctl == Next || r'.ctl == Exit ==>
                  ByteCount(r.st, m, ch) == if r.st.state.HeadersDone? then 0 else m)
  {
    hide Dispatch, Step, Milestones, ResetsIn;
    LastPass(r.st, ch);
    StepCounts(r, Dispatch(r.st, ch), ch);
    StepShape(r, Dispatch(r.st, ch), ch);
  }

  /** A byte of a head counts unless its callbacks tell that the counter has been set back. */
  lemma {:induction false} HeadByte(r: Run, m: nat, ch: Byte)
    requires r.ctl == Next && InHead(r.st.state)
    ensures ByteTold(r, Resume(r, ch), m, ByteCount(r.st, m, ch))
    decreases Rank(r.st.state)
  {
    hide Dispatch, Step, Milestones, ResetsIn, Rank;
    var o := Dispatch(r.st, ch);
    HeadPass(r.st, ch);
    StepCounts(r, o, ch);
    StepShape(r, o, ch);
    if o.ctl == Reexec {
      ReexecDescends(r.st, ch);
      var r1 := Step(r, o, ch);
      if InHead(r1.st.state) {
        HeadByte(r1, m, ch);
      } else {
        LastByte(r1, m, ch);
      }
    }
  }

  // ---------- many bytes

  lemma {:induction false} ResumeGrows(r: Run, ch: Byte)
    ensures Milestones(Resume(r, ch).trace) >= Milestones(r.trace)
    decreases Rank(r.st.state)
  {
    hide Dispatch, Step, Milestones, Rank;
    var o := Dispatch(r.st, ch);
    StepCounts(r, o, ch);
    StepShape(r, o, ch);
    if o.ctl == Reexec {
      ReexecDescends(r.st, ch);
      ResumeGrows(Step(r, o, ch), ch);
    }
  }

  lemma {:induction false} RunGrows(r: Run, xs: Bytes)
    ensures Milestones(RunBytes(r, xs).trace) >= Milestones(r.trace)
    decreases |xs|
  {
    hide Resume, Milestones;
    if xs != [] && r.ctl == Next {
      ResumeGrows(r, xs[0]);
      RunGrows(Resume(r, xs[0]), xs[1..]);
    }
  }

  // The bytes are read in a head, and the callbacks tell no end of one.
  predicate Quiet(r: Run, xs: Bytes) {
    && r.ctl == Next && InHead(r.st.state)
    && RunBytes(r, xs).ctl == Next && Milestones(RunBytes(r, xs).trace) == Milestones(r.trace)
  }

  lemma QuietFirst(r: Run, m: nat, xs: Bytes)
    requires Quiet(r, xs) && xs != []
    ensures var r1 := Resume(r, xs[0]);
            && Quiet(r1, xs[1..]) && RunBytes(r1, xs[1..]) == RunBytes(r, xs) && ParsingHeader(r.st.state)
            && Milestones(r1.trace) == Milestones(r.trace) && ResetsIn(r1.trace) == ResetsIn(r.trace)
            && ByteCount(r.st, m, xs[0]) == m
  {
    hide Resume, Milestones, ResetsIn, ByteCount;
    HeadByte(r, 1, xs[0]);
    HeadByte(r, m, xs[0]);
    RunGrows(Resume(r, xs[0]), xs[1..]);
    StaysEnded(Resume(r, xs[0]), xs[1..]);
    ResetIsTold(r, xs[0]);
  }

  lemma {:induction false} ResetIsTold(r: Run, ch: Byte)
    ensures ResetsIn(Resume(r, ch).trace) >= ResetsIn(r.trace)
    ensures Milestones(Resume(r, ch).trace) == Milestones(r.trace) ==>
              ResetsIn(Resume(r, ch).trace) == ResetsIn(r.trace)
    decreases Rank(r.st.state)
  {
    hide Dispatch, Step, Milestones, Rank, ResetsIn;
    var o := Dispatch(r.st, ch);
    StepCounts(r, o, ch);
    StepShape(r, o, ch);
    if o.ctl == Reexec {
      ReexecDescends(r.st, ch);
      ResetIsTold(Step(r, o, ch), ch);
      ResumeGrows(Step(r, o, ch), ch);
    }
  }

  lemma {:induction false} QuietState(r: Run, xs: Bytes)
    requires Quiet(r, xs)
    ensures InHead(RunBytes(r, xs).st.state) && ResetsIn(RunBytes(r, xs).trace) == ResetsIn(r.trace)
    ensures RunBytes(r, xs).ctl == Next
    decreases |xs|
  {
    hide Resume, Milestones, ResetsIn, ByteCount, Quiet, InHead;
    QuietHere(r, xs);
    if xs != [] {
      QuietFirst(r, 0, xs);
      QuietState(Resume(r, xs[0]), xs[1..]);
    }
  }

  /** Bytes of a head count, every one of them. */
  lemma {:induction false} QuietLevel(r: Run, n: nat, xs: Bytes)
    requires Quiet(r, xs)
    ensures Level(r, n, xs) == Peak(r, n, xs) == n + |xs|
    decreases |xs|
  {
    hide Resume, Milestones, ResetsIn, ByteCount, Quiet, InHead;
    if xs != [] {
      QuietFirst(r, n + 1, xs);
      QuietHere(r, xs);
      QuietLevel(Resume(r, xs[0]), n + 1, xs[1..]);
    }
  }

  lemma QuietHere(r: Run, xs: Bytes)
    requires Quiet(r, xs)
    ensures r.ctl == Next && InHead(r.st.state)
  {
    hide RunBytes, Milestones, InHead;
  }

  // The line end LF in a head.
  lemma FeedLevel(r: Run, n: nat)
    requires r.ctl == Next && InHead(r.st.state) && (Resume(r, LF).ctl == Next || Resume(r, LF).ctl == Exit)
    ensures Peak(r, n, [LF]) == n + 1
    ensures var r' := Resume(r, LF);
            Level(r, n, [LF]) == if ResetsIn(r'.trace) > ResetsIn(r.trace) then 0 else n + 1
  {
    hide Resume, Milestones, ResetsIn, ByteCount;
    HeadByte(r, n + 1, LF);
    ByteCountBound(r.st, n + 1, LF);
    var k := ByteCount(r.st, n + 1, LF);
    assert [LF][1..] == [];
    assert Level(Resume(r, LF), k, []) == k && Peak(Resume(r, LF), k, []) == k;
  }

  /** Lines of a head, the last of which ends with LF: they count, and set the counter back if that is told. */
  lemma LinesLevel(r: Run, n: nat, xs: Bytes)
    requires Quiet(r, xs) && (RunBytes(r, xs + [LF]).ctl == Next || RunBytes(r, xs + [LF]).ctl == Exit)
    ensures Peak(r, n, xs + [LF]) == n + |xs| + 1
    ensures var r' := RunBytes(r, xs + [LF]);
            Level(r, n, xs + [LF]) == if ResetsIn(r'.trace) > ResetsIn(r.trace) then 0 else n + |xs| + 1
  {
    hide Resume, Quiet, ResetsIn, RunBytes, Level, Peak, InHead;
    QuietLevel(r, n, xs);
    QuietState(r, xs);
    LevelAppend(r, n, xs, [LF]);
    RunAppend(r, xs, [LF]);
    RunOne(RunBytes(r, xs), LF);
    FeedLevel(RunBytes(r, xs), n + |xs|);
  }
}
