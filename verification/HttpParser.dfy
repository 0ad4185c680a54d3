/** http_parser_execute itself: a loop over the buffer with marks, inner loops and skips. */
module HttpParser {
  import opened HttpTypes
  import opened HttpDispatch
  import opened HttpInvariant
  import opened HttpRun
  import opened HttpSkips
  import opened HttpCounting

  // Below this length the 32-bit counter `nread` cannot wrap within one call.
  const MAX_BUFFER: nat := TWO_32 - 2 * MAX_HEADER_SIZE

  // A mark is a position in the buffer, or not set.
  datatype Pos = Unset | At(pos: nat)

  datatype Marks = Marks(url: Pos, status: Pos, field: Pos, value: Pos, body: Pos)

  const NO_MARKS := Marks(Unset, Unset, Unset, Unset, Unset)

  function Get(m: Marks, k: Kind): Pos {
    match k
    case UrlData => m.url case StatusData => m.status case FieldData => m.field
    case ValueData => m.value case BodyData => m.body
  }

  function Put(m: Marks, k: Kind, v: Pos): Marks {
    match k
    case UrlData => m.(url := v) case StatusData => m.(status := v) case FieldData => m.(field := v)
    case ValueData => m.(value := v) case BodyData => m.(body := v)
  }

  function Count(m: Marks): nat {
    (if m.url.At? then 1 else 0) + (if m.status.At? then 1 else 0) + (if m.field.At? then 1 else 0)
    + (if m.value.At? then 1 else 0) + (if m.body.At? then 1 else 0)
  }

  // The marks describe the marked bytes of a run that has reached position i of the buffer.
  ghost predicate MarksMatch(m: Marks, pend: Pend, data: Bytes, i: nat)
    requires i <= |data|
  {
    match pend
    case Closed => m == NO_MARKS
    case Open(k, x) =>
      Get(m, k).At? && m == Put(NO_MARKS, k, Get(m, k)) && Get(m, k).pos <= i && x == data[Get(m, k).pos..i]
  }

  function StartMarks(s: State): Marks {
    if s.HeaderField? then NO_MARKS.(field := At(0))
    else if s.HeaderValue? then NO_MARKS.(value := At(0))
    else if IsUrlState(s) then NO_MARKS.(url := At(0))
    else if s.ResStatus? then NO_MARKS.(status := At(0))
    else NO_MARKS
  }

  lemma StartMarksMatch(s: State, data: Bytes)
    ensures MarksMatch(StartMarks(s), StartPend(s), data, 0)
  {
  }

  lemma MarksGrow(m: Marks, pend: Pend, data: Bytes, i: nat)
    requires i < |data| && MarksMatch(m, pend, data, i)
    ensures MarksMatch(m, Grow(pend, data[i]), data, i + 1)
  {
    if pend.Open? {
      var q := Get(m, pend.kind).pos;
      assert data[q..i] + [data[i]] == data[q..i + 1];
    }
  }

  lemma MarkBody(m: Marks, pend: Pend, data: Bytes, i: nat)
    requires i <= |data| && MarksMatch(m, pend, data, i) && (pend.Open? ==> pend.kind == BodyData)
    ensures MarksMatch(if m.body.Unset? then m.(body := At(i)) else m, Opened(pend, BodyData), data, i)
  {
  }

  lemma MergedSnoc(es: seq<Event>, e: Event)
    ensures Merged(es + [e]) == Emit(Merged(es), e)
  {
    assert (es + [e])[..|es|] == es;
  }

  // ---------- runs over stretches of the buffer

  // What remains to be done by a run that has reached position i.
  function Rest(r: Run, data: Bytes, i: nat): Run
    requires i <= |data|
  {
    RunBytes(r, data[i..])
  }

  lemma RestSkip(r: Run, data: Bytes, i: nat, j: nat)
    requires i <= j <= |data|
    ensures Rest(r, data, i) == Rest(RunBytes(r, data[i..j]), data, j)
  {
    hide RunBytes;
    assert data[i..] == data[i..j] + data[j..];
    RunAppend(r, data[i..j], data[j..]);
  }

  lemma RestStep(r: Run, data: Bytes, i: nat)
    requires i < |data| && r.ctl == Next
    ensures Rest(r, data, i) == Rest(Resume(r, data[i]), data, i + 1)
  {
    hide Resume;
    assert data[i..][1..] == data[i + 1..];
  }

  lemma RunSnoc(r: Run, data: Bytes, p: nat, i: nat)
    requires p <= i < |data| && RunBytes(r, data[p..i]).ctl == Next
    ensures RunBytes(r, data[p..i + 1]) == Resume(RunBytes(r, data[p..i]), data[i])
  {
    hide RunBytes, Resume;
    assert data[p..i + 1] == data[p..i] + [data[i]];
    RunAppend(r, data[p..i], [data[i]]);
    RunOne(RunBytes(r, data[p..i]), data[i]);
  }

  lemma RestReexec(r: Run, data: Bytes, i: nat)
    requires i < |data| && r.ctl == Next
    requires Dispatch(r.st, data[i]).ctl == Reexec
    ensures Rest(r, data, i) == Rest(Step(r, Dispatch(r.st, data[i]), data[i]), data, i)
  {
    hide Dispatch, Apply;
    StepShape(r, Dispatch(r.st, data[i]), data[i]);
  }

  lemma RunSkip(r: Run, data: Bytes, p: nat, i: nat, j: nat)
    requires p <= i <= j <= |data|
    ensures RunBytes(r, data[p..j]) == RunBytes(RunBytes(r, data[p..i]), data[i..j])
  {
    hide RunBytes;
    assert data[p..j] == data[p..i] + data[i..j];
    RunAppend(r, data[p..i], data[i..j]);
  }

  lemma RestExtends(r: Run, data: Bytes, i: nat)
    requires i <= |data|
    ensures IsBeginning(r.trace, Rest(r, data, i).trace)
  {
    hide RunBytes, IsBeginning;
    RunExtends(r, data[i..]);
  }

  // A value has been read to place far, beyond the limit, and nobody looks at it any more.
  ghost predicate WentFar(data: Bytes, p: nat, far: nat, q: Run) {
    && p + MAX_HEADER_SIZE <= far < |data| && Scanned(q, data[p..far])
    && q.st.state.HeaderValue? && RunBytes(q, data[p..far]).st.hstate.General?
  }

  lemma GoesFar(data: Bytes, p: nat, i: nat, q: Run)
    requires p <= i && i + MAX_HEADER_SIZE < |data| && RunOk(q) && q.ctl == Next && q.st.state.HeaderValue?
    requires var r := RunBytes(q, data[p..i]);
             r.ctl == Next && r.st.state.HeaderValue? && r.st.hstate.General? && r.pend.Open?
    requires forall j :: p <= j < i + MAX_HEADER_SIZE ==> data[j] != CR && data[j] != LF
    ensures WentFar(data, p, i + MAX_HEADER_SIZE, q)
  {
    hide RunBytes, RunOk;
    var far := i + MAX_HEADER_SIZE;
    SkipGeneral(RunBytes(q, data[p..i]), data[i..far]);
    RunSkip(q, data, p, i, far);
  }

  lemma FarCounts(data: Bytes, p: nat, far: nat, q: Run, m: nat)
    requires WentFar(data, p, far, q) && 0 < m <= MAX_HEADER_SIZE
    ensures |data| - p > MAX_HEADER_SIZE && Counting(q, m, data[p..]) > MAX_HEADER_SIZE
  {
    hide RunBytes, Scanned, Counting;
    assert data[p..] == data[p..far] + data[far..];
    LoopBeyond(q, m, data[p..far], data[far..]);
  }

  // The loop has reached the end of the buffer.
  lemma EndCounts(data: Bytes, p: nat, q: Run, m: nat)
    requires p < |data| && Scanned(q, data[p..|data|]) && m <= MAX_HEADER_SIZE
    ensures var c, k := Counting(q, m, data[p..]), m + (|data| - p);
            if k > MAX_HEADER_SIZE then c > MAX_HEADER_SIZE
            else CountLeft(c, k, data, |data| - 1, Next, RunBytes(q, data[p..|data|]))
  {
    hide RunBytes, Scanned, Counting;
    assert data[p..] == data[p..|data|] + [] && data[|data|..] == [];
    LoopLeft(q, m, data[p..|data|], []);
  }

  // The loop over a value stops at a line end or at a byte that is refused.
  lemma StopRefused(r: Run, data: Bytes, i: nat)
    requires i < |data| && Stops(r, data[i..])
    ensures r.st.state.HeaderValue? && data[i] != CR && data[i] != LF ==> Dispatch(r.st, data[i]).ctl == Failed
  {
    hide Dispatch;
  }

  lemma RefusedDispatch(s: Parser, ch: Byte)
    requires s.state.HeaderValue? && ch != CR && ch != LF && ValueByte(s, ch).ctl == Failed
    ensures Dispatch(s, ch).ctl == Failed
  {
    hide ValueByte;
  }

  /** One pass at position i, in terms of what remains to be done. */
  lemma PlainPassed(data: Bytes, i: nat, r: Run)
    requires i < |data| && r.ctl == Next
    ensures var o := Dispatch(r.st, data[i]);
            var r' := Step(r, o, data[i]);
            && (o.ctl == Next ==> Rest(r', data, i + 1) == Rest(r, data, i))
            && (o.ctl == Reexec ==> Rest(r', data, i) == Rest(r, data, i))
            && (o.ctl != Next && o.ctl != Reexec ==> r' == Rest(r, data, i))
  {
    hide Dispatch, Apply;
    var o := Dispatch(r.st, data[i]);
    StepShape(r, o, data[i]);
    RestStep(r, data, i);
    if o.ctl == Reexec {
      RestReexec(r, data, i);
    }
  }

  lemma PlainExtends(data: Bytes, i: nat, r: Run)
    requires i < |data| && r.ctl == Next
    ensures IsBeginning(Step(r, Dispatch(r.st, data[i]), data[i]).trace, Rest(r, data, i).trace)
  {
    hide Dispatch, Step, Rest, IsBeginning;
    var r' := Step(r, Dispatch(r.st, data[i]), data[i]);
    PlainPassed(data, i, r);
    RestExtends(r', data, i + 1);
    RestExtends(r', data, i);
    SameBeginning(r'.trace);
  }

  // ---------- the parser object

  class HttpParser {
    var st: Parser
    var nread: nat
    ghost var events: seq<Event>

    ghost predicate Valid()
      reads this
    {
      st.errno == Ok ==> Inv(st) && nread <= MAX_HEADER_SIZE && (st.state.ChunkSizeStart? ==> nread == 0)
    }

    // The object is where run q is, at position i of the buffer.
    ghost predicate Sync(data: Bytes, i: nat, m: Marks, q: Run)
      requires i <= |data|
      reads this
    {
      && st == q.st && Merged(events) == q.trace && MarksMatch(m, q.pend, data, i)
      && RunOk(q) && q.ctl == Next && q.used == i && nread <= MAX_HEADER_SIZE
    }

    // What one pass through the switch, skips included, achieves.
    ghost predicate Passed(data: Bytes, p: nat, q: Run, p': nat, m': Marks, ctl: Control, q': Run)
      requires p < |data| && p' < |data|
      reads this
    {
      && st == q'.st && Merged(events) == q'.trace && ctl != AssertFailed
      && (ctl == Next ==> Sync(data, p' + 1, m', q') && (st.state.ChunkSizeStart? ==> nread == 0)
                          && Rest(q', data, p' + 1) == Rest(q, data, p))
      && (ctl == Reexec ==> Sync(data, p', m', q') && !st.state.ChunkSizeStart?
                            && Rest(q', data, p') == Rest(q, data, p)
                            && (p < p' || Rank(q'.st.state) < Rank(q.st.state)))
      && (ctl == Exit ==> !st.state.ChunkSizeStart? && nread <= MAX_HEADER_SIZE)
      && (ctl != Next && ctl != Reexec ==> q'.ctl == ctl && q' == Rest(q, data, p)
                                           && q'.used == if ctl == Exit then p' + 1 else p')
    }

    // The counter is where it has to be to hold c in the end, and beyond the limit if that is.
    ghost predicate CountOk(c: nat, data: Bytes, p': nat, ctl: Control, overflow: bool, q': Run)
      requires overflow || p' < |data|
      reads this`nread
    {
      if overflow then c > MAX_HEADER_SIZE else CountLeft(c, nread, data, p', ctl, q')
    }

    // The header has been found too large; the callbacks made so far are a beginning of those of the run whole.
    ghost predicate TooLarge(whole: Run)
      reads this`st, this`nread, this`events
    {
      st.errno == HeaderOverflow && nread > MAX_HEADER_SIZE && IsBeginning(Merged(events), whole.trace)
    }

    // A pass counts no more bytes than it moves over, and one more at the end of the buffer.
    ghost predicate Counted(was: nat, data: Bytes, p: nat, p': nat, ctl: Control)
      reads this`nread
    {
      nread <= was + (p' - p) + if p' + 1 == |data| && ctl != Reexec then 1 else 0
    }

    constructor Init(t: ParserType, answerNoBody: bool)
      ensures Valid() && events == [] && nread == 0 && st == Fresh(t, answerNoBody)
    {
      var start := match t case Request => StartReq case Response => StartRes case Both => StartReqOrRes;
      st := Parser(t, NO_FLAGS, start, General, 0, 0, 0, 0, 0, DELETE, Ok, false, answerNoBody);
      nread := 0;
      events := [];
    }

    // COUNT_HEADER_SIZE
    method CountHeaderSize(n: nat) returns (overflow: bool)
      modifies this`st, this`nread
      ensures nread == old(nread) + n
      ensures overflow == (nread > MAX_HEADER_SIZE)
      ensures st == if overflow then old(st).(errno := HeaderOverflow) else old(st)
    {
      nread := nread + n;
      overflow := nread > MAX_HEADER_SIZE;
      if overflow {
        st := st.(errno := HeaderOverflow);
      }
    }

    // CALLBACK_DATA up to, not including, position `end`.
    method CallbackData(data: Bytes, m: Marks, k: Kind, end: nat) returns (m': Marks)
      requires end <= |data| && (Get(m, k).At? ==> Get(m, k).pos <= end)
      modifies this`events
      ensures m' == Put(m, k, Unset)
      ensures events == if Get(m, k).At? then old(events) + [Data(k, data[Get(m, k).pos..end])] else old(events)
    {
      m' := m;
      match Get(m, k) {
        case Unset =>
        case At(pos) =>
          events := events + [Data(k, data[pos..end])];
          m' := Put(m, k, Unset);
      }
    }

    // The callbacks and marks of one pass at position p.
    method Perform(data: Bytes, p: nat, m: Marks, act: Act, ghost q: Run) returns (m': Marks)
      requires p < |data| && Merged(events) == q.trace && MarksMatch(m, q.pend, data, p)
      requires q.pend.Open? && (act.Mark? || act.Flush? || act.MarkFlush? || act.MarkFlushIncl?) ==>
               act.kind == q.pend.kind
      modifies this`events
      ensures Merged(events) == Apply(q, act, data[p]).trace
      ensures MarksMatch(m', Apply(q, act, data[p]).pend, data, p)
    {
      hide Emit, Merged;
      m' := m;
      ghost var es := events;
      match act {
        case NoAct =>
        case Mark(k) =>
          if Get(m, k).Unset? { m' := Put(m, k, At(p)); }
        case Flush(k) =>
          m' := CallbackData(data, m, k, p);
          if q.pend.Open? { MergedSnoc(es, Data(k, q.pend.bytes)); }
        case MarkFlush(k) =>
          if Get(m, k).Unset? { m' := Put(m, k, At(p)); }
          assert MarksMatch(m', Opened(q.pend, k), data, p);
          MergedSnoc(es, Data(k, Opened(q.pend, k).bytes));
          m' := CallbackData(data, m', k, p);
        case MarkFlushIncl(k) =>
          if Get(m, k).Unset? { m' := Put(m, k, At(p)); }
          assert MarksMatch(m', Opened(q.pend, k), data, p);
          MarksGrow(m', Opened(q.pend, k), data, p);
          MergedSnoc(es, Data(k, Opened(q.pend, k).bytes + [data[p]]));
          m' := CallbackData(data, m', k, p + 1);
        case Notify(e) =>
          MergedSnoc(es, e);
          events := events + [e];
      }
    }

    // A switch case without inner loop or skip.
    method Plain(data: Bytes, p: nat, m: Marks, ghost q: Run) returns (m': Marks, ctl: Control, ghost q': Run)
      requires p < |data| && Sync(data, p, m, q)
      requires st.state.ChunkSizeStart? ==> nread == 1
      modifies this
      ensures ctl == Dispatch(q.st, data[p]).ctl && ctl != AssertFailed
      ensures q' == Step(q, Dispatch(q.st, data[p]), data[p])
      ensures ctl == Next ==> Sync(data, p + 1, m', q') && (st.state.ChunkSizeStart? ==> nread == 0)
      ensures ctl == Reexec ==> Sync(data, p, m', q')
      ensures ctl == Reexec || ctl == Exit ==> !st.state.ChunkSizeStart?
      ensures ctl == Next && st.state.ChunkSizeStart? ==> q.st.state.HeadersDone? || q.st.state.ChunkDataDone?
      ensures ctl == Reexec ==> Rank(q'.st.state) < Rank(q.st.state)
      ensures st == q'.st && Merged(events) == q'.trace
      ensures q'.used == if ctl == Next || ctl == Exit then p + 1 else p
      ensures ctl == Next || ctl == Reexec || ctl == q'.ctl
      ensures nread == PassCount(q.st, old(nread), data[p]) <= old(nread)
    {
      hide Dispatch, Inv, Emit, Merged, OpenToken;
      var ch := data[p];
      var o := Dispatch(st, ch);
      StepOk(q, ch);
      ActOfToken(q, o);
      var before := st.state;
      assert before.ChunkSizeStart? ==> nread == 1;
      st := o.st;
      m' := Perform(data, p, m, o.act, q);
      if o.ctl != Failed && (before.HeadersDone? || before.ChunkSizeAlmostDone? || before.ChunkDataDone?) {
        nread := 0;
      }
      ctl := o.ctl;
      q' := Step(q, o, ch);
      if ctl == Next {
        MarksGrow(m', Apply(q, o.act, ch).pend, data, p);
      } else if ctl == Reexec {
        ReexecDescends(q.st, ch);
      }
    }

    // The inner loop over the characters of a header name.
    method ScanField(data: Bytes, p: nat, m: Marks, ghost q: Run) returns (p': nat, ghost q': Run)
      requires p < |data| && Sync(data, p, m, q) && st.state.HeaderField?
      modifies this`st
      ensures p <= p' <= |data| && Sync(data, p', m, q') && st.state.HeaderField?
      ensures q' == RunBytes(q, data[p..p']) && Rest(q', data, p') == Rest(q, data, p)
      ensures Scanned(q, data[p..p']) && Stops(q', data[p'..])
    {
      hide RunBytes, Resume, Inv, Emit, Merged, OpenToken, NameStep, TokenChar, IsNameState, Dispatch, RunOk;
      p', q' := p, q;
      assert data[p..p] == [];
      RunNothing(q);
      while p' < |data| && TokenChar(data[p']) != NUL
        invariant p <= p' <= |data| && Sync(data, p', m, q') && st.state.HeaderField?
        invariant q' == RunBytes(q, data[p..p'])
        invariant forall j :: p <= j < p' ==> TokenChar(data[j]) != NUL
      {
        FieldByte(q', data[p']);
        RunSnoc(q, data, p, p');
        MarksGrow(m, q'.pend, data, p');
        st := NameByte(st, data[p']);
        q' := Resume(q', data[p']);
        p' := p' + 1;
      }
      RestSkip(q, data, p, p');
    }

    // The inner loop over a header value, with its local copy `h` of the header state. It stops at CR,
    // at LF, at a byte that is refused, or at the end of the buffer. `passed` tells that the skip went
    // over the search limit, to place `far`, so that the header is too large.
    method ScanValue(data: Bytes, p: nat, m: Marks, ghost q: Run)
      returns (p': nat, ghost q': Run, ghost passed: bool, ghost far: nat)
      requires p < |data| && Sync(data, p, m, q) && st.state.HeaderValue?
      modifies this`st
      ensures p <= p' <= |data|
      ensures passed ==> p' == |data| && WentFar(data, p, far, q)
      ensures !passed ==> Sync(data, p', m, q') && st.state.HeaderValue? && Rest(q', data, p') == Rest(q, data, p)
      ensures !passed ==> q' == RunBytes(q, data[p..p']) && Scanned(q, data[p..p']) && Stops(q', data[p'..])
    {
      hide RunBytes, Resume, Inv, Emit, Merged, OpenToken, ValueByte, Dispatch, RunOk, WentFar;
      p', q', passed, far := p, q, false, p;
      ValueIsOpen(q);
      assert data[p..p] == [];
      RunNothing(q);
      var h := st.hstate;
      while p' < |data| && data[p'] != CR && data[p'] != LF
        invariant p <= p' <= |data|
        invariant passed ==> p' == |data| && WentFar(data, p, far, q)
        invariant !passed ==>
            && st.(hstate := h) == q'.st && q'.st.state.HeaderValue? && Merged(events) == q'.trace
            && MarksMatch(m, q'.pend, data, p') && q'.pend.Open? && RunOk(q') && q'.ctl == Next && q'.used == p'
            && q' == RunBytes(q, data[p..p']) && forall j :: p <= j < p' ==> data[j] != CR && data[j] != LF
        decreases |data| - p'
      {
        if h.General? {
          var next;
          ghost var beyond;
          next, beyond := SkipToLineEnd(data, p');
          if beyond {
            passed, far := true, p' + MAX_HEADER_SIZE;
            GoesFar(data, p, p', q);
          } else {
            SkipGeneral(q', data[p'..next]);
            RunOkAll(q', data[p'..next]);
            RunSkip(q, data, p, p', next);
            MarksSkip(m, q'.pend, data, p', next);
            q' := RunBytes(q', data[p'..next]);
          }
          p' := next;
        } else {
          var o := ValueByte(st.(hstate := h), data[p']);
          if o.ctl == Failed {
            RefusedDispatch(q'.st, data[p']);
            break;
          }
          ValueByteRun(q', data[p']);
          RunSnoc(q, data, p, p');
          MarksGrow(m, q'.pend, data, p');
          h := o.st.hstate;
          st := o.st.(hstate := st.hstate);
          q' := Resume(q', data[p']);
          p' := p' + 1;
        }
      }
      st := st.(hstate := h);
      if !passed {
        RestSkip(q, data, p, p');
      }
    }

    // A header name or value, with the bytes the loop over it consumes; one more pass deals with the
    // byte it stops at.
    method Header(data: Bytes, p: nat, m: Marks, ghost q: Run)
      returns (p': nat, m': Marks, ctl: Control, overflow: bool, ghost q': Run)
      requires p < |data| < MAX_BUFFER && Sync(data, p, m, q)
      requires (st.state.HeaderField? || st.state.HeaderValue?) && nread > 0
      modifies this
      ensures p <= p' <= |data| && (!overflow ==> p' < |data|) && Counted(old(nread), data, p, p', ctl)
      ensures overflow ==> TooLarge(Rest(q, data, p))
      ensures !overflow ==> Passed(data, p, q, p', m', ctl, q')
      ensures CountOk(Counting(q, old(nread), data[p..]), data, p', ctl, overflow, q')
    {
      hide RunBytes, Resume, Inv, Emit, Merged, OpenToken, Dispatch, Step, RunOk, Counter, Counting, CountLeft,
           Scanned, Stops, WentFar, TokenChar, MarksMatch, Rest, HttpParser.Counted, HttpParser.Passed, IsBeginning;
      var isField := st.state.HeaderField?;
      ghost var r, passed, far := q, false, p;
      if isField {
        p', r := ScanField(data, p, m, q);
      } else {
        p', r, passed, far := ScanValue(data, p, m, q);
      }
      if p' == |data| {
        m', ctl, q' := m, Next, r;
        p', overflow := LoopAtEnd(data, p, m, q, r, passed, far);
      } else {
        m', ctl, overflow, q' := LoopStopped(data, p, p', m, q, r, isField);
      }
    }

    // The loop has come to the end of the buffer.
    method LoopAtEnd(data: Bytes, p: nat, m: Marks, ghost q: Run, ghost r: Run, ghost passed: bool, ghost far: nat)
      returns (p': nat, overflow: bool)
      requires p < |data| && 0 < nread <= MAX_HEADER_SIZE && Merged(events) == q.trace
      requires passed ==> WentFar(data, p, far, q)
      requires !passed ==> Sync(data, |data|, m, r) && Scans(st.state) && Rest(r, data, |data|) == Rest(q, data, p)
      requires !passed ==> r == RunBytes(q, data[p..|data|]) && Scanned(q, data[p..|data|])
      modifies this`st, this`nread
      ensures p' == (if overflow then |data| else |data| - 1) && Counted(old(nread), data, p, p', Next)
      ensures overflow ==> TooLarge(Rest(q, data, p))
      ensures !overflow ==> Passed(data, p, q, p', m, Next, r)
      ensures CountOk(Counting(q, old(nread), data[p..]), data, p', Next, overflow, r)
    {
      hide RunBytes, Inv, Emit, Merged, OpenToken, RunOk, Counter, Counting, Scanned, WentFar, MarksMatch, Rest,
           IsBeginning;
      if passed {
        FarCounts(data, p, far, q, nread);
      } else {
        EndCounts(data, p, q, nread);
      }
      RestExtends(q, data, p);
      overflow := CountHeaderSize(|data| - p);
      p' := if overflow then |data| else |data| - 1;
    }

    // The loop has stopped at a byte of the buffer.
    method LoopStopped(data: Bytes, p: nat, p': nat, m: Marks, ghost q: Run, ghost r: Run, isField: bool)
      returns (m': Marks, ctl: Control, overflow: bool, ghost q': Run)
      requires p <= p' < |data| && Sync(data, p', m, r) && isField == st.state.HeaderField?
      requires Scans(st.state) && q.st.state == r.st.state && Rest(r, data, p') == Rest(q, data, p)
      requires r == RunBytes(q, data[p..p']) && Scanned(q, data[p..p']) && Stops(r, data[p'..])
      modifies this
      ensures Counted(old(nread), data, p, p', ctl)
      ensures overflow ==> TooLarge(Rest(q, data, p))
      ensures !overflow ==> Passed(data, p, q, p', m', ctl, q')
      ensures CountOk(Counting(q, old(nread), data[p..]), data, p', ctl, overflow, q')
    {
      hide RunBytes, Resume, Inv, Emit, Merged, OpenToken, Dispatch, Step, RunOk, Counter, Counting, Scanned, Stops,
           TokenChar, MarksMatch, Rest, PassCount, IsBeginning;
      LoopStops(q, nread, data, p, p');
      StopRefused(r, data, p');
      PlainPassed(data, p', r);
      PlainExtends(data, p', r);
      RestExtends(r, data, p');
      m', ctl, overflow, q' := m, Next, false, r;
      if !isField && data[p'] == CR {
        m', ctl, q' := Plain(data, p', m, r);
        overflow := CountHeaderSize(p' - p);
      } else {
        if isField || data[p'] == LF {
          overflow := CountHeaderSize(p' - p);
        }
        if !overflow {
          m', ctl, q' := Plain(data, p', m, r);
        }
      }
    }

    // Body bytes, taken from the buffer in one go. The last byte of an identity body is looked at again
    // to end the message.
    method Body(data: Bytes, p: nat, m: Marks, ghost q: Run)
      returns (p': nat, m': Marks, ctl: Control, ghost q': Run)
      requires p < |data| && Sync(data, p, m, q)
      requires st.state.BodyIdentity? || st.state.ChunkData?
      modifies this`st, this`events
      ensures p <= p' < |data| && Passed(data, p, q, p', m', ctl, q')
      ensures CountOk(Counting(q, nread, data[p..]), data, p', ctl, false, q')
    {
      hide RunBytes, Resume, Dispatch, Step, Rest, Inv, Emit, Merged, OpenToken, RunOk, CountDown, MarksMatch, Opened,
           Counting, Counter;
      BodyIsOpen(q);
      var toRead := if st.contentLength < |data| - p then st.contentLength else |data| - p;
      m' := if m.body.Unset? then m.(body := At(p)) else m;
      MarkBody(m, q.pend, data, p);
      p' := p + (toRead - 1);
      if st.contentLength == toRead && st.state.BodyIdentity? {
        ctl := Reexec;
        m', q' := CompleteIdentity(data, p, p', m', q);
      } else {
        ctl := Next;
        q' := CountBody(data, p, p', m', q);
      }
    }

    // Body bytes that do not end the message.
    method CountBody(data: Bytes, p: nat, p': nat, m: Marks, ghost q: Run) returns (ghost q': Run)
      requires p <= p' < |data| && Merged(events) == q.trace && st == q.st
      requires RunOk(q) && InBody(q) && q.used == p && nread <= MAX_HEADER_SIZE
      requires p' + 1 - p < st.contentLength || (p' + 1 - p == st.contentLength && st.state.ChunkData?)
      requires (q.pend.Open? ==> q.pend.kind == BodyData) && MarksMatch(m, Opened(q.pend, BodyData), data, p)
      modifies this`st
      ensures Sync(data, p' + 1, m, q') && !st.state.ChunkSizeStart? && Rest(q', data, p' + 1) == Rest(q, data, p)
      ensures CountOk(Counting(q, nread, data[p..]), data, p', Next, false, q')
    {
      hide RunBytes, Resume, Dispatch, Step, Rest, Inv, Emit, Merged, OpenToken, RunOk, CountDown, MarksMatch, Opened,
           Counting, Counter;
      CountDownState(q.st, p' + 1 - p);
      BodyLeft(data, p, p' + 1, q, nread);
      q' := TakeBody(data, p, p' + 1, m, q);
      st := st.(contentLength := st.contentLength - (p' + 1 - p));
      if st.contentLength == 0 {
        st := st.(state := ChunkDataAlmostDone);
      }
    }

    method CompleteIdentity(data: Bytes, p: nat, p': nat, m: Marks, ghost q: Run) returns (m': Marks, ghost q': Run)
      requires p <= p' < |data| && Merged(events) == q.trace && st == q.st
      requires RunOk(q) && q.ctl == Next && q.used == p && nread <= MAX_HEADER_SIZE
      requires st.state.BodyIdentity? && st.contentLength == p' + 1 - p < ULLONG_MAX
      requires (q.pend.Open? ==> q.pend.kind == BodyData) && MarksMatch(m, Opened(q.pend, BodyData), data, p)
      modifies this`st, this`events
      ensures Sync(data, p', m', q') && st.state == MessageDone && Rest(q', data, p') == Rest(q, data, p)
      ensures CountOk(Counting(q, nread, data[p..]), data, p', Reexec, false, q')
    {
      hide RunBytes, Resume, Dispatch, Step, Rest, Inv, Emit, Merged, OpenToken, RunOk, Counting, Counter;
      q' := FinishIdentity(data, p, p', m, q, nread);
      st := st.(contentLength := st.contentLength - (p' + 1 - p));
      st := st.(state := MessageDone);
      MergedSnoc(events, Data(BodyData, data[m.body.pos..p' + 1]));
      m' := CallbackData(data, m, BodyData, p' + 1);
    }

    // A body that ends with the input takes the whole buffer.
    method BodyEof(data: Bytes, p: nat, m: Marks, ghost q: Run)
      returns (p': nat, m': Marks, ctl: Control, ghost q': Run)
      requires p < |data| && Sync(data, p, m, q) && st.state.BodyIdentityEof?
      modifies this`st, this`events
      ensures p <= p' < |data| && Passed(data, p, q, p', m', ctl, q')
      ensures CountOk(Counting(q, nread, data[p..]), data, p', ctl, false, q')
    {
      hide RunBytes, Resume, Inv, Emit, Merged, OpenToken, Dispatch, Counter, Counting, InBody, Rest;
      BodyIsOpen(q);
      m' := if m.body.Unset? then m.(body := At(p)) else m;
      assert MarksMatch(m', Opened(q.pend, BodyData), data, p);
      p' := |data| - 1;
      ctl := Next;
      SkipEof(q, data[p..]);
      RunOkAll(q, data[p..]);
      RestSkip(q, data, p, |data|);
      assert data[p..] == data[p..|data|];
      MarksSkip(m', Opened(q.pend, BodyData), data, p, |data|);
      q' := RunBytes(q, data[p..]);
      EofLeft(data, p, q, nread);
    }

    // One pass through the switch.
    method Pass(data: Bytes, p: nat, m: Marks, ghost q: Run)
      returns (p': nat, m': Marks, ctl: Control, overflow: bool, ghost q': Run)
      requires p < |data| < MAX_BUFFER && Sync(data, p, m, q)
      requires (st.state.ChunkSizeStart? ==> nread == 1) && (Scans(st.state) ==> nread > 0)
      modifies this
      ensures p <= p' <= |data| && (!overflow ==> p' < |data|) && Counted(old(nread), data, p, p', ctl)
      ensures overflow ==> TooLarge(Rest(q, data, p))
      ensures !overflow ==> Passed(data, p, q, p', m', ctl, q')
      ensures CountOk(Counting(q, old(nread), data[p..]), data, p', ctl, overflow, q')
    {
      hide RunBytes, Resume, Inv, Emit, Merged, OpenToken, Dispatch, Step, Rank, MarksMatch, Rest, Counting, CountLeft,
           PassCount, IsBeginning;
      p', overflow := p, false;
      if st.state.HeaderField? || st.state.HeaderValue? {
        p', m', ctl, overflow, q' := Header(data, p, m, q);
      } else if st.state.BodyIdentity? || st.state.ChunkData? {
        p', m', ctl, q' := Body(data, p, m, q);
      } else if st.state.BodyIdentityEof? {
        p', m', ctl, q' := BodyEof(data, p, m, q);
      } else {
        PlainLeft(data, p, q, nread);
        m', ctl, q' := Plain(data, p, m, q);
        PlainPassed(data, p, q);
      }
    }

    // Passes through the switch until a byte is consumed, refused, or ends the call.
    method Passes(data: Bytes, p: nat, m: Marks, ghost q: Run)
      returns (p': nat, m': Marks, ctl: Control, overflow: bool, ghost q': Run)
      requires p < |data| < MAX_BUFFER && Sync(data, p, m, q)
      requires (st.state.ChunkSizeStart? ==> nread == 1) && (Scans(st.state) ==> nread > 0)
      modifies this
      ensures p <= p' <= |data| && (!overflow ==> p' < |data|) && Counted(old(nread), data, p, p', ctl)
      ensures overflow ==> TooLarge(Rest(q, data, p))
      ensures !overflow ==> ctl != Reexec && Passed(data, p, q, p', m', ctl, q')
      ensures CountOk(Counting(q, old(nread), data[p..]), data, p', ctl, overflow, q')
    {
      hide RunBytes, Resume, Inv, Emit, Merged, OpenToken, Dispatch, Step, Rank, MarksMatch, Rest, Counting, Counter,
           IsBeginning;
      ghost var c := Counting(q, nread, data[p..]);
      p', m', ctl, overflow, q' := p, m, Reexec, false, q;
      while !overflow && ctl == Reexec
        invariant p <= p' <= |data| && (!overflow ==> p' < |data|) && Counted(old(nread), data, p, p', ctl)
        invariant overflow ==> TooLarge(Rest(q, data, p))
        invariant !overflow && ctl == Reexec ==>
            && Sync(data, p', m', q') && Rest(q', data, p') == Rest(q, data, p)
            && (st.state.ChunkSizeStart? ==> nread == 1) && (Scans(st.state) ==> nread > 0)
            && Counting(q', nread, data[p'..]) == c
        invariant !overflow && ctl != Reexec ==> Passed(data, p, q, p', m', ctl, q')
        invariant overflow || ctl != Reexec ==> CountOk(c, data, p', ctl, overflow, q')
        decreases |data| - p', !overflow && ctl == Reexec, Rank(st.state)
      {
        p', m', ctl, overflow, q' := Pass(data, p', m', q');
      }
    }

    // The empty buffer: the input ends here.
    method EndOfInput() returns (n: nat)
      requires Valid() && st.errno == Ok
      modifies this`st, this`events
      ensures Valid() && (n == 0 || (n == 1 && st.errno == InvalidEofState))
      ensures var e := Exec(old(st), Merged(old(events)), []);
              st == e.st && n == e.used && Merged(events) == e.trace
    {
      hide RunBytes, Inv, Emit, Merged;
      n := 0;
      match st.state {
        case BodyIdentityEof =>
          MergedSnoc(events, MessageComplete);
          events := events + [MessageComplete];
        case Dead =>
        case StartReqOrRes =>
        case StartRes =>
        case StartReq =>
        case _ =>
          st := st.(errno := InvalidEofState);
          n := 1;
      }
    }

    // The callbacks for marks left over at the end of the buffer.
    method FlushMarks(data: Bytes, m: Marks, ghost q: Run)
      requires Sync(data, |data|, m, q)
      modifies this`events
      ensures Merged(events) == Close(q.trace, q.pend)
    {
      hide Emit, Merged, Inv, OpenToken;
      ghost var es := events;
      var m' := m;
      if q.pend.Open? {
        MergedSnoc(es, Data(q.pend.kind, q.pend.bytes));
      }
      m' := CallbackData(data, m', FieldData, |data|);
      m' := CallbackData(data, m', ValueData, |data|);
      m' := CallbackData(data, m', UrlData, |data|);
      m' := CallbackData(data, m', BodyData, |data|);
      m' := CallbackData(data, m', StatusData, |data|);
    }

    // The call ends early, returning n: as the run whole does, or because the header is too large, which it is
    // if and only if the counter, c in the end, goes beyond the limit.
    ghost predicate Ended(whole: Run, c: nat, n: nat)
      reads this
    {
      && Valid()
      && if st.errno == HeaderOverflow then c > MAX_HEADER_SIZE && IsBeginning(Merged(events), whole.trace)
         else st == whole.st && Merged(events) == whole.trace && n == whole.used && whole.ctl != Next
              && nread == c <= MAX_HEADER_SIZE
    }

    // One round of the loop over the buffer.
    method Round(data: Bytes, p: nat, m: Marks, ghost q: Run)
      returns (p': nat, m': Marks, ended: bool, n: nat, ghost q': Run)
      requires p < |data| < MAX_BUFFER && Sync(data, p, m, q) && RunOk(Rest(q, data, p))
      requires st.state.ChunkSizeStart? ==> nread == 0
      modifies this
      ensures p < p' <= |data| && nread <= old(nread) + (|data| - p) + 1
      ensures !ended ==> nread <= old(nread) + (p' - p) + if p' == |data| then 1 else 0
      ensures !ended ==> Sync(data, p', m', q') && Rest(q', data, p') == Rest(q, data, p)
      ensures !ended ==> Counter(q', nread, data[p'..]) == Counter(q, old(nread), data[p..])
      ensures !ended && st.state.ChunkSizeStart? ==> nread == 0
      ensures ended ==> n <= |data| && Ended(Rest(q, data, p), Counter(q, old(nread), data[p..]), n)
    {
      hide RunBytes, Resume, Inv, Emit, Merged, OpenToken, Dispatch, Step, Rank, MarksMatch, Rest, Counting,
           IsBeginning;
      p', m', ended, n, q' := p + 1, m, true, p, q;
      RestExtends(q, data, p);
      if ParsingHeader(st.state) {
        var tooLarge := CountHeaderSize(1);
        if tooLarge {
          return;
        }
      }
      var last, ctl, overflow;
      last, m', ctl, overflow, q' := Passes(data, p, m, q);
      n := if !overflow && ctl == Exit then last + 1 else last;
      if !overflow {
        p', ended := last + 1, ctl != Next;
        if ended {
          ExitValid(Rest(q, data, p));
        }
      }
    }

    lemma StartsInSync(data: Bytes)
      requires Valid() && st.errno == Ok
      ensures var q := Start(st, Merged(events));
              && Sync(data, 0, StartMarks(st.state), q) && Rest(q, data, 0) == RunBytes(q, data)
              && RunOk(RunBytes(q, data))
    {
      hide RunBytes, Inv, Merged, OpenToken, MarksMatch;
      StartMarksMatch(st.state, data);
      StartOk(st, Merged(events));
      RunOkAll(Start(st, Merged(events)), data);
      assert data[0..] == data;
    }

    lemma EndsInSync(data: Bytes, m: Marks, q: Run)
      requires Sync(data, |data|, m, q) && (st.state.ChunkSizeStart? ==> nread == 0)
      ensures Rest(q, data, |data|) == q && q.ctl == Next && q.used == |data| && st == q.st && Valid() && Count(m) <= 1
      ensures st.errno == Ok
    {
      hide Inv, Merged, OpenToken, MarksMatch;
      assert data[|data|..] == [];
      RunNothing(q);
      AtMostOneMark(m, q.pend, data, |data|);
    }

    /** http_parser_execute: consumes a buffer, the empty one meaning end of input. Unless the header is
        found too large, the call does to the parser, to the callbacks and in its return value what
        dispatching the bytes one by one does. It is found so if and only if the counter of header bytes
        goes beyond the limit; the callbacks made until then are a beginning of those without a limit. */
    method Execute(data: Bytes) returns (n: nat)
      requires Valid() && |data| < MAX_BUFFER
      modifies this
      ensures Valid()
      ensures n <= |data| || (data == [] && n == 1 && st.errno == InvalidEofState)
      ensures nread <= old(nread) + |data| + 1
      ensures old(st).errno == Ok ==>
                var c := Counter(Start(old(st), Merged(old(events))), old(nread), data);
                && (st.errno == HeaderOverflow <==> c > MAX_HEADER_SIZE)
                && (st.errno != HeaderOverflow ==> nread == c)
      ensures var e := Exec(old(st), Merged(old(events)), data);
              if old(st).errno == Ok && st.errno == HeaderOverflow then IsBeginning(Merged(events), e.trace)
              else st == e.st && n == e.used && Merged(events) == e.trace
    {
      hide RunBytes, Inv, Emit, Merged, HttpParser.Sync, Rest, Counter, IsBeginning;
      if st.errno != Ok {
        return 0;
      }
      if |data| == 0 {
        CounterNothing(Start(st, Merged(events)), nread);
        n := EndOfInput();
        return;
      }
      var m := StartMarks(st.state);
      ghost var q := Start(st, Merged(events));
      ghost var whole, c := RunBytes(q, data), Counter(q, nread, data);
      assert data[0..] == data;
      StartsInSync(data);
      ChunkStart();
      var p := 0;
      while p < |data|
        invariant p <= |data| && Sync(data, p, m, q) && Rest(q, data, p) == whole
        invariant Counter(q, nread, data[p..]) == c
        invariant st.state.ChunkSizeStart? ==> nread == 0
        invariant nread <= old(nread) + p + if p == |data| then 1 else 0
      {
        var ended;
        p, m, ended, n, q := Round(data, p, m, q);
        if ended {
          if st.errno == HeaderOverflow {
            ExecExtends(old(st), Merged(old(events)), data);
            BeginningOf(Merged(events), whole.trace, Exec(old(st), Merged(old(events)), data).trace);
          }
          return;
        }
      }
      EndsInSync(data, m, q);
      assert data[p..] == [];
      CounterNothing(q, nread);
      assert Count(m) <= 1;
      FlushMarks(data, m, q);
      return |data|;
    }

    lemma ChunkStart()
      requires Valid() && st.errno == Ok
      ensures st.state.ChunkSizeStart? ==> nread == 0
    {
    }
  }

  lemma AtMostOneMark(m: Marks, pend: Pend, data: Bytes, i: nat)
    requires i <= |data| && MarksMatch(m, pend, data, i)
    ensures Count(m) <= 1
  {
  }

  /** When a call returns early the parser is at rest or has reported an error. */
  lemma ExitValid(r: Run)
    requires RunOk(r) && r.ctl != Next
    ensures r.st.errno == Ok ==> Inv(r.st) && r.ctl == Exit && r.pend == Closed
    ensures r.st.errno != HeaderOverflow
  {
    hide Inv, OpenToken;
  }

  lemma BodyIsOpen(r: Run)
    requires RunOk(r) && r.ctl == Next
    requires r.st.state.BodyIdentity? || r.st.state.ChunkData? || r.st.state.BodyIdentityEof?
    ensures r.pend.Open? ==> r.pend.kind == BodyData
    ensures r.st.state.BodyIdentityEof? || InBody(r)
  {
  }

  /** The bytes before p' belong to a body or a chunk that does not end the message. */
  lemma TakeBody(data: Bytes, p: nat, p': nat, m: Marks, q: Run) returns (q': Run)
    requires p < p' <= |data| && RunOk(q) && InBody(q) && q.used == p
    requires p' - p < q.st.contentLength || (p' - p == q.st.contentLength && q.st.state == ChunkData)
    requires (q.pend.Open? ==> q.pend.kind == BodyData) && MarksMatch(m, Opened(q.pend, BodyData), data, p)
    ensures q' == RunBytes(q, data[p..p'])
    ensures q'.st == CountDown(q.st, p' - p) && q'.trace == q.trace && q'.ctl == Next && q'.used == p'
    ensures RunOk(q') && Rest(q', data, p') == Rest(q, data, p) && MarksMatch(m, q'.pend, data, p')
  {
    hide RunBytes, Resume, Inv, Emit, OpenToken, Dispatch;
    SkipBody(q, data[p..p']);
    RunOkAll(q, data[p..p']);
    RestSkip(q, data, p, p');
    MarksSkip(m, Opened(q.pend, BodyData), data, p, p');
    q' := RunBytes(q, data[p..p']);
  }

  /** The bytes p..p' complete an identity body. */
  lemma FinishIdentity(data: Bytes, p: nat, p': nat, m: Marks, q: Run, n: nat) returns (q': Run)
    requires p <= p' < |data| && RunOk(q) && q.ctl == Next && q.used == p
    requires q.st.state.BodyIdentity? && q.st.contentLength == p' + 1 - p < ULLONG_MAX && n <= MAX_HEADER_SIZE
    requires (q.pend.Open? ==> q.pend.kind == BodyData) && MarksMatch(m, Opened(q.pend, BodyData), data, p)
    ensures m.body.At? && m.body.pos <= p'
    ensures Counting(q', n, data[p'..]) == Counting(q, n, data[p..])
    ensures q' == q.(st := q.st.(contentLength := 0, state := MessageDone), pend := Closed, used := p',
                     trace := Emit(q.trace, Data(BodyData, data[m.body.pos..p' + 1])))
    ensures RunOk(q') && Rest(q', data, p') == Rest(q, data, p)
  {
    hide RunBytes, Resume, Inv, Emit, OpenToken, Dispatch, Counting, Counter;
    var r := q;
    assert data[p..] == data[p..p'] + data[p'..];
    if p < p' {
      BodyUncounted(q, n, data[p..p'], data[p'..]);
      SkipBody(q, data[p..p']);
      RunOkAll(q, data[p..p']);
      RestSkip(q, data, p, p');
      r := RunBytes(q, data[p..p']);
    }
    MarksSkip(m, Opened(q.pend, BodyData), data, p, p');
    MarksGrow(m, Opened(r.pend, BodyData), data, p');
    LastBodyByte(r, data[p']);
    StepOk(r, data[p']);
    RestReexec(r, data, p');
    NotCounted(q, n, data[p..]);
    NotCounted(r, n, data[p'..]);
    PlainLeft(data, p', r, n);
    q' := Step(r, Dispatch(r.st, data[p']), data[p']);
  }

  lemma BodyLeft(data: Bytes, p: nat, p': nat, q: Run, n: nat)
    requires p < p' <= |data| && InBody(q) && n <= MAX_HEADER_SIZE
    requires p' - p < q.st.contentLength || (p' - p == q.st.contentLength && q.st.state == ChunkData)
    ensures Counter(RunBytes(q, data[p..p']), n, data[p'..]) == Counting(q, n, data[p..])
  {
    hide RunBytes, Counter, Counting;
    assert data[p..] == data[p..p'] + data[p'..];
    BodyUncounted(q, n, data[p..p'], data[p'..]);
    NotCounted(q, n, data[p..]);
  }

  lemma EofLeft(data: Bytes, p: nat, q: Run, n: nat)
    requires p < |data| && q.ctl == Next && q.st.state.BodyIdentityEof? && n <= MAX_HEADER_SIZE
    ensures CountLeft(Counting(q, n, data[p..]), n, data, |data| - 1, Next, RunBytes(q, data[p..]))
  {
    hide Counter, Counting, RunBytes;
    EofUncounted(q, n, data[p..]);
    NotCounted(q, n, data[p..]);
    assert data[|data|..] == [];
    CounterNothing(RunBytes(q, data[p..]), n);
  }

  // A pass without inner loop or skip.
  lemma PlainLeft(data: Bytes, p: nat, q: Run, n: nat)
    requires p < |data| && q.ctl == Next && !Scans(q.st.state) && n <= MAX_HEADER_SIZE
    ensures var o := Dispatch(q.st, data[p]);
            CountLeft(Counting(q, n, data[p..]), PassCount(q.st, n, data[p]), data, p, o.ctl, Step(q, o, data[p]))
  {
    hide Dispatch, Step, Counting, CountLeft, PassCount, GoesOver;
    NoLoop(q.st, data[p]);
    PassLeft(q, n, data, p);
  }

  /** The last byte of an identity body is handed out together with those before it. */
  lemma LastBodyByte(r: Run, ch: Byte)
    requires r.ctl == Next && r.st.state.BodyIdentity? && r.st.contentLength == 1
    requires r.pend.Open? ==> r.pend.kind == BodyData
    ensures Dispatch(r.st, ch) ==
            Outcome(r.st.(contentLength := 0, state := MessageDone), MarkFlushIncl(BodyData), Reexec)
  {
  }

  /** The bytes that a skip passes over are added to the open token. */
  lemma MarksSkip(m: Marks, pend: Pend, data: Bytes, i: nat, j: nat)
    requires i <= j <= |data| && pend.Open? && MarksMatch(m, pend, data, i)
    ensures MarksMatch(m, Open(pend.kind, pend.bytes + data[i..j]), data, j)
  {
    var q := Get(m, pend.kind).pos;
    assert data[q..i] + data[i..j] == data[q..j];
  }

  // memchr: the first position of c among `limit` bytes from `p`, or the position behind them.
  method MemChr(data: Bytes, p: nat, limit: nat, c: Byte) returns (i: nat)
    requires p + limit <= |data|
    ensures p <= i <= p + limit
    ensures i < p + limit ==> data[i] == c
    ensures forall j :: p <= j < i ==> data[j] != c
  {
    i := p;
    while i < p + limit && data[i] != c
      invariant p <= i <= p + limit
      invariant forall j :: p <= j < i ==> data[j] != c
    {
      i := i + 1;
    }
  }

  // The skip over a value nobody looks at: to the next CR or LF within the search limit, else to the
  // end of the buffer, `beyond` telling that the buffer goes on past the limit.
  method SkipToLineEnd(data: Bytes, p: nat) returns (next: nat, ghost beyond: bool)
    requires p < |data| && data[p] != CR && data[p] != LF
    ensures p < next <= |data|
    ensures beyond ==> next == |data| && |data| - p > MAX_HEADER_SIZE
                       && forall j :: p <= j < p + MAX_HEADER_SIZE ==> data[j] != CR && data[j] != LF
    ensures !beyond ==> (next == |data| || data[next] == CR || data[next] == LF)
                        && forall j :: p <= j < next ==> data[j] != CR && data[j] != LF
  {
    var limit := if |data| - p < MAX_HEADER_SIZE then |data| - p else MAX_HEADER_SIZE;
    var cr := MemChr(data, p, limit, CR);
    var lf := MemChr(data, p, limit, LF);
    beyond := false;
    if cr < p + limit {
      if lf < p + limit && cr >= lf {
        next := lf;
      } else {
        next := cr;
      }
    } else if lf < p + limit {
      next := lf;
    } else {
      next := |data|;
      beyond := limit < |data| - p;
    }
  }

  lemma ValueIsOpen(r: Run)
    requires RunOk(r) && r.ctl == Next && r.st.state.HeaderValue?
    ensures r.pend.Open?
  {
    hide Inv;
  }

  lemma ValueByteRun(r: Run, ch: Byte)
    requires RunOk(r) && r.ctl == Next && r.st.state.HeaderValue? && ch != CR && ch != LF
    requires ValueByte(r.st, ch).ctl != Failed
    ensures ValueByte(r.st, ch).st.state.HeaderValue?
    ensures Resume(r, ch) == r.(st := ValueByte(r.st, ch).st, pend := Grow(r.pend, ch), used := r.used + 1)
    ensures RunOk(Resume(r, ch))
  {
    hide Inv, Emit, OpenToken, ValueByte;
    ResumeOk(r, ch);
    StepOk(r, ch);
    InvValue(r.st);
    ValueByteOk(r.st, ch);
  }

  lemma FieldByte(r: Run, ch: Byte)
    requires RunOk(r) && r.ctl == Next && r.st.state.HeaderField? && TokenChar(ch) != NUL
    ensures Resume(r, ch) == r.(st := NameByte(r.st, ch), pend := Grow(r.pend, ch), used := r.used + 1)
    ensures RunOk(Resume(r, ch))
  {
    hide Inv, Emit, OpenToken, TokenChar, NameByte;
    ResumeOk(r, ch);
    StepOk(r, ch);
  }

  /** The mark a pass works on is that of the open token. */
  lemma ActOfToken(q: Run, o: Outcome)
    requires RunOk(q) && q.ctl == Next && GoodStep(q.st, o)
    ensures q.pend.Open? && (o.act.Mark? || o.act.Flush? || o.act.MarkFlush? || o.act.MarkFlushIncl?)
            ==> o.act.kind == q.pend.kind
  {
    hide Inv, OpenToken;
  }

  /** The calls themselves: unless one of them finds the header too large, a buffer given to one parser
      and its two pieces given to another of the same state leave both in the same state. */
  method ExecuteInTwo(one: HttpParser, two: HttpParser, a: Bytes, b: Bytes)
    returns (whole: nat, first: nat, second: nat)
    requires one != two && one.Valid() && two.Valid() && one.st == two.st && Merged(one.events) == Merged(two.events)
    requires a != [] && b != [] && |a| + |b| < MAX_BUFFER
    requires Exec(one.st, Merged(one.events), a).ctl == Next
    modifies one, two
    ensures one.Valid() && two.Valid()
    ensures old(one.nread) + |a| + |b| < MAX_HEADER_SIZE && old(two.nread) + |a| + |b| + 1 < MAX_HEADER_SIZE ==>
              one.st.errno != HeaderOverflow && two.st.errno != HeaderOverflow
    ensures one.st.errno != HeaderOverflow && two.st.errno != HeaderOverflow ==>
              && one.st == two.st && whole == first + second && first == |a|
              && (Merged(one.events) == Merged(two.events)
                  <==> !(EndsInToken(old(one.st), Merged(old(one.events)), a)
                         && FailsInToken(Exec(old(one.st), Merged(old(one.events)), a).st, b)))
  {
    hide Inv, RunBytes, EndsInToken, FailsInToken, Merged, Counter;
    SplitInvariance(one.st, Merged(one.events), a, b);
    CounterBound(Start(one.st, Merged(one.events)), one.nread, a + b);
    CounterBound(Start(two.st, Merged(two.events)), two.nread, a);
    whole := one.Execute(a + b);
    first := two.Execute(a);
    CounterBound(Start(two.st, Merged(two.events)), two.nread, b);
    second := two.Execute(b);
  }
}
