/** What one call of http_parser_execute does, byte by byte, and that cutting the input does not matter. */
module HttpRun {
  import opened HttpTypes
  import opened HttpDispatch
  import opened HttpInvariant

  // The bytes of the open token seen since its mark was set; Closed when no mark is set.
  datatype Pend = Closed | Open(kind: Kind, bytes: Bytes)

  // A call in progress: the parser, the merged trace of callbacks made so far, the marked bytes, how
  // the last pass ended (Next while the call goes on) and the number of bytes consumed.
  datatype Run = Run(st: Parser, trace: Trace, pend: Pend, ctl: Control, used: nat)

  // The marks http_parser_execute sets before its loop, from the parser's state alone.
  function StartPend(s: State): Pend {
    match OpenToken(s)
    case In(k) => if k == BodyData then Closed else Open(k, [])
    case NoToken => Closed
  }

  function Start(st: Parser, t: Trace): Run { Run(st, t, StartPend(st.state), Next, 0) }

  function Opened(p: Pend, k: Kind): Pend { if p.Open? && p.kind == k then p else Open(k, []) }

  function Close(t: Trace, p: Pend): Trace { if p.Open? then Emit(t, Data(p.kind, p.bytes)) else t }

  function Grow(p: Pend, ch: Byte): Pend { if p.Open? then Open(p.kind, p.bytes + [ch]) else Closed }

  function Apply(r: Run, act: Act, ch: Byte): Run {
    match act
    case NoAct => r
    case Mark(k) => r.(pend := Opened(r.pend, k))
    case Flush(_) => r.(trace := Close(r.trace, r.pend), pend := Closed)
    case MarkFlush(k) => r.(trace := Close(r.trace, Opened(r.pend, k)), pend := Closed)
    case MarkFlushIncl(k) => r.(trace := Close(r.trace, Grow(Opened(r.pend, k), ch)), pend := Closed)
    case Notify(e) => r.(trace := Emit(r.trace, e))
  }

  // What a pass with outcome o makes of a run, before any re-execution.
  function Step(r: Run, o: Outcome, ch: Byte): Run {
    var r1 := Apply(r, o.act, ch).(st := o.st);
    match o.ctl
    case Next => r1.(pend := Grow(r1.pend, ch), used := r1.used + 1)
    case Reexec => r1
    case Exit => r1.(ctl := Exit, used := r1.used + 1)
    case _ => r1.(ctl := o.ctl)
  }

  /** One byte: dispatch it until it is consumed, refused, or ends the call. */
  function Resume(r: Run, ch: Byte): Run
    decreases Rank(r.st.state)
  {
    var o := Dispatch(r.st, ch);
    if o.ctl == Reexec then
      ReexecDescends(r.st, ch);
      Resume(Step(r, o, ch), ch)
    else Step(r, o, ch)
  }

  function RunBytes(r: Run, data: Bytes): Run
    decreases |data|
  {
    if data == [] || r.ctl != Next then r else RunBytes(Resume(r, data[0]), data[1..])
  }

  // The outcome of a call: parser, merged trace, return value, and how it ended.
  datatype Result = Result(st: Parser, trace: Trace, used: nat, ctl: Control)

  /** One call of http_parser_execute on a buffer, the empty buffer meaning end of input. */
  function Exec(st: Parser, t: Trace, data: Bytes): Result {
    if st.errno != Ok then Result(st, t, 0, Failed)
    else if data == [] then
      if st.state.BodyIdentityEof? then Result(st, Emit(t, MessageComplete), 0, Next)
      else if st.state.Dead? || st.state.StartReqOrRes? || st.state.StartRes? || st.state.StartReq? then
        Result(st, t, 0, Next)
      else Result(st.(errno := InvalidEofState), t, 1, Failed)
    else
      var r := RunBytes(Start(st, t), data);
      if r.ctl == Next then Result(r.st, Close(r.trace, r.pend), r.used, Next)
      else Result(r.st, r.trace, r.used, r.ctl)
  }

  // ---------- runs over a concatenation

  lemma {:induction false} RunAppend(r: Run, a: Bytes, b: Bytes)
    ensures RunBytes(r, a + b) == RunBytes(RunBytes(r, a), b)
    decreases |a|
  {
    hide Resume;
    if a == [] {
      assert a + b == b;
    } else if r.ctl == Next {
      assert (a + b)[1..] == a[1..] + b;
      RunAppend(Resume(r, a[0]), a[1..], b);
    }
  }

  lemma RunNothing(r: Run)
    ensures RunBytes(r, []) == r
  {
  }

  lemma StaysEnded(r: Run, b: Bytes)
    ensures r.ctl != Next ==> RunBytes(r, b) == r
  {
  }

  lemma RunOne(r: Run, ch: Byte)
    requires r.ctl == Next
    ensures RunBytes(r, [ch]) == Resume(r, ch)
  {
    hide Resume;
    assert [ch][1..] == [];
    assert RunBytes(r, [ch]) == RunBytes(Resume(r, ch), []);
  }

  lemma GoRun(r: Run, ch: Byte, s: Parser)
    requires r.ctl == Next && r.pend == Closed && Dispatch(r.st, ch) == Go(s)
    ensures Resume(r, ch) == r.(st := s, used := r.used + 1)
  {
    hide Dispatch, Emit;
  }

  lemma AgainRun(r: Run, ch: Byte, s: Parser)
    requires r.ctl == Next && Dispatch(r.st, ch) == Outcome(s, NoAct, Reexec)
    ensures Resume(r, ch) == Resume(r.(st := s), ch)
  {
    hide Dispatch, Emit;
  }

  lemma OneGo(r: Run, ch: Byte, s: Parser, b: Bytes)
    requires r.ctl == Next && r.pend == Closed && Dispatch(r.st, ch) == Go(s)
    ensures RunBytes(r, [ch] + b) == RunBytes(r.(st := s, used := r.used + 1), b)
  {
    hide Dispatch, Resume;
    GoRun(r, ch, s);
    assert ([ch] + b)[0] == ch && ([ch] + b)[1..] == b;
  }

  // Bytes that do nothing.
  lemma {:induction false} StayRun(r: Run, xs: Bytes, b: Bytes)
    requires r.ctl == Next && r.pend == Closed && forall i :: 0 <= i < |xs| ==> Dispatch(r.st, xs[i]) == Go(r.st)
    ensures RunBytes(r, xs + b) == RunBytes(r.(used := r.used + |xs|), b)
    decreases |xs|
  {
    hide Dispatch, RunBytes;
    if xs == [] {
      assert xs + b == b;
    } else {
      assert xs + b == [xs[0]] + (xs[1..] + b);
      OneGo(r, xs[0], r.st, xs[1..] + b);
      StayRun(r.(used := r.used + 1), xs[1..], b);
    }
  }

  lemma NotifyRun(r: Run, ch: Byte, s: Parser, e: Event)
    requires r.ctl == Next && r.pend == Closed && Dispatch(r.st, ch) == Outcome(s, Notify(e), Next)
    ensures Resume(r, ch) == r.(st := s, trace := Emit(r.trace, e), used := r.used + 1)
  {
    hide Dispatch, Emit;
  }

  // ---------- the invariant over a run

  ghost predicate PendOk(s: State, p: Pend) {
    if p.Open? then OpenToken(s) == In(p.kind) else OpenToken(s) == NoToken || OpenToken(s) == In(BodyData)
  }

  ghost predicate RunOk(r: Run) {
    && r.ctl != AssertFailed && r.ctl != Reexec
    && (r.ctl == Failed <==> r.st.errno != Ok) && r.st.errno != HeaderOverflow
    && (r.ctl != Failed ==> Inv(r.st))
    && (r.ctl == Next ==> PendOk(r.st.state, r.pend))
    && (r.ctl == Exit ==> r.pend == Closed)
  }

  /** One pass keeps a run in order, whether or not the byte is dispatched again. */
  lemma StepOk(r: Run, ch: Byte)
    requires RunOk(r) && r.ctl == Next
    ensures GoodStep(r.st, Dispatch(r.st, ch))
    ensures RunOk(Step(r, Dispatch(r.st, ch), ch))
  {
    hide Inv, Dispatch, OpenToken;
    DispatchGood(r.st, ch);
  }

  lemma {:induction false} ResumeOk(r: Run, ch: Byte)
    requires RunOk(r) && r.ctl == Next
    ensures RunOk(Resume(r, ch))
    ensures Resume(r, ch).used == r.used + if Resume(r, ch).ctl == Failed then 0 else 1
    ensures Resume(r, ch).ctl == Next && Resume(r, ch).pend.Open? ==> Resume(r, ch).pend.bytes != []
    decreases Rank(r.st.state)
  {
    hide Inv, Dispatch, OpenToken, GoodStep, RunOk;
    StepOk(r, ch);
    var o := Dispatch(r.st, ch);
    NotReexec(r, ch);
    if o.ctl == Reexec {
      ReexecDescends(r.st, ch);
      ResumeOk(Step(r, o, ch), ch);
    }
  }

  lemma NotReexec(r: Run, ch: Byte)
    requires GoodStep(r.st, Dispatch(r.st, ch))
    ensures Dispatch(r.st, ch).ctl != AssertFailed
  {
    hide Inv, Dispatch, OpenToken;
  }

  lemma {:induction false} RunOkAll(r: Run, data: Bytes)
    requires RunOk(r)
    ensures RunOk(RunBytes(r, data))
    ensures RunBytes(r, data).ctl == Next ==> RunBytes(r, data).used == r.used + |data|
    ensures RunBytes(r, data).used <= r.used + |data|
    ensures RunBytes(r, data).ctl == Next && RunBytes(r, data).pend.Open? && data != [] ==>
            RunBytes(r, data).pend.bytes != []
    decreases |data|
  {
    hide Resume, RunOk;
    if data != [] && r.ctl == Next {
      ResumeOk(r, data[0]);
      RunOkAll(Resume(r, data[0]), data[1..]);
      if data[1..] == [] {
        assert RunBytes(r, data) == Resume(r, data[0]);
      }
    }
  }

  lemma StartOk(st: Parser, t: Trace)
    requires Inv(st)
    ensures RunOk(Start(st, t))
  {
    hide Inv;
    assert st.errno == Ok by { InvOk(st); }
  }

  // ---------- cutting the input in two

  /** From state s the bytes b end in an error while the token open in s is still open. */
  predicate FailsInToken(s: Parser, b: Bytes)
    decreases |b|
  {
    OpenToken(s.state).In? && b != [] &&
    (var o := Dispatch(s, b[0]);
     o.ctl == Failed || (o.ctl == Next && OpenToken(o.st.state).In? && FailsInToken(o.st, b[1..])))
  }

  /** The call on a ends inside a token of which it has seen bytes. */
  predicate EndsInToken(st: Parser, t: Trace, a: Bytes) {
    RunBytes(Start(st, t), a).pend.Open?
  }

  // Runs that differ only in how many bytes they have consumed.
  ghost predicate Alike(x: Run, y: Run) { x == y.(used := x.used) }

  // x starts where a call ended, y goes on with the same call; the token of kind k that was open at
  // the cut, with bytes w before it, is still open.
  ghost predicate StillOpen(x: Run, y: Run, k: Kind, w: Bytes) {
    && x.st == y.st && x.ctl == y.ctl == Next
    && OpenToken(x.st.state) == In(k)
    && x.trace == Emit(y.trace, Data(k, w))
    && y.pend.Open? && y.pend.kind == k
    && (if x.pend.Open? then x.pend.kind == k && y.pend.bytes == w + x.pend.bytes
        else k == BodyData && y.pend.bytes == w)
  }

  lemma {:induction false} AlikeResume(x: Run, y: Run, ch: Byte)
    requires Alike(x, y)
    ensures Alike(Resume(x, ch), Resume(y, ch))
    ensures Resume(x, ch).used - x.used == Resume(y, ch).used - y.used
    decreases Rank(x.st.state)
  {
    hide Dispatch;
    var o := Dispatch(x.st, ch);
    if o.ctl == Reexec {
      ReexecDescends(x.st, ch);
      AlikeResume(Step(x, o, ch), Step(y, o, ch), ch);
    }
  }

  lemma {:induction false} AlikeRuns(x: Run, y: Run, b: Bytes)
    requires Alike(x, y)
    ensures Alike(RunBytes(x, b), RunBytes(y, b))
    ensures RunBytes(x, b).used - x.used == RunBytes(y, b).used - y.used
    decreases |b|
  {
    hide Resume;
    if b != [] && x.ctl == Next {
      AlikeResume(x, y, b[0]);
      AlikeRuns(Resume(x, b[0]), Resume(y, b[0]), b[1..]);
    }
  }

  /** Handing out a token in two pieces or in one is the same after merging. */
  lemma StillOpenStep(x: Run, y: Run, k: Kind, w: Bytes, ch: Byte)
    requires StillOpen(x, y, k, w) && RunOk(x)
    ensures var o := Dispatch(x.st, ch);
            var x', y' := Step(x, o, ch), Step(y, o, ch);
            && x'.used - x.used == y'.used - y.used
            && o.ctl != Exit && o.ctl != AssertFailed
            && (o.ctl == Failed ==> x'.st == y'.st && x'.ctl == y'.ctl && x'.trace == Emit(y'.trace, Data(k, w)))
            && (o.ctl != Failed && OpenToken(o.st.state).In? ==> o.ctl == Next && StillOpen(x', y', k, w))
            && (o.ctl != Failed && OpenToken(o.st.state) == NoToken ==> Alike(x', y'))
  {
    hide Inv, Dispatch, OpenToken, Emit;
    DispatchGood(x.st, ch);
    var o := Dispatch(x.st, ch);
    var x', y' := Step(x, o, ch), Step(y, o, ch);
    var u := if x.pend.Open? then x.pend.bytes else [];
    assert w + u == y.pend.bytes;
    assert w + (u + [ch]) == y.pend.bytes + [ch];
    match o.act {
      case NoAct =>
      case Mark(_) =>
      case Flush(_) =>
        EmitGlue(y.trace, k, w, u);
        assert Alike(x', y');
      case MarkFlushIncl(_) =>
        EmitGlue(y.trace, k, w, u + [ch]);
        assert Alike(x', y');
      case _ =>
    }
  }

  lemma {:induction false} StillOpenRuns(x: Run, y: Run, k: Kind, w: Bytes, b: Bytes)
    requires StillOpen(x, y, k, w) && RunOk(x)
    ensures var x', y' := RunBytes(x, b), RunBytes(y, b);
            && x'.used - x.used == y'.used - y.used
            && x'.st == y'.st && x'.ctl == y'.ctl
            && (x'.ctl == Next ==> Close(x'.trace, x'.pend) == Close(y'.trace, y'.pend))
            && (FailsInToken(x.st, b) ==> x'.ctl == Failed && x'.trace == Emit(y'.trace, Data(k, w)))
            && (x'.ctl != Next && !FailsInToken(x.st, b) ==> x'.trace == y'.trace)
    decreases |b|
  {
    hide Inv, Dispatch, OpenToken, StillOpen, RunOk, Step;
    StillOpenShape(x, y, k, w);
    if b == [] {
      StillOpenClose(x, y, k, w);
    } else {
      StillOpenStep(x, y, k, w, b[0]);
      ResumeOk(x, b[0]);
      var o := Dispatch(x.st, b[0]);
      var x', y' := Step(x, o, b[0]), Step(y, o, b[0]);
      StepShape(x, o, b[0]);
      StepShape(y, o, b[0]);
      if o.ctl == Failed {
      } else if OpenToken(o.st.state).In? {
        StillOpenRuns(x', y', k, w, b[1..]);
      } else {
        if o.ctl == Reexec {
          ReexecDescends(x.st, b[0]);
          AlikeResume(x', y', b[0]);
        }
        AlikeRuns(Resume(x, b[0]), Resume(y, b[0]), b[1..]);
      }
    }
  }

  lemma StepShape(r: Run, o: Outcome, ch: Byte)
    ensures Step(r, o, ch).st == o.st
    ensures Step(r, o, ch).ctl == if o.ctl == Next || o.ctl == Reexec then r.ctl else o.ctl
  {
    hide Emit;
  }

  lemma StillOpenShape(x: Run, y: Run, k: Kind, w: Bytes)
    requires StillOpen(x, y, k, w)
    ensures x.st == y.st && x.ctl == Next && y.ctl == Next && OpenToken(x.st.state) == In(k)
  {
    hide OpenToken;
  }

  lemma StillOpenClose(x: Run, y: Run, k: Kind, w: Bytes)
    requires StillOpen(x, y, k, w)
    ensures Close(x.trace, x.pend) == Close(y.trace, y.pend)
  {
    hide OpenToken;
    EmitGlue(y.trace, k, w, if x.pend.Open? then x.pend.bytes else []);
  }

  /** Cutting a buffer in two changes neither the parser nor the number of bytes consumed, and not the
      merged callbacks either, unless b fails inside a token that a had already handed out in part. */
  lemma SplitInvariance(st: Parser, t: Trace, a: Bytes, b: Bytes)
    requires Inv(st) && a != [] && b != []
    requires Exec(st, t, a).ctl == Next
    ensures Exec(st, t, a).used == |a|
    ensures var first := Exec(st, t, a);
            var second := Exec(first.st, first.trace, b);
            var whole := Exec(st, t, a + b);
            && second.st == whole.st && second.ctl == whole.ctl
            && first.used + second.used == whole.used
            && (second.trace == whole.trace <==> !(EndsInToken(st, t, a) && FailsInToken(first.st, b)))
  {
    hide Inv, RunBytes, Dispatch, OpenToken, RunOk, FailsInToken;
    InvOk(st);
    StartOk(st, t);
    RunOkAll(Start(st, t), a);
    RunAppend(Start(st, t), a, b);
    var y := RunBytes(Start(st, t), a);
    var first := Exec(st, t, a);
    var x := Start(first.st, first.trace);
    RunNext(y);
    StartOk(first.st, first.trace);
    if y.pend.Open? {
      StillOpenAtCut(y);
      StillOpenRuns(x, y, y.pend.kind, y.pend.bytes, b);
      EmitShows(RunBytes(y, b).trace, y.pend.kind, y.pend.bytes);
    } else {
      ClosedAtCut(y);
      AlikeRuns(x, y, b);
    }
  }

  lemma RunNext(r: Run)
    requires RunOk(r) && r.ctl == Next
    ensures Inv(r.st) && r.st.errno == Ok
  {
    hide Inv, OpenToken;
  }

  lemma StillOpenAtCut(y: Run)
    requires RunOk(y) && y.ctl == Next && y.pend.Open?
    ensures StillOpen(Start(y.st, Close(y.trace, y.pend)), y, y.pend.kind, y.pend.bytes)
  {
    hide Inv, OpenToken;
    assert y.pend.bytes + [] == y.pend.bytes;
  }

  lemma ClosedAtCut(y: Run)
    requires RunOk(y) && y.ctl == Next && !y.pend.Open?
    ensures Alike(Start(y.st, Close(y.trace, y.pend)), y)
  {
    hide Inv, OpenToken;
  }

  /** A call that ends before its buffer does leaves the rest unread. */
  lemma StopsEarly(st: Parser, t: Trace, a: Bytes, b: Bytes)
    requires a != [] && Exec(st, t, a).ctl != Next
    ensures Exec(st, t, a + b) == Exec(st, t, a)
  {
    hide Resume;
    if st.errno == Ok {
      RunAppend(Start(st, t), a, b);
    }
  }

  // ---------- cutting the input into any pieces

  function Concat(bufs: seq<Bytes>): Bytes { if bufs == [] then [] else bufs[0] + Concat(bufs[1..]) }

  /** Successive calls on the buffers, stopping when one is not consumed to its end or ends the message
      stream. */
  function ExecAll(st: Parser, t: Trace, bufs: seq<Bytes>): Result
    decreases |bufs|
  {
    if bufs == [] then Result(st, t, 0, Next) else
    var first := Exec(st, t, bufs[0]);
    if first.ctl != Next then first else
    var rest := ExecAll(first.st, first.trace, bufs[1..]);
    rest.(used := first.used + rest.used)
  }

  lemma OneExec(st: Parser, t: Trace, b: Bytes)
    ensures ExecAll(st, t, [b]) == Exec(st, t, b) && Concat([b]) == b
  {
    hide Exec;
    assert [b][1..] == [];
    var e := Exec(st, t, b);
    assert ExecAll(e.st, e.trace, []) == Result(e.st, e.trace, 0, Next);
  }

  /** However the input is cut, the calls end alike; only the callbacks of a failing call may differ. */
  lemma {:induction false} AnySplit(st: Parser, t: Trace, bufs: seq<Bytes>)
    requires Inv(st) && bufs != [] && forall i :: 0 <= i < |bufs| ==> bufs[i] != []
    ensures var all, whole := ExecAll(st, t, bufs), Exec(st, t, Concat(bufs));
            && all.st == whole.st && all.ctl == whole.ctl && all.used == whole.used
            && (whole.ctl != Failed ==> all.trace == whole.trace)
    decreases |bufs|
  {
    hide Inv, Exec, EndsInToken, FailsInToken;
    var a, rest := bufs[0], bufs[1..];
    var first := Exec(st, t, a);
    if rest == [] {
      assert a + [] == a;
    } else if first.ctl != Next {
      StopsEarly(st, t, a, Concat(rest));
    } else {
      assert Concat(rest) == rest[0] + Concat(rest[1..]);
      SplitInvariance(st, t, a, Concat(rest));
      ExecKeepsInv(st, t, a);
      if FailsInToken(first.st, Concat(rest)) {
        FailsInTokenFails(first.st, first.trace, Concat(rest));
      }
      AnySplit(first.st, first.trace, rest);
    }
  }

  /** A call that reports no error leaves a parser satisfying the invariant. */
  lemma ExecKeepsInv(st: Parser, t: Trace, data: Bytes)
    requires Inv(st)
    ensures Exec(st, t, data).ctl != AssertFailed
    ensures Exec(st, t, data).ctl != Failed ==> Inv(Exec(st, t, data).st)
    ensures Exec(st, t, data).ctl == Failed <==> Exec(st, t, data).st.errno != Ok
    ensures data != [] ==> Exec(st, t, data).used <= |data|
  {
    hide Inv, RunBytes, OpenToken;
    InvOk(st);
    StartOk(st, t);
    RunOkAll(Start(st, t), data);
  }

  lemma FailsInTokenFails(s: Parser, t: Trace, b: Bytes)
    requires Inv(s) && FailsInToken(s, b)
    ensures Exec(s, t, b).ctl == Failed
  {
    hide Inv, RunBytes, OpenToken, FailsInToken, RunOk;
    InvOk(s);
    StartOk(s, t);
    FailsInTokenRuns(Start(s, t), b);
    FailsInTokenNonempty(s, b);
  }

  lemma FailsInTokenNonempty(s: Parser, b: Bytes)
    requires FailsInToken(s, b)
    ensures b != []
  {
    hide OpenToken, Dispatch;
  }

  lemma {:induction false} FailsInTokenRuns(r: Run, b: Bytes)
    requires r.ctl == Next && FailsInToken(r.st, b)
    ensures RunBytes(r, b).ctl == Failed
    decreases |b|
  {
    hide OpenToken, Dispatch, Step;
    var o := Dispatch(r.st, b[0]);
    StepShape(r, o, b[0]);
    if o.ctl == Next {
      FailsInTokenRuns(Step(r, o, b[0]), b[1..]);
    }
  }

  // ---------- what has been told stays told

  // The same event, or a first part of its data.
  predicate FirstPart(e: Event, f: Event) {
    e == f || (e.Data? && f.Data? && e.kind == f.kind && e.bytes <= f.bytes)
  }

  /** u tells all that t does and perhaps more, the last data of t going on in u. */
  predicate IsBeginning(t: Trace, u: Trace) {
    t == [] || (|t| <= |u| && t[..|t| - 1] == u[..|t| - 1] && FirstPart(t[|t| - 1], u[|t| - 1]))
  }

  lemma BeginningOf(t: Trace, u: Trace, v: Trace)
    requires IsBeginning(t, u) && IsBeginning(u, v)
    ensures IsBeginning(t, v)
  {
    if t != [] {
      assert u[..|t| - 1] == u[..|u| - 1][..|t| - 1];
    }
  }

  lemma EmitExtends(t: Trace, e: Event)
    ensures IsBeginning(t, Emit(t, e))
  {
  }

  lemma StepExtends(r: Run, o: Outcome, ch: Byte)
    ensures IsBeginning(r.trace, Step(r, o, ch).trace)
  {
    hide Emit, IsBeginning;
    SameBeginning(r.trace);
    match o.act {
      case Flush(_) => CloseExtends(r.trace, r.pend);
      case MarkFlush(k) => CloseExtends(r.trace, Opened(r.pend, k));
      case MarkFlushIncl(k) => CloseExtends(r.trace, Grow(Opened(r.pend, k), ch));
      case Notify(e) => EmitExtends(r.trace, e);
      case _ =>
    }
  }

  lemma SameBeginning(t: Trace)
    ensures IsBeginning(t, t)
  {
  }

  lemma CloseExtends(t: Trace, p: Pend)
    ensures IsBeginning(t, Close(t, p))
  {
    hide Emit, IsBeginning;
    SameBeginning(t);
    if p.Open? {
      EmitExtends(t, Data(p.kind, p.bytes));
    }
  }

  lemma {:induction false} ResumeExtends(r: Run, ch: Byte)
    ensures IsBeginning(r.trace, Resume(r, ch).trace)
    decreases Rank(r.st.state)
  {
    hide Dispatch, Step, IsBeginning;
    var o := Dispatch(r.st, ch);
    StepExtends(r, o, ch);
    if o.ctl == Reexec {
      ReexecDescends(r.st, ch);
      StepShape(r, o, ch);
      ResumeExtends(Step(r, o, ch), ch);
      BeginningOf(r.trace, Step(r, o, ch).trace, Resume(r, ch).trace);
    }
  }

  lemma {:induction false} RunExtends(r: Run, data: Bytes)
    ensures IsBeginning(r.trace, RunBytes(r, data).trace)
    decreases |data|
  {
    hide Resume, IsBeginning;
    SameBeginning(r.trace);
    if data != [] && r.ctl == Next {
      ResumeExtends(r, data[0]);
      RunExtends(Resume(r, data[0]), data[1..]);
      BeginningOf(r.trace, Resume(r, data[0]).trace, RunBytes(r, data).trace);
    }
  }

  /** A call tells more than has been told before it, and no less than its passes have. */
  lemma ExecExtends(st: Parser, t: Trace, data: Bytes)
    ensures IsBeginning(t, Exec(st, t, data).trace)
    ensures st.errno == Ok && data != [] ==>
              IsBeginning(RunBytes(Start(st, t), data).trace, Exec(st, t, data).trace)
  {
    hide RunBytes, Emit, IsBeginning;
    SameBeginning(t);
    EmitExtends(t, MessageComplete);
    var r := RunBytes(Start(st, t), data);
    RunExtends(Start(st, t), data);
    CloseExtends(r.trace, r.pend);
    SameBeginning(r.trace);
    BeginningOf(t, r.trace, Close(r.trace, r.pend));
  }

  lemma {:induction false} ExecAllExtends(st: Parser, t: Trace, bufs: seq<Bytes>)
    ensures IsBeginning(t, ExecAll(st, t, bufs).trace)
    ensures bufs != [] ==> IsBeginning(Exec(st, t, bufs[0]).trace, ExecAll(st, t, bufs).trace)
    decreases |bufs|
  {
    hide Exec, IsBeginning;
    SameBeginning(t);
    if bufs != [] {
      var first := Exec(st, t, bufs[0]);
      ExecExtends(st, t, bufs[0]);
      SameBeginning(first.trace);
      ExecAllExtends(first.st, first.trace, bufs[1..]);
      BeginningOf(t, first.trace, ExecAll(st, t, bufs).trace);
    }
  }
}
