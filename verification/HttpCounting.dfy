/** The counter of header bytes: what it holds after a call, and so when a header is found too large. */
module HttpCounting {
  import opened HttpTypes
  import opened HttpDispatch
  import opened HttpInvariant
  import opened HttpRun
  import opened HttpSkips

  // ---------- the counter, byte by byte

  // A pass in one of these states sets the counter back.
  predicate Resets(s: State) { s.HeadersDone? || s.ChunkSizeAlmostDone? || s.ChunkDataDone? }

  // The counter after one pass, and after all passes over a byte.
  function PassCount(s: Parser, n: nat, ch: Byte): nat {
    if Resets(s.state) && Dispatch(s, ch).ctl != Failed then 0 else n
  }

  function ByteCount(s: Parser, n: nat, ch: Byte): nat
    decreases Rank(s.state)
  {
    var o, k := Dispatch(s, ch), PassCount(s, n, ch);
    if o.ctl == Reexec then
      ReexecDescends(s, ch);
      ByteCount(o.st, k, ch)
    else k
  }

  // The states with a loop of their own over the bytes.
  predicate Scans(s: State) { s.HeaderField? || s.HeaderValue? }

  // The loop goes on over this byte.
  predicate GoesOver(s: Parser, ch: Byte) {
    Scans(s.state) && Dispatch(s, ch).ctl == Next && Dispatch(s, ch).st.state == s.state
  }

  /** The counter after a run over the bytes xs of one buffer, or a number beyond the limit if it gets there.
      Every byte counts that is not part of a body. A buffer that ends inside a name or a value costs one
      more. The bytes of a Content-Length that is refused are not counted. */
  function Counter(r: Run, n: nat, xs: Bytes): nat
    decreases |xs|, 1
  {
    if xs == [] || r.ctl != Next then n else
    var m := if ParsingHeader(r.st.state) then n + 1 else n;
    if m > MAX_HEADER_SIZE then m else Counting(r, m, xs)
  }

  // The same when the first byte has been counted.
  function Counting(r: Run, m: nat, xs: Bytes): nat
    requires xs != []
    decreases |xs|, 0
  {
    if r.st.state.HeaderValue? && FailsInToken(r.st, xs) then m
    else if |xs| == 1 && GoesOver(r.st, xs[0]) then m + 1
    else Counter(Resume(r, xs[0]), ByteCount(r.st, m, xs[0]), xs[1..])
  }

  lemma CounterNothing(r: Run, n: nat)
    ensures Counter(r, n, []) == n
  {
  }

  lemma ByteCountBound(s: Parser, n: nat, ch: Byte)
    ensures ByteCount(s, n, ch) <= n
    decreases Rank(s.state)
  {
    hide Dispatch;
    if Dispatch(s, ch).ctl == Reexec {
      ReexecDescends(s, ch);
      ByteCountBound(Dispatch(s, ch).st, PassCount(s, n, ch), ch);
    }
  }

  /** The counter never grows by more than the bytes and one. */
  lemma {:induction false} CounterBound(r: Run, n: nat, xs: Bytes)
    ensures Counter(r, n, xs) <= n + |xs| + if xs == [] then 0 else 1
    decreases |xs|
  {
    hide Dispatch, Resume, ByteCount, FailsInToken, GoesOver, ParsingHeader;
    if xs != [] {
      var m := if ParsingHeader(r.st.state) then n + 1 else n;
      ByteCountBound(r.st, m, xs[0]);
      CounterBound(Resume(r, xs[0]), ByteCount(r.st, m, xs[0]), xs[1..]);
    }
  }

  // ---------- one pass

  lemma HeaderElsewhere(s: Parser, ch: Byte)
    requires DispatchHeader(s, ch).ctl == Reexec
    ensures !Scans(DispatchHeader(s, ch).st.state)
  {
    hide NameByte, FirstNameState, ValueByte, FinishValue, TokenChar;
    ValueByteOnce(s, ch);
  }

  lemma BodyElsewhere(s: Parser, ch: Byte)
    requires DispatchBody(s, ch).ctl == Reexec
    ensures !Scans(DispatchBody(s, ch).st.state)
  {
  }

  lemma StartElsewhere(s: Parser, ch: Byte)
    requires DispatchStartLine(s, ch).ctl == Reexec
    ensures !Scans(DispatchStartLine(s, ch).st.state)
  {
    hide DispatchUrl, DispatchResponseLine, DispatchRequestLine, DispatchStartReq, DispatchMethod;
    LineOnce(s, ch);
    RequestOnce(s, ch);
  }

  /** A byte that is dispatched again leads to no inner loop. */
  lemma AgainElsewhere(s: Parser, ch: Byte)
    requires Dispatch(s, ch).ctl == Reexec
    ensures !Scans(Dispatch(s, ch).st.state)
  {
    hide DispatchHeader, DispatchBody, DispatchStartLine, Scans;
    if IsHeaderState(s.state) {
      HeaderElsewhere(s, ch);
    } else if IsBodyState(s.state) {
      BodyElsewhere(s, ch);
    } else {
      StartElsewhere(s, ch);
    }
  }

  /** What one pass, its byte being counted, does to the counter; the inner loops are not part of it. */
  lemma PassCounts(r: Run, m: nat, xs: Bytes)
    requires r.ctl == Next && xs != [] && !GoesOver(r.st, xs[0])
    requires !(r.st.state.HeaderValue? && FailsInToken(r.st, xs))
    ensures var o := Dispatch(r.st, xs[0]);
            var r', k := Step(r, o, xs[0]), PassCount(r.st, m, xs[0]);
            && (o.ctl == Next ==> Counter(r', k, xs[1..]) == Counting(r, m, xs))
            && (o.ctl == Reexec ==> Counting(r', k, xs) == Counting(r, m, xs))
            && (o.ctl != Next && o.ctl != Reexec ==> k == Counting(r, m, xs))
  {
    hide Dispatch, Apply, FailsInToken, GoesOver;
    var o := Dispatch(r.st, xs[0]);
    StepShape(r, o, xs[0]);
    if o.ctl == Reexec {
      AgainElsewhere(r.st, xs[0]);
      NoLoop(o.st, xs[0]);
    }
  }

  // The call goes on, or ends, at place i of the buffer with n counted, so that there will be c in the end.
  predicate CountLeft(c: nat, n: nat, data: Bytes, i: nat, ctl: Control, r: Run)
    requires i < |data|
  {
    && n <= MAX_HEADER_SIZE
    && (ctl == Next ==> Counter(r, n, data[i + 1..]) == c)
    && (ctl == Reexec ==> !Scans(r.st.state) && Counting(r, n, data[i..]) == c)
    && (ctl != Next && ctl != Reexec ==> n == c)
  }

  lemma PassLeft(r: Run, n: nat, data: Bytes, i: nat)
    requires i < |data| && r.ctl == Next && n <= MAX_HEADER_SIZE && !GoesOver(r.st, data[i])
    requires !(r.st.state.HeaderValue? && FailsInToken(r.st, data[i..]))
    ensures var o := Dispatch(r.st, data[i]);
            CountLeft(Counting(r, n, data[i..]), PassCount(r.st, n, data[i]), data, i, o.ctl, Step(r, o, data[i]))
  {
    hide Dispatch, Apply, FailsInToken, GoesOver, Counter, Counting, Scans;
    PassCounts(r, n, data[i..]);
    assert data[i..][1..] == data[i + 1..];
    StepShape(r, Dispatch(r.st, data[i]), data[i]);
    if Dispatch(r.st, data[i]).ctl == Reexec {
      AgainElsewhere(r.st, data[i]);
    }
  }

  lemma NoLoop(s: Parser, ch: Byte)
    requires !Scans(s.state)
    ensures !GoesOver(s, ch) && !s.state.HeaderValue?
  {
    hide Dispatch;
  }

  // ---------- inner loops

  // The byte belongs to the name or the value, if it is not refused.
  predicate IsScanned(s: State, ch: Byte) {
    if s.HeaderField? then TokenChar(ch) != NUL else ch != CR && ch != LF
  }

  // The loop has gone over the bytes xs.
  ghost predicate Scanned(r: Run, xs: Bytes) {
    && RunOk(r) && r.ctl == Next && Scans(r.st.state) && RunBytes(r, xs).ctl == Next
    && forall i :: 0 <= i < |xs| ==> IsScanned(r.st.state, xs[i])
  }

  lemma NameScanned(s: Parser, ch: Byte)
    requires s.state.HeaderField? && TokenChar(ch) != NUL && Dispatch(s, ch).ctl != AssertFailed
    ensures Dispatch(s, ch).ctl == Next && Dispatch(s, ch).st.state.HeaderField?
  {
    hide NameStep, TokenChar;
  }

  lemma ValueScanned(s: Parser, ch: Byte)
    requires s.state.HeaderValue? && ch != CR && ch != LF && ValueIndexOk(s.hstate, s.index)
    ensures var o := Dispatch(s, ch); o.ctl == Failed || (o.ctl == Next && o.st.state.HeaderValue?)
  {
    hide TokenChar, Lower, Follow;
  }

  lemma InvValue(s: Parser)
    requires Inv(s) && s.state.HeaderValue?
    ensures ValueIndexOk(s.hstate, s.index) && s.index < MAX_INDEX
    ensures s.hstate.ContentLength? ==> s.contentLength <= MAX_LENGTH
  {
    hide ValueIndexOk;
  }

  lemma ByteScanned(r: Run, ch: Byte)
    requires RunOk(r) && r.ctl == Next && Scans(r.st.state) && IsScanned(r.st.state, ch)
    ensures Dispatch(r.st, ch).ctl == Failed || GoesOver(r.st, ch)
    ensures Resume(r, ch) == Step(r, Dispatch(r.st, ch), ch)
  {
    hide Dispatch, Inv, TokenChar, Apply;
    if r.st.state.HeaderField? {
      DispatchGood(r.st, ch);
      NameScanned(r.st, ch);
    } else {
      InvValue(r.st);
      ValueScanned(r.st, ch);
    }
  }

  // The loop goes over the first byte of xs, of which there are more.
  lemma ScannedFirst(r: Run, m: nat, xs: Bytes, b: Bytes)
    requires Scanned(r, xs) && xs != []
    ensures GoesOver(r.st, xs[0]) && Scanned(Resume(r, xs[0]), xs[1..])
    ensures Resume(r, xs[0]).st.state == r.st.state && ByteCount(r.st, m, xs[0]) == m
    ensures r.st.state.HeaderValue? ==>
              (FailsInToken(r.st, xs + b) <==> FailsInToken(Resume(r, xs[0]).st, xs[1..] + b))
  {
    hide Dispatch, TokenChar, Apply, RunOk, Resume;
    ByteScanned(r, xs[0]);
    StepShape(r, Dispatch(r.st, xs[0]), xs[0]);
    ResumeOk(r, xs[0]);
    StaysEnded(Resume(r, xs[0]), xs[1..]);
    assert (xs + b)[1..] == xs[1..] + b;
  }

  /** The loop counts the bytes it goes over, and the next one in their place. */
  lemma {:induction false} LoopCounts(r: Run, m: nat, xs: Bytes, b: Bytes)
    requires Scanned(r, xs) && b != [] && m <= MAX_HEADER_SIZE
    requires r.st.state.HeaderValue? ==> !FailsInToken(r.st, xs + b)
    ensures if m + |xs| <= MAX_HEADER_SIZE then Counting(r, m, xs + b) == Counting(RunBytes(r, xs), m + |xs|, b)
            else Counting(r, m, xs + b) > MAX_HEADER_SIZE
    decreases |xs|
  {
    hide Dispatch, Scanned, Resume, ByteCount, FailsInToken, GoesOver;
    if xs == [] {
      assert xs + b == b;
    } else {
      ScannedFirst(r, m, xs, b);
      assert (xs + b)[0] == xs[0] && (xs + b)[1..] == xs[1..] + b;
      ScanningCounts(r, xs);
      if m + 1 <= MAX_HEADER_SIZE {
        LoopCounts(Resume(r, xs[0]), m + 1, xs[1..], b);
      }
    }
  }

  lemma ScanningCounts(r: Run, xs: Bytes)
    requires Scanned(r, xs)
    ensures r.ctl == Next && ParsingHeader(r.st.state)
    ensures xs != [] ==> Resume(r, xs[0]).ctl == Next && ParsingHeader(Resume(r, xs[0]).st.state)
  {
    hide Resume, RunOk, Dispatch;
    if xs != [] {
      ScannedFirst(r, 0, xs, []);
    }
  }

  /** At the end of the buffer it counts one more. */
  lemma LoopEnds(r: Run, m: nat, xs: Bytes)
    requires Scanned(r, xs) && xs != [] && m <= MAX_HEADER_SIZE
    requires r.st.state.HeaderValue? ==> !FailsInToken(r.st, xs)
    ensures if m + |xs| <= MAX_HEADER_SIZE then Counting(r, m, xs) == m + |xs|
            else Counting(r, m, xs) > MAX_HEADER_SIZE
    decreases |xs|
  {
    hide Dispatch, Scanned, Resume, ByteCount, FailsInToken, GoesOver;
    ScannedFirst(r, m, xs, []);
    assert xs + [] == xs;
    assert xs[1..] + [] == xs[1..];
    ScanningCounts(r, xs);
    if |xs| > 1 && m + 1 <= MAX_HEADER_SIZE {
      LoopEnds(Resume(r, xs[0]), m + 1, xs[1..]);
    }
  }

  lemma {:induction false} LoopFails(r: Run, xs: Bytes, b: Bytes)
    requires Scanned(r, xs) && r.st.state.HeaderValue?
    ensures FailsInToken(r.st, xs + b) <==> FailsInToken(RunBytes(r, xs).st, b)
    decreases |xs|
  {
    hide Dispatch, Scanned, Resume, FailsInToken, GoesOver;
    if xs == [] {
      assert xs + b == b;
    } else {
      ScannedFirst(r, 0, xs, b);
      ScanningCounts(r, xs);
      LoopFails(Resume(r, xs[0]), xs[1..], b);
    }
  }

  // What may follow the bytes the loop goes over: nothing more, a byte that ends the name or value, or one that
  // is refused.
  ghost predicate Stops(r: Run, b: Bytes) {
    b == [] || !IsScanned(r.st.state, b[0]) || Dispatch(r.st, b[0]).ctl == Failed
  }

  lemma StopByte(r: Run, ch: Byte)
    requires Scans(r.st.state) && (!IsScanned(r.st.state, ch) || Dispatch(r.st, ch).ctl == Failed)
    ensures !GoesOver(r.st, ch)
    ensures !IsScanned(r.st.state, ch) && r.st.state.HeaderValue? ==>
              Dispatch(r.st, ch).ctl != Failed && !Dispatch(r.st, ch).st.state.HeaderValue?
  {
    hide TokenChar, ValueByte, NameByte;
  }

  // A value is refused at the byte where the loop stops, or not at all.
  lemma StopFails(r: Run, b: Bytes)
    requires r.st.state.HeaderValue? && Stops(r, b)
    ensures FailsInToken(r.st, b) <==> b != [] && Dispatch(r.st, b[0]).ctl == Failed
  {
    hide Dispatch;
    if b != [] {
      StopByte(r, b[0]);
      if !IsScanned(r.st.state, b[0]) {
        StopState(r.st, b[0]);
      }
    }
  }

  lemma StopState(s: Parser, ch: Byte)
    requires s.state.HeaderValue? && (ch == CR || ch == LF)
    ensures Dispatch(s, ch).st.state.HeaderAlmostDone?
  {
    hide ValueByte;
  }

  /** A name or value with what follows it: the bytes gone over are counted unless the value is refused. */
  lemma LoopLeft(r: Run, m: nat, xs: Bytes, b: Bytes)
    requires Scanned(r, xs) && m <= MAX_HEADER_SIZE && Stops(RunBytes(r, xs), b) && xs + b != []
    ensures var refused := r.st.state.HeaderValue? && b != [] && Dispatch(RunBytes(r, xs).st, b[0]).ctl == Failed;
            if refused then Counting(r, m, xs + b) == m
            else if m + |xs| > MAX_HEADER_SIZE then Counting(r, m, xs + b) > MAX_HEADER_SIZE
            else if b == [] then Counting(r, m, xs + b) == m + |xs|
            else Counting(r, m, xs + b) == Counting(RunBytes(r, xs), m + |xs|, b)
                 && !(r.st.state.HeaderValue? && FailsInToken(RunBytes(r, xs).st, b))
    ensures RunBytes(r, xs).st.state == r.st.state && Scans(r.st.state)
    ensures b != [] ==> !GoesOver(RunBytes(r, xs).st, b[0])
    ensures b != [] && !IsScanned(r.st.state, b[0]) && r.st.state.HeaderValue? ==>
              Dispatch(RunBytes(r, xs).st, b[0]).ctl != Failed
  {
    hide Dispatch, Scanned, Resume, FailsInToken, GoesOver, Counter, RunBytes, Stops;
    LoopState(r, xs);
    if b != [] {
      LeftByte(RunBytes(r, xs), b);
    }
    if r.st.state.HeaderValue? {
      LoopFails(r, xs, b);
      StopFails(RunBytes(r, xs), b);
    }
    if b == [] {
      assert xs + b == xs;
      if !(r.st.state.HeaderValue? && FailsInToken(r.st, xs)) {
        LoopEnds(r, m, xs);
      }
    } else if !(r.st.state.HeaderValue? && FailsInToken(r.st, xs + b)) {
      LoopCounts(r, m, xs, b);
    }
  }

  /** The same in a buffer, the loop having gone from place p to place i. */
  lemma LoopStops(q: Run, m: nat, data: Bytes, p: nat, i: nat)
    requires p <= i < |data| && Scanned(q, data[p..i]) && m <= MAX_HEADER_SIZE
    requires Stops(RunBytes(q, data[p..i]), data[i..])
    ensures var r, c, k := RunBytes(q, data[p..i]), Counting(q, m, data[p..]), m + (i - p);
            var o := Dispatch(r.st, data[i]);
            if q.st.state.HeaderValue? && o.ctl == Failed then c == m && IsScanned(q.st.state, data[i])
            else if k > MAX_HEADER_SIZE then c > MAX_HEADER_SIZE
            else CountLeft(c, k, data, i, o.ctl, Step(r, o, data[i]))
    ensures forall n: nat :: PassCount(RunBytes(q, data[p..i]).st, n, data[i]) == n
  {
    hide Dispatch, Step, FailsInToken, GoesOver, Counter, Counting, Scanned, Stops, RunBytes, CountLeft, IsScanned;
    assert data[p..] == data[p..i] + data[i..];
    LoopLeft(q, m, data[p..i], data[i..]);
    LoopGoing(q, data[p..i]);
    var r := RunBytes(q, data[p..i]);
    if m + (i - p) <= MAX_HEADER_SIZE && !(q.st.state.HeaderValue? && FailsInToken(r.st, data[i..])) {
      PassLeft(r, m + (i - p), data, i);
    }
  }

  lemma LoopGoing(r: Run, xs: Bytes)
    requires Scanned(r, xs)
    ensures RunBytes(r, xs).ctl == Next
  {
  }

  lemma LeftByte(r: Run, b: Bytes)
    requires Scans(r.st.state) && Stops(r, b) && b != []
    ensures !GoesOver(r.st, b[0])
    ensures !IsScanned(r.st.state, b[0]) && r.st.state.HeaderValue? ==> Dispatch(r.st, b[0]).ctl != Failed
  {
    hide Dispatch, GoesOver;
    StopByte(r, b[0]);
  }

  lemma {:induction false} LoopState(r: Run, xs: Bytes)
    requires Scanned(r, xs)
    ensures RunBytes(r, xs).st.state == r.st.state && Scans(r.st.state)
    decreases |xs|
  {
    hide Dispatch, Resume, GoesOver, RunOk;
    if xs != [] {
      ScannedFirst(r, 0, xs, []);
      LoopState(Resume(r, xs[0]), xs[1..]);
    }
  }

  lemma {:induction false} GeneralNever(s: Parser, b: Bytes)
    requires s.state.HeaderValue? && s.hstate.General?
    ensures !FailsInToken(s, b)
    decreases |b|
  {
    hide Dispatch;
    if b != [] {
      GeneralDispatch(s, b[0]);
      if b[0] != CR && b[0] != LF {
        GeneralNever(s, b[1..]);
      }
    }
  }

  lemma GeneralDispatch(s: Parser, ch: Byte)
    requires s.state.HeaderValue? && s.hstate.General?
    ensures if ch == CR || ch == LF then Dispatch(s, ch).ctl != Failed && Dispatch(s, ch).st.state.HeaderAlmostDone?
            else Dispatch(s, ch) == Go(s)
  {
    hide Lower, TokenChar;
  }

  /** A value nobody looks at that goes on past the limit is found too large. */
  lemma LoopBeyond(r: Run, m: nat, xs: Bytes, b: Bytes)
    requires Scanned(r, xs) && r.st.state.HeaderValue? && RunBytes(r, xs).st.hstate.General?
    requires b != [] && 0 < m <= MAX_HEADER_SIZE <= |xs|
    ensures Counting(r, m, xs + b) > MAX_HEADER_SIZE
  {
    hide Dispatch, Scanned, Counting, FailsInToken;
    LoopState(r, xs);
    GeneralNever(RunBytes(r, xs).st, b);
    LoopFails(r, xs, b);
    LoopCounts(r, m, xs, b);
  }

  // ---------- bodies

  lemma NotCounted(r: Run, n: nat, xs: Bytes)
    requires !ParsingHeader(r.st.state) && n <= MAX_HEADER_SIZE && xs != [] && r.ctl == Next
    ensures Counter(r, n, xs) == Counting(r, n, xs)
  {
    hide Counting;
  }

  // A byte of a body that does not end the message.
  lemma BodyCount(s: Parser, n: nat, ch: Byte)
    requires !Resets(s.state) && !Scans(s.state) && Dispatch(s, ch).ctl != Reexec
    ensures ByteCount(s, n, ch) == n && !GoesOver(s, ch) && !s.state.HeaderValue?
  {
    hide Dispatch;
  }

  lemma BodyFirst(r: Run, n: nat, xs: Bytes)
    requires !ParsingHeader(r.st.state) && !Resets(r.st.state) && n <= MAX_HEADER_SIZE && xs != [] && r.ctl == Next
    requires Dispatch(r.st, xs[0]).ctl != Reexec
    ensures Counter(r, n, xs) == Counter(Resume(r, xs[0]), n, xs[1..])
  {
    hide Dispatch, Resume, ByteCount, GoesOver, FailsInToken;
    BodyCount(r.st, n, xs[0]);
    NotCounted(r, n, xs);
  }

  /** Body bytes that do not end the message are not counted. */
  lemma {:induction false} BodyUncounted(r: Run, n: nat, xs: Bytes, b: Bytes)
    requires InBody(r) && xs != [] && n <= MAX_HEADER_SIZE
    requires |xs| < r.st.contentLength || (|xs| == r.st.contentLength && r.st.state == ChunkData)
    ensures Counter(r, n, xs + b) == Counter(RunBytes(r, xs), n, b)
    decreases |xs|
  {
    hide Resume, Dispatch, Counter;
    BodyDispatch(r.st, xs[0]);
    BodyByte(r, xs[0]);
    BodyFirst(r, n, xs + b);
    assert (xs + b)[1..] == xs[1..] + b;
    if |xs| == 1 {
      assert xs == [xs[0]] && xs[1..] + b == b;
      RunOne(r, xs[0]);
    } else {
      BodyUncounted(Resume(r, xs[0]), n, xs[1..], b);
    }
  }

  lemma {:induction false} EofUncounted(r: Run, n: nat, xs: Bytes)
    requires r.ctl == Next && r.st.state == BodyIdentityEof && n <= MAX_HEADER_SIZE
    ensures Counter(r, n, xs) == n
    decreases |xs|
  {
    hide Resume, Dispatch;
    if xs != [] {
      EofDispatch(r.st, xs[0]);
      EofByte(r, xs[0]);
      BodyFirst(r, n, xs);
      EofUncounted(Resume(r, xs[0]), n, xs[1..]);
    }
  }

  // ---------- several buffers

  /** In none of the calls on the buffers does the counter go beyond the limit. */
  predicate FitsAll(st: Parser, t: Trace, n: nat, bufs: seq<Bytes>)
    decreases |bufs|
  {
    bufs != [] ==>
      var c, e := Counter(Start(st, t), n, bufs[0]), Exec(st, t, bufs[0]);
      c <= MAX_HEADER_SIZE && (e.ctl == Next ==> FitsAll(e.st, e.trace, c, bufs[1..]))
  }
}
