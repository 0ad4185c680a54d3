/** What runs over many bytes of a header value or a body amount to. */
module HttpSkips {
  import opened HttpTypes
  import opened HttpDispatch
  import opened HttpRun

  /** The memchr skip: bytes other than CR and LF do nothing to a value nobody looks at. */
  lemma {:induction false} SkipGeneral(r: Run, xs: Bytes)
    requires r.ctl == Next && r.st.state == HeaderValue && r.st.hstate == General
    requires r.pend.Open?
    requires forall i :: 0 <= i < |xs| ==> xs[i] != CR && xs[i] != LF
    ensures RunBytes(r, xs) == r.(pend := Open(r.pend.kind, r.pend.bytes + xs), used := r.used + |xs|)
    decreases |xs|
  {
    if xs == [] {
      assert r.pend.bytes + xs == r.pend.bytes;
    } else {
      SkipGeneral(Resume(r, xs[0]), xs[1..]);
      assert r.pend.bytes + [xs[0]] + xs[1..] == r.pend.bytes + xs;
    }
  }

  // The marked body bytes of a run, none when no mark is set.
  function BodyBytes(p: Pend): Bytes { if p.Open? && p.kind == BodyData then p.bytes else [] }

  // The parser after n body bytes.
  function CountDown(s: Parser, n: nat): Parser
    requires n <= s.contentLength
  {
    s.(contentLength := s.contentLength - n,
       state := if s.state == ChunkData && s.contentLength == n then ChunkDataAlmostDone else s.state)
  }

  lemma CountDownState(s: Parser, n: nat)
    requires n <= s.contentLength && (s.state == BodyIdentity || s.state == ChunkData)
    requires s.state == BodyIdentity ==> n < s.contentLength
    ensures CountDown(s, n).contentLength == s.contentLength - n && !CountDown(s, n).state.ChunkSizeStart?
    ensures CountDown(s, n) == s.(contentLength := s.contentLength - n,
                                  state := if n < s.contentLength then s.state else ChunkDataAlmostDone)
  {
  }

  ghost predicate InBody(r: Run) {
    r.ctl == Next && 0 < r.st.contentLength < ULLONG_MAX
    && (r.st.state == BodyIdentity || (r.st.state == ChunkData && r.st.flags.chunked))
  }

  lemma BodyByte(r: Run, ch: Byte)
    requires InBody(r) && (r.st.contentLength > 1 || r.st.state == ChunkData)
    ensures Resume(r, ch) == r.(st := CountDown(r.st, 1),
                                pend := Open(BodyData, BodyBytes(r.pend) + [ch]), used := r.used + 1)
  {
    hide Dispatch, Emit;
    BodyDispatch(r.st, ch);
  }

  lemma BodyDispatch(s: Parser, ch: Byte)
    requires 0 < s.contentLength < ULLONG_MAX && (s.state == BodyIdentity || (s.state == ChunkData && s.flags.chunked))
    requires s.contentLength > 1 || s.state == ChunkData
    ensures Dispatch(s, ch) == Outcome(CountDown(s, 1), Mark(BodyData), Next)
  {
    hide DispatchHeader, DispatchStartLine, DispatchChunkSize;
  }

  /** Body bytes counted down one at a time or all at once, short of the end of an identity body. */
  lemma {:induction false} SkipBody(r: Run, xs: Bytes)
    requires InBody(r) && xs != []
    requires |xs| < r.st.contentLength || (|xs| == r.st.contentLength && r.st.state == ChunkData)
    ensures RunBytes(r, xs) == r.(st := CountDown(r.st, |xs|),
                                  pend := Open(BodyData, BodyBytes(r.pend) + xs), used := r.used + |xs|)
    decreases |xs|
  {
    hide Resume;
    BodyByte(r, xs[0]);
    var r1 := Resume(r, xs[0]);
    if |xs| == 1 {
      assert xs == [xs[0]];
      RunOne(r, xs[0]);
    } else {
      SkipBody(r1, xs[1..]);
      assert BodyBytes(r.pend) + [xs[0]] + xs[1..] == BodyBytes(r.pend) + xs;
    }
  }

  lemma EofByte(r: Run, ch: Byte)
    requires r.ctl == Next && r.st.state == BodyIdentityEof
    ensures Resume(r, ch) == r.(pend := Open(BodyData, BodyBytes(r.pend) + [ch]), used := r.used + 1)
  {
    hide Dispatch, Emit;
    EofDispatch(r.st, ch);
  }

  lemma EofDispatch(s: Parser, ch: Byte)
    requires s.state == BodyIdentityEof
    ensures Dispatch(s, ch) == Outcome(s, Mark(BodyData), Next)
  {
    hide DispatchHeader, DispatchStartLine, DispatchChunk;
  }

  lemma {:induction false} SkipEof(r: Run, xs: Bytes)
    requires r.ctl == Next && r.st.state == BodyIdentityEof && xs != []
    ensures RunBytes(r, xs) == r.(pend := Open(BodyData, BodyBytes(r.pend) + xs), used := r.used + |xs|)
    decreases |xs|
  {
    hide Resume;
    EofByte(r, xs[0]);
    var r1 := Resume(r, xs[0]);
    if |xs| == 1 {
      assert xs == [xs[0]];
      RunOne(r, xs[0]);
    } else {
      SkipEof(r1, xs[1..]);
      assert BodyBytes(r.pend) + [xs[0]] + xs[1..] == BodyBytes(r.pend) + xs;
    }
  }
}
