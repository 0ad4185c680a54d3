/** The automaton for the value of a Transfer-Encoding header. */
module HttpTransferEncoding {
  import opened HttpTypes
  import opened HttpDispatch
  import opened HttpRun
  import opened HttpLengths

  function Lowers(v: Bytes): string {
    seq(|v|, i requires 0 <= i < |v| => Lower(v[i]))
  }

  // The word "chunked" in any letter case, and spaces.
  predicate IsChunked(v: Bytes) {
    |v| >= |CHUNKED| && Lowers(v[..|CHUNKED|]) == CHUNKED && forall i :: |CHUNKED| <= i < |v| ==> v[i] == ' '
  }

  // The header state that a beginning of a value deserves.
  function Deserved(v: Bytes): HeaderState {
    if |v| < |CHUNKED| && Lowers(v) <= CHUNKED then MatchingTransferEncodingChunked
    else if IsChunked(v) then TransferEncodingChunked
    else General
  }

  ghost predicate Tracks(h: HeaderState, i: nat, v: Bytes) {
    v != [] && h == Deserved(v) && (h.MatchingTransferEncodingChunked? ==> i == |v| - 1)
  }

  function Stepped(h: HeaderState, i: nat, ch: Byte): HeaderState {
    if h.MatchingTransferEncodingChunked? then Follow(CHUNKED, i + 1, Lower(ch), h, TransferEncodingChunked, General)
    else if h.TransferEncodingChunked? && ch == ' ' then h else General
  }

  lemma LowersSnoc(v: Bytes, ch: Byte)
    ensures Lowers(v + [ch]) == Lowers(v) + [Lower(ch)]
  {
  }

  lemma PrefixGrows(l: string, c: char)
    ensures |CHUNKED| == 7
    ensures l + [c] <= CHUNKED <==> l <= CHUNKED && |l| < 7 && CHUNKED[|l|] == c
  {
    assert l + [c] <= CHUNKED ==> l == CHUNKED[..|l|];
  }

  lemma StepTracks(h: HeaderState, i: nat, v: Bytes, ch: Byte)
    requires Tracks(h, i, v)
    ensures Tracks(Stepped(h, i, ch), if h.MatchingTransferEncodingChunked? then i + 1 else i, v + [ch])
  {
    hide Lower, CHUNKED, Lowers, IsChunked;
    LowersSnoc(v, ch);
    PrefixGrows(Lowers(v), Lower(ch));
    LowersSize(v);
    if |v| < 7 {
      ShortValue(v, ch);
    } else {
      LongValue(v, ch);
    }
  }

  // Later only spaces may follow.
  lemma LongValue(v: Bytes, ch: Byte)
    requires |v| >= |CHUNKED|
    ensures IsChunked(v + [ch]) <==> IsChunked(v) && ch == ' '
  {
    hide Lowers, CHUNKED;
    var w := v + [ch];
    assert w[..|CHUNKED|] == v[..|CHUNKED|];
    assert w[|v|] == ch && forall i :: 0 <= i < |v| ==> w[i] == v[i];
  }

  lemma LowersSize(v: Bytes)
    ensures |Lowers(v)| == |v|
  {
  }

  // A value becomes the word with its seventh letter.
  lemma ShortValue(v: Bytes, ch: Byte)
    requires |v| < 7 && |CHUNKED| == 7
    ensures !IsChunked(v)
    ensures IsChunked(v + [ch]) <==> |v| == 6 && Lowers(v) + [Lower(ch)] <= CHUNKED
  {
    hide Lower, CHUNKED;
    LowersSnoc(v, ch);
    if |v| == 6 {
      assert (v + [ch])[..7] == v + [ch];
    }
  }

  // What the beginning v of a value makes of run r.
  ghost predicate ValueRead(r: Run, r': Run, v: Bytes) {
    && r' == r.(st := r.st.(state := HeaderValue, hstate := r'.st.hstate, index := r'.st.index),
                pend := Open(ValueData, v), used := r.used + |v|)
    && Tracks(r'.st.hstate, r'.st.index, v)
  }

  ghost predicate AtValue(r: Run) {
    r.ctl == Next && r.st.state == HeaderValueDiscardWs && r.st.hstate == TransferEncoding && r.pend == Closed
  }

  predicate InValue(ch: Byte) { ch != CR && ch != LF }

  lemma FirstTracks(ch: Byte)
    ensures Tracks(if Lower(ch) == 'c' then MatchingTransferEncodingChunked else General, 0, [ch])
  {
    hide Lower;
    PrefixGrows([], Lower(ch));
    assert Lowers([ch]) == [] + [Lower(ch)];
    ShortValue([ch], 'a');
  }

  lemma FirstRead(r: Run, ch: Byte)
    requires AtValue(r) && InValue(ch) && ch != ' ' && ch != '\t'
    ensures ValueRead(r, Resume(r, ch), [ch])
  {
    hide Tracks, Lower;
    FirstTracks(ch);
    assert Grow(Open(ValueData, []), ch) == Open(ValueData, [ch]);
  }

  lemma ValueDispatch(s: Parser, ch: Byte)
    requires s.state == HeaderValue && InValue(ch)
    ensures Dispatch(s, ch) == ValueByte(s, ch)
  {
    hide ValueByte;
  }

  lemma NextDispatch(s: Parser, ch: Byte)
    requires s.state == HeaderValue && InValue(ch)
    requires s.hstate.MatchingTransferEncodingChunked? || s.hstate.TransferEncodingChunked? || s.hstate.General?
    ensures Dispatch(s, ch) ==
            Go(s.(hstate := Stepped(s.hstate, s.index, ch),
                  index := if s.hstate.MatchingTransferEncodingChunked? then s.index + 1 else s.index))
  {
    hide Follow, Lower;
  }

  lemma NextRead(r: Run, r': Run, v: Bytes, ch: Byte)
    requires AtValue(r) && ValueRead(r, r', v) && InValue(ch)
    ensures ValueRead(r, Resume(r', ch), v + [ch])
  {
    hide Dispatch, Stepped, IsChunked, Lowers;
    StepTracks(r'.st.hstate, r'.st.index, v, ch);
    NextDispatch(r'.st, ch);
  }

  lemma {:induction false} ValueRun(r: Run, v: Bytes)
    requires AtValue(r) && v != [] && v[0] != ' ' && v[0] != '\t' && forall i :: 0 <= i < |v| ==> InValue(v[i])
    ensures ValueRead(r, RunBytes(r, v), v) && RunBytes(r, v).ctl == Next
    decreases |v|
  {
    hide Resume, Tracks;
    var n := |v| - 1;
    if n == 0 {
      FirstRead(r, v[0]);
      assert v == [v[0]];
      RunOne(r, v[0]);
    } else {
      ValueRun(r, v[..n]);
      NextRead(r, RunBytes(r, v[..n]), v[..n], v[n]);
      RunAppend(r, v[..n], [v[n]]);
      assert v[..n] + [v[n]] == v;
      RunOne(RunBytes(r, v[..n]), v[n]);
    }
  }

  lemma LineEndDispatch(s: Parser)
    ensures s.state == HeaderAlmostDone ==> Dispatch(s, LF) == Go(s.(state := HeaderValueLws))
    ensures s.state == HeaderValueLws ==>
              Dispatch(s, CR) == Again(s.(flags := FinishValue(s.flags, s.hstate)), HeaderFieldStart)
    ensures s.state == HeaderFieldStart ==> Dispatch(s, CR) == Go(s.(state := HeadersAlmostDone))
  {
  }

  lemma LinesEnd(r: Run)
    requires r.ctl == Next && r.st.state == HeaderAlmostDone && r.pend == Closed
    ensures RunBytes(r, [LF] + [CR]) ==
            r.(st := r.st.(flags := FinishValue(r.st.flags, r.st.hstate), state := HeadersAlmostDone),
              used := r.used + 2)
  {
    hide Dispatch, RunBytes, FinishValue, Emit;
    RunAppend(r, [LF], [CR]);
    RunOne(r, LF);
    var s1 := r.st.(state := HeaderValueLws);
    var s2 := s1.(flags := FinishValue(s1.flags, s1.hstate), state := HeaderFieldStart);
    LineEndDispatch(r.st);
    LineEndDispatch(s1);
    LineEndDispatch(s2);
    var r1 := r.(st := s1, used := r.used + 1);
    assert Resume(r, LF) == r1;
    RunOne(r1, CR);
    assert Resume(r1, CR) == Resume(r1.(st := s2), CR);
  }

  /** A message is chunked after a Transfer-Encoding header if and only if the value is the word "chunked",
      in any letter case and with any spaces behind it, or it was chunked before. */
  lemma TransferEncodingExact(r: Run, v: Bytes)
    requires AtValue(r) && v != [] && v[0] != ' ' && v[0] != '\t' && forall i :: 0 <= i < |v| ==> InValue(v[i])
    ensures var r' := RunBytes(r, v + ([CR] + ([LF] + [CR])));
            && r'.ctl == Next && r'.st.state == HeadersAlmostDone && r'.pend == Closed && r'.used == r.used + |v| + 3
            && r'.trace == Emit(r.trace, Data(ValueData, v))
            && r'.st.flags == r.st.flags.(chunked := r.st.flags.chunked || IsChunked(v))
  {
    hide RunBytes, Resume, Emit, Tracks, IsChunked;
    ValueRun(r, v);
    var r1 := RunBytes(r, v);
    ReadState(r, r1, v);
    RunAppend(r, v, [CR] + ([LF] + [CR]));
    RunAppend(r1, [CR], [LF] + [CR]);
    RunOne(r1, CR);
    ValueCr(r1);
    LinesEnd(RunBytes(r1, [CR]));
  }

  lemma ReadState(r: Run, r': Run, v: Bytes)
    requires ValueRead(r, r', v)
    ensures FinishValue(r'.st.flags, r'.st.hstate) == r.st.flags.(chunked := r.st.flags.chunked || IsChunked(v))
  {
    hide Lowers;
  }
}
