/** Content-Length values and chunk sizes: what is accepted, and that it is stored exactly. */
module HttpLengths {
  import opened HttpTypes
  import opened HttpDispatch
  import opened HttpInvariant
  import opened HttpRun

  // The number a string of digits and spaces stands for when it follows digits worth v.
  function Decimal(v: nat, ds: Bytes): nat
    requires DigitsOrSpaces(ds)
    decreases |ds|
  {
    if ds == [] then v
    else Decimal(if ds[0] == ' ' then v else v * 10 + Digit(ds[0]), ds[1..])
  }

  predicate DigitsOrSpaces(ds: Bytes) { forall i :: 0 <= i < |ds| ==> IsNum(ds[i]) || ds[i] == ' ' }

  lemma {:induction false} DecimalGrows(v: nat, ds: Bytes)
    requires DigitsOrSpaces(ds)
    ensures Decimal(v, ds) >= v
    decreases |ds|
  {
    if ds != [] {
      DecimalGrows(if ds[0] == ' ' then v else v * 10 + Digit(ds[0]), ds[1..]);
    }
  }

  ghost predicate InLength(r: Run) {
    r.ctl == Next && r.st.state == HeaderValue && r.st.hstate == HeaderState.ContentLength && r.pend.Open?
    && r.st.contentLength <= MAX_LENGTH
  }

  lemma LengthByte(r: Run, ch: Byte)
    requires InLength(r) && (IsNum(ch) || ch == ' ')
    ensures var v := if ch == ' ' then r.st.contentLength else r.st.contentLength * 10 + Digit(ch);
            var r' := Resume(r, ch);
            if v <= MAX_LENGTH then
              r' == r.(st := r.st.(contentLength := v), pend := Grow(r.pend, ch), used := r.used + 1)
            else r'.ctl == Failed && r'.st.errno == InvalidContentLength
  {
    hide Dispatch;
    LengthDispatch(r.st, ch);
  }

  lemma LengthDispatch(s: Parser, ch: Byte)
    requires s.state == HeaderValue && s.hstate == HeaderState.ContentLength && s.contentLength <= MAX_LENGTH
    requires IsNum(ch) || ch == ' '
    ensures var v := if ch == ' ' then s.contentLength else s.contentLength * 10 + Digit(ch);
            Dispatch(s, ch) == if v <= MAX_LENGTH then Go(s.(contentLength := v)) else Fail(s, InvalidContentLength)
  {
    hide NameStep;
  }

  /** Inside a Content-Length value the digits are accepted if and only if the number they make is at
      most 18446744073709551609, and then that very number is stored. */
  lemma {:induction false} LengthRun(r: Run, ds: Bytes)
    requires InLength(r) && DigitsOrSpaces(ds)
    ensures var r', v := RunBytes(r, ds), Decimal(r.st.contentLength, ds);
            if v <= MAX_LENGTH then
              r' == r.(st := r.st.(contentLength := v), pend := Open(r.pend.kind, r.pend.bytes + ds),
                       used := r.used + |ds|)
            else r'.ctl == Failed && r'.st.errno == InvalidContentLength
    decreases |ds|
  {
    hide Resume, Dispatch;
    if ds == [] {
      assert r.pend.bytes + ds == r.pend.bytes;
    } else {
      LengthByte(r, ds[0]);
      var v := if ds[0] == ' ' then r.st.contentLength else r.st.contentLength * 10 + Digit(ds[0]);
      DecimalGrows(v, ds[1..]);
      if v <= MAX_LENGTH {
        LengthRun(Resume(r, ds[0]), ds[1..]);
        assert r.pend.bytes + [ds[0]] + ds[1..] == r.pend.bytes + ds;
      } else {
        StaysEnded(Resume(r, ds[0]), ds[1..]);
      }
    }
  }

  lemma FirstDigit(r: Run, ch: Byte)
    requires r.ctl == Next && r.st.state == HeaderValueDiscardWs && r.st.hstate == HeaderState.ContentLength
    requires r.pend == Closed && IsNum(ch)
    ensures Resume(r, ch) == r.(st := r.st.(state := HeaderValue, index := 0, contentLength := Digit(ch)),
                                pend := Open(ValueData, [ch]), used := r.used + 1)
  {
    hide Dispatch;
    FirstDigitDispatch(r.st, ch);
    assert Grow(Open(ValueData, []), ch) == Open(ValueData, [ch]);
  }

  lemma FirstDigitDispatch(s: Parser, ch: Byte)
    requires s.state == HeaderValueDiscardWs && s.hstate == HeaderState.ContentLength && IsNum(ch)
    ensures Dispatch(s, ch) == Outcome(s.(state := HeaderValue, index := 0, contentLength := Digit(ch)),
                                       Mark(ValueData), Next)
  {
    hide NameStep;
  }

  lemma ValueCr(r: Run)
    requires r.ctl == Next && r.st.state == HeaderValue && r.pend.Open? && r.pend.kind == ValueData
    ensures Resume(r, CR) == r.(st := r.st.(state := HeaderAlmostDone), pend := Closed,
                                trace := Emit(r.trace, Data(ValueData, r.pend.bytes)), used := r.used + 1)
  {
    hide Dispatch, Emit;
    CrDispatch(r.st);
  }

  lemma CrDispatch(s: Parser)
    requires s.state == HeaderValue
    ensures Dispatch(s, CR) == Outcome(s.(state := HeaderAlmostDone), Flush(ValueData), Next)
  {
    hide NameStep, ValueByte;
  }

  lemma WholeLength(r: Run, ds: Bytes)
    requires r.ctl == Next && r.st.state == HeaderValueDiscardWs && r.st.hstate == HeaderState.ContentLength
    requires r.pend == Closed
    requires ds != [] && IsNum(ds[0]) && DigitsOrSpaces(ds)
    ensures var r', v := RunBytes(r, ds), Decimal(0, ds);
            if v <= MAX_LENGTH then
              r' == r.(st := r.st.(state := HeaderValue, index := 0, contentLength := v),
                       pend := Open(ValueData, ds), used := r.used + |ds|)
            else r'.ctl == Failed && r'.st.errno == InvalidContentLength
  {
    hide Resume, RunBytes, Decimal, DigitsOrSpaces;
    DecimalFirst(ds);
    FirstDigit(r, ds[0]);
    LengthRun(Resume(r, ds[0]), ds[1..]);
    assert [ds[0]] + ds[1..] == ds;
    RunAppend(r, [ds[0]], ds[1..]);
    RunOne(r, ds[0]);
  }

  lemma DecimalFirst(ds: Bytes)
    requires ds != [] && IsNum(ds[0]) && DigitsOrSpaces(ds)
    ensures DigitsOrSpaces(ds[1..]) && Decimal(0, ds) == Decimal(Digit(ds[0]), ds[1..])
  {
  }

  /** A Content-Length value: a digit, then digits and spaces, then the end of the line. It is accepted if
      and only if the number is at most 18446744073709551609; the parser then holds that number, which is
      never the marker for a missing length, and the application is given the text. */
  lemma ContentLengthExact(r: Run, ds: Bytes)
    requires r.ctl == Next && r.st.state == HeaderValueDiscardWs && r.st.hstate == HeaderState.ContentLength
    requires r.pend == Closed
    requires ds != [] && IsNum(ds[0]) && DigitsOrSpaces(ds)
    ensures var r', v := RunBytes(r, ds + [CR]), Decimal(0, ds);
            && (r'.ctl == Next <==> v <= 18446744073709551609)
            && (r'.ctl == Next ==>
                  && r'.st.contentLength == v != ULLONG_MAX && r'.st.state == HeaderAlmostDone
                  && r'.trace == Emit(r.trace, Data(ValueData, ds)) && r'.used == r.used + |ds| + 1)
            && (r'.ctl != Next ==> r'.ctl == Failed && r'.st.errno == InvalidContentLength)
  {
    hide Resume, Emit, RunBytes;
    WholeLength(r, ds);
    RunAppend(r, ds, [CR]);
    var r2 := RunBytes(r, ds);
    if Decimal(0, ds) <= MAX_LENGTH {
      RunOne(r2, CR);
      ValueCr(r2);
    } else {
      StaysEnded(r2, [CR]);
    }
  }

  // ---------- chunk sizes

  // The number hexadecimal digits stand for when they follow digits worth v.
  function Hexadecimal(v: nat, hs: Bytes): nat
    requires HexDigits(hs)
    decreases |hs|
  {
    if hs == [] then v else Hexadecimal(v * 16 + Unhex(hs[0]), hs[1..])
  }

  // What the parser takes for hexadecimal digits: 0-9, a-f, A-F, and any byte from 128 up.
  predicate HexDigits(hs: Bytes) { forall i :: 0 <= i < |hs| ==> Unhex(hs[i]) != -1 }

  lemma {:induction false} HexadecimalGrows(v: nat, hs: Bytes)
    requires HexDigits(hs)
    ensures Hexadecimal(v, hs) >= v
    decreases |hs|
  {
    if hs != [] {
      HexadecimalGrows(v * 16 + Unhex(hs[0]), hs[1..]);
    }
  }

  ghost predicate InSize(r: Run) {
    r.ctl == Next && r.st.state == ChunkSize && r.st.flags.chunked && r.pend == Closed
    && r.st.contentLength <= MAX_CHUNK
  }

  lemma SizeDispatch(s: Parser, ch: Byte)
    requires s.state == ChunkSize && s.flags.chunked && s.contentLength <= MAX_CHUNK && Unhex(ch) != -1
    ensures var v := s.contentLength * 16 + Unhex(ch);
            Dispatch(s, ch) == if v <= MAX_CHUNK then Go(s.(contentLength := v)) else Fail(s, InvalidContentLength)
  {
  }

  lemma SizeByte(r: Run, ch: Byte)
    requires InSize(r) && Unhex(ch) != -1
    ensures var v := r.st.contentLength * 16 + Unhex(ch);
            var r' := Resume(r, ch);
            if v <= MAX_CHUNK then r' == r.(st := r.st.(contentLength := v), used := r.used + 1)
            else r'.ctl == Failed && r'.st.errno == InvalidContentLength
  {
    hide Dispatch, Unhex;
    SizeDispatch(r.st, ch);
  }

  lemma {:induction false} SizeRun(r: Run, hs: Bytes)
    requires InSize(r) && HexDigits(hs)
    ensures var r', v := RunBytes(r, hs), Hexadecimal(r.st.contentLength, hs);
            if v <= MAX_CHUNK then r' == r.(st := r.st.(contentLength := v), used := r.used + |hs|)
            else r'.ctl == Failed && r'.st.errno == InvalidContentLength
    decreases |hs|
  {
    hide Resume, Dispatch, Unhex;
    if hs != [] {
      SizeByte(r, hs[0]);
      var v := r.st.contentLength * 16 + Unhex(hs[0]);
      HexadecimalGrows(v, hs[1..]);
      if v <= MAX_CHUNK {
        SizeRun(Resume(r, hs[0]), hs[1..]);
      } else {
        StaysEnded(Resume(r, hs[0]), hs[1..]);
      }
    }
  }

  lemma FirstHexDigit(r: Run, ch: Byte)
    requires r.ctl == Next && r.st.state == ChunkSizeStart && r.st.flags.chunked && r.pend == Closed
    requires Unhex(ch) != -1
    ensures Resume(r, ch) == r.(st := r.st.(state := ChunkSize, contentLength := Unhex(ch)), used := r.used + 1)
  {
    hide Dispatch;
    FirstHexDispatch(r.st, ch);
  }

  lemma FirstHexDispatch(s: Parser, ch: Byte)
    requires s.state == ChunkSizeStart && s.flags.chunked && Unhex(ch) != -1
    ensures Dispatch(s, ch) == Go(s.(state := ChunkSize, contentLength := Unhex(ch)))
  {
  }

  /** The digits of a chunk size are accepted if and only if the number they make is at most 2^64 - 17,
      and then that very number is stored. */
  lemma ChunkSizeExact(r: Run, hs: Bytes)
    requires r.ctl == Next && r.st.state == ChunkSizeStart && r.st.flags.chunked && r.pend == Closed
    requires hs != [] && HexDigits(hs)
    ensures var r', v := RunBytes(r, hs), Hexadecimal(0, hs);
            && (r'.ctl == Next <==> v <= TWO_64 - 17)
            && (r'.ctl == Next ==>
                  r' == r.(st := r.st.(state := ChunkSize, contentLength := v), used := r.used + |hs|)
                  && v != ULLONG_MAX)
            && (r'.ctl != Next ==> r'.ctl == Failed && r'.st.errno == InvalidContentLength)
  {
    hide Resume, Unhex;
    FirstHexDigit(r, hs[0]);
    UnhexRange(hs[0]);
    SizeRun(Resume(r, hs[0]), hs[1..]);
  }
}
