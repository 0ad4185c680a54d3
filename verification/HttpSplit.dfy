/** When cutting the input shows: which bytes end a call inside a token that an earlier call has begun. */
module HttpSplit {
  import opened HttpTypes
  import opened HttpDispatch
  import opened HttpInvariant
  import opened HttpRun
  import opened HttpLengths
  import opened HttpMethods
  import opened HttpRequests
  import Urls = HttpUrlRoundTrip

  // ---------- the bytes that break a token

  // Up to byte n the URL goes on, and byte n neither goes on with it nor ends it.
  predicate UrlBreaksAt(s: State, b: Bytes, n: nat) {
    && n < |b| && Urls.Walk(s, b[..n]) != Dead && ParseUrlChar(Urls.Walk(s, b[..n]), b[n]) == Dead
    && !((b[n] == ' ' || b[n] == CR || b[n] == LF) && IsUrlEndState(Urls.Walk(s, b[..n])))
  }

  // Byte n is the first that is no token character, and no colon.
  predicate NameBreaksAt(b: Bytes, n: nat) {
    n < |b| && (forall i :: 0 <= i < n ==> TokenChar(b[i]) != NUL) && TokenChar(b[n]) == NUL && b[n] != ':'
  }

  // Behind digits worth v, byte n is the first that is neither a digit nor a space, and no line end; or it is
  // the digit that makes the number too large.
  predicate LengthBreaksAt(v: nat, b: Bytes, n: nat) {
    && n < |b| && DigitsOrSpaces(b[..n]) && Decimal(v, b[..n]) <= MAX_LENGTH
    && b[n] != CR && b[n] != LF && b[n] != ' '
    && (IsNum(b[n]) ==> Decimal(v, b[..n]) * 10 + Digit(b[n]) > MAX_LENGTH)
  }

  // Of a chunk n bytes are missing, and no CR stands behind them.
  predicate ChunkBreaks(n: nat, b: Bytes) { n < |b| && b[n] != CR }

  /** The bytes b break the token that is open in s: a URL character that may not stand where it does, a
      byte in a header name that is no token character, one in a Content-Length that is no digit or makes it
      too large, or one other than CR behind a chunk. Nothing breaks other values, a reason, or a body of
      another kind. */
  ghost predicate Breaks(s: Parser, b: Bytes) {
    match OpenToken(s.state)
    case NoToken => false
    case In(k) =>
      match k
      case UrlData => exists n: nat :: UrlBreaksAt(s.state, b, n)
      case StatusData => false
      case FieldData => exists n: nat :: NameBreaksAt(b, n)
      case ValueData => s.hstate.ContentLength? && exists n: nat :: LengthBreaksAt(s.contentLength, b, n)
      case BodyData => (s.state.ChunkData? || s.state.ChunkDataAlmostDone?) && ChunkBreaks(s.contentLength, b)
  }

  // ---------- URLs

  lemma UrlByte(s: Parser, ch: Byte)
    requires IsUrlState(s.state)
    ensures var next, o := ParseUrlChar(s.state, ch), Dispatch(s, ch);
            if next != Dead then o == Go(s.(state := next)) && IsUrlState(next)
            else if (ch == ' ' || ch == CR || ch == LF) && IsUrlEndState(s.state) then
              o.ctl == Next && OpenToken(o.st.state) == NoToken
            else o.ctl == Failed
  {
    hide ParseUrlChar;
    UrlNoHeader(s.state);
    LineEndsUrl(s.state, ch);
    UrlCharStays(s.state, ch);
  }

  lemma LineEndsUrl(s: State, ch: Byte)
    ensures ch == ' ' || ch == CR || ch == LF ==> ParseUrlChar(s, ch) == Dead
  {
  }

  lemma UrlUnroll(s: State, b: Bytes, n: nat)
    requires s != Dead
    ensures UrlBreaksAt(s, b, 0) <==> b != [] && ParseUrlChar(s, b[0]) == Dead
                                       && !((b[0] == ' ' || b[0] == CR || b[0] == LF) && IsUrlEndState(s))
    ensures b != [] ==> (UrlBreaksAt(s, b, n + 1) <==> UrlBreaksAt(ParseUrlChar(s, b[0]), b[1..], n))
  {
    hide ParseUrlChar, IsUrlEndState;
    if n + 1 <= |b| {
      assert b[..n + 1][0] == b[0] && b[..n + 1][1..] == b[1..][..n];
    }
  }

  lemma {:induction false} UrlBreaks(s: Parser, b: Bytes)
    requires IsUrlState(s.state)
    ensures FailsInToken(s, b) <==> exists n: nat :: UrlBreaksAt(s.state, b, n)
    decreases |b|
  {
    hide ParseUrlChar, Dispatch, UrlBreaksAt, IsUrlEndState, IsUrlState;
    UrlOpen(s.state);
    if b == [] {
      NoUrlByte(s.state);
    } else {
      UrlByte(s, b[0]);
      var next := ParseUrlChar(s.state, b[0]);
      UrlUnroll(s.state, b, 0);
      if next != Dead {
        UrlBreaks(s.(state := next), b[1..]);
        if n: nat :| UrlBreaksAt(next, b[1..], n) {
          UrlUnroll(s.state, b, n);
        }
        if n: nat :| UrlBreaksAt(s.state, b, n) {
          UrlUnroll(s.state, b, n - 1);
        }
      } else {
        if n: nat :| UrlBreaksAt(s.state, b, n) && n > 0 {
          UrlUnroll(s.state, b, n - 1);
          DeadBreaks(b[1..], n - 1);
        }
        assert UrlBreaksAt(s.state, b, 0) <==> FailsInToken(s, b);
      }
    }
  }

  lemma UrlOpen(s: State)
    requires IsUrlState(s)
    ensures s != Dead && OpenToken(s) == In(UrlData)
  {
  }

  lemma NoUrlByte(s: State)
    ensures forall n: nat :: !UrlBreaksAt(s, [], n)
  {
  }

  lemma DeadBreaks(b: Bytes, n: nat)
    ensures !UrlBreaksAt(Dead, b, n)
  {
    if n < |b| {
      DeadStays(b[..n]);
    }
  }

  // ---------- header names

  lemma NameByte(s: Parser, ch: Byte)
    requires Inv(s) && s.state == HeaderField
    ensures var o := Dispatch(s, ch);
            if TokenChar(ch) != NUL then o.ctl == Next && o.st.state == HeaderField && Inv(o.st)
            else if ch == ':' then o.ctl == Next && OpenToken(o.st.state) == NoToken
            else o.ctl == Failed
  {
    hide Inv, TokenChar, NameStep;
    DispatchGood(s, ch);
    InName(s);
  }

  lemma InName(s: Parser)
    requires Inv(s) && s.state == HeaderField
    ensures IsNameState(s.hstate)
  {
  }

  lemma {:induction false} NameBreaks(s: Parser, b: Bytes)
    requires Inv(s) && s.state == HeaderField
    ensures FailsInToken(s, b) <==> exists n: nat :: NameBreaksAt(b, n)
    decreases |b|
  {
    hide Inv, Dispatch, TokenChar;
    assert OpenToken(s.state) == In(FieldData);
    if b != [] {
      NameByte(s, b[0]);
      if TokenChar(b[0]) != NUL {
        NameBreaks(Dispatch(s, b[0]).st, b[1..]);
        if n: nat :| NameBreaksAt(b[1..], n) {
          assert NameBreaksAt(b, n + 1);
        }
        if n: nat :| NameBreaksAt(b, n) {
          assert NameBreaksAt(b[1..], n - 1);
        }
      } else {
        assert NameBreaksAt(b, 0) <==> b[0] != ':';
      }
    }
  }

  // ---------- values

  lemma LengthByteOk(s: Parser, ch: Byte)
    requires Inv(s) && s.state == HeaderValue && s.hstate.ContentLength?
    ensures var o := Dispatch(s, ch);
            if ch == CR || ch == LF then o.ctl != Failed && !(o.ctl == Next && OpenToken(o.st.state).In?)
            else if ch == ' ' then o == Go(s)
            else if IsNum(ch) && s.contentLength * 10 + Digit(ch) <= MAX_LENGTH then
              o == Go(s.(contentLength := s.contentLength * 10 + Digit(ch))) && Inv(o.st)
            else o.ctl == Failed
  {
    hide Inv;
    DispatchGood(s, ch);
    LengthInRange(s);
    if IsNum(ch) {
      LengthDispatch(s, ch);
    }
  }

  lemma LengthInRange(s: Parser)
    requires Inv(s) && s.state == HeaderValue && s.hstate.ContentLength?
    ensures s.contentLength <= MAX_LENGTH
  {
  }

  // The number after one more byte.
  function More(v: nat, ch: Byte): nat { if IsNum(ch) then v * 10 + Digit(ch) else v }

  lemma LengthUnroll(v: nat, b: Bytes, n: nat)
    requires v <= MAX_LENGTH && b != []
    ensures LengthBreaksAt(v, b, 0) <==> b[0] != CR && b[0] != LF && b[0] != ' '
                                         && (IsNum(b[0]) ==> v * 10 + Digit(b[0]) > MAX_LENGTH)
    ensures LengthBreaksAt(v, b, n + 1) ==> IsNum(b[0]) || b[0] == ' '
    ensures IsNum(b[0]) || b[0] == ' ' ==> (LengthBreaksAt(v, b, n + 1) <==> LengthBreaksAt(More(v, b[0]), b[1..], n))
  {
    if n + 1 <= |b| {
      var w := b[..n + 1];
      assert w[0] == b[0] && w[1..] == b[1..][..n];
      if (IsNum(b[0]) || b[0] == ' ') && DigitsOrSpaces(w[1..]) {
        forall i | 0 <= i < |w| ensures IsNum(w[i]) || w[i] == ' ' {
          assert i > 0 ==> w[i] == w[1..][i - 1];
        }
      }
    }
  }

  lemma {:induction false} LengthBreaks(s: Parser, b: Bytes)
    requires Inv(s) && s.state == HeaderValue && s.hstate.ContentLength?
    ensures FailsInToken(s, b) <==> exists n: nat :: LengthBreaksAt(s.contentLength, b, n)
    decreases |b|
  {
    hide Inv, Dispatch, LengthBreaksAt;
    var v := s.contentLength;
    LengthInRange(s);
    if b == [] {
      NoLengthByte(v);
    } else {
      var ch := b[0];
      LengthByteOk(s, ch);
      LengthUnroll(v, b, 0);
      if ch == ' ' || (IsNum(ch) && More(v, ch) <= MAX_LENGTH) {
        LengthBreaks(s.(contentLength := More(v, ch)), b[1..]);
        if n: nat :| LengthBreaksAt(More(v, ch), b[1..], n) {
          LengthUnroll(v, b, n);
        }
        if n: nat :| LengthBreaksAt(v, b, n) {
          LengthUnroll(v, b, n - 1);
        }
      } else if IsNum(ch) {
        assert LengthBreaksAt(v, b, 0) && FailsInToken(s, b);
      } else {
        if n: nat :| LengthBreaksAt(v, b, n) && n > 0 {
          LengthUnroll(v, b, n - 1);
        }
        assert LengthBreaksAt(v, b, 0) <==> FailsInToken(s, b);
      }
    }
  }

  lemma NoLengthByte(v: nat)
    ensures forall n: nat :: !LengthBreaksAt(v, [], n)
  {
  }

  lemma ValueGoesOn(s: Parser, ch: Byte)
    requires Inv(s) && s.state == HeaderValue && !s.hstate.ContentLength?
    ensures var o := Dispatch(s, ch);
            o.ctl != Failed && (o.ctl == Next && OpenToken(o.st.state).In? ==>
                                  Inv(o.st) && o.st.state == HeaderValue && !o.st.hstate.ContentLength?)
  {
    hide Inv, ValueByte;
    DispatchGood(s, ch);
    ValueFine(s, ch);
  }

  lemma ValueFine(s: Parser, ch: Byte)
    requires Inv(s) && s.state == HeaderValue && !s.hstate.ContentLength?
    ensures var o := ValueByte(s, ch); o.ctl == Next && o.st.state == HeaderValue && !o.st.hstate.ContentLength?
  {
    hide Lower, TokenChar, CharAt;
  }

  lemma {:induction false} ValueNever(s: Parser, b: Bytes)
    requires Inv(s) && s.state == HeaderValue && !s.hstate.ContentLength?
    ensures !FailsInToken(s, b)
    decreases |b|
  {
    hide Inv, Dispatch;
    if b != [] {
      ValueGoesOn(s, b[0]);
      var o := Dispatch(s, b[0]);
      if o.ctl == Next && OpenToken(o.st.state).In? {
        ValueNever(o.st, b[1..]);
      }
    }
  }

  // ---------- reasons and bodies

  lemma ReasonGoesOn(s: Parser, ch: Byte)
    requires s.state == ResStatus
    ensures var o := Dispatch(s, ch); o == Go(s) || (o.ctl == Next && OpenToken(o.st.state) == NoToken)
  {
    hide DispatchHeader, DispatchBody, DispatchUrl, DispatchStart;
  }

  lemma {:induction false} ReasonNever(s: Parser, b: Bytes)
    requires s.state == ResStatus
    ensures !FailsInToken(s, b)
    decreases |b|
  {
    hide Dispatch;
    if b != [] {
      ReasonGoesOn(s, b[0]);
      if Dispatch(s, b[0]) == Go(s) {
        ReasonNever(s, b[1..]);
      }
    }
  }

  lemma BodyGoesOn(s: Parser, ch: Byte)
    requires Inv(s) && (s.state == BodyIdentity || s.state == BodyIdentityEof)
    ensures var o := Dispatch(s, ch);
            o.ctl != Failed && (o.ctl == Next ==> Inv(o.st) && o.st.state == s.state)
  {
    hide Inv;
    DispatchGood(s, ch);
    BodyLength(s);
  }

  lemma BodyLength(s: Parser)
    requires Inv(s)
    ensures s.state == BodyIdentity ==> 0 < s.contentLength < ULLONG_MAX
  {
  }

  lemma {:induction false} BodyNever(s: Parser, b: Bytes)
    requires Inv(s) && (s.state == BodyIdentity || s.state == BodyIdentityEof)
    ensures !FailsInToken(s, b)
    decreases |b|
  {
    hide Inv, Dispatch;
    if b != [] {
      BodyGoesOn(s, b[0]);
      if Dispatch(s, b[0]).ctl == Next {
        BodyNever(Dispatch(s, b[0]).st, b[1..]);
      }
    }
  }

  lemma ChunkByte(s: Parser, ch: Byte)
    requires Inv(s) && (s.state == ChunkData || s.state == ChunkDataAlmostDone)
    ensures var o := Dispatch(s, ch);
            if s.state == ChunkData then
              && o.ctl == Next && Inv(o.st) && (o.st.state == ChunkData || o.st.state == ChunkDataAlmostDone)
              && s.contentLength > 0 && o.st.contentLength == s.contentLength - 1
            else
              && s.contentLength == 0
              && if ch == CR then o.ctl == Next && OpenToken(o.st.state) == NoToken else o.ctl == Failed
  {
    hide Inv;
    DispatchGood(s, ch);
    ChunkLength(s);
  }

  lemma ChunkLength(s: Parser)
    requires Inv(s) && (s.state == ChunkData || s.state == ChunkDataAlmostDone)
    ensures s.flags.chunked && (s.state == ChunkData ==> 0 < s.contentLength <= MAX_CHUNK)
    ensures s.state == ChunkDataAlmostDone ==> s.contentLength == 0
  {
  }

  lemma {:induction false} ChunkFails(s: Parser, b: Bytes)
    requires Inv(s) && (s.state == ChunkData || s.state == ChunkDataAlmostDone)
    ensures FailsInToken(s, b) <==> ChunkBreaks(s.contentLength, b)
    decreases |b|
  {
    hide Inv, Dispatch;
    assert OpenToken(s.state) == In(BodyData);
    if b != [] {
      ChunkByte(s, b[0]);
      if s.state == ChunkData {
        ChunkFails(Dispatch(s, b[0]).st, b[1..]);
      }
    }
  }

  // ---------- all tokens

  /** The bytes that make a call fail inside the open token are those that break it. */
  lemma FailsExact(s: Parser, b: Bytes)
    requires Inv(s)
    ensures FailsInToken(s, b) <==> Breaks(s, b)
  {
    hide Inv, UrlBreaksAt, NameBreaksAt, LengthBreaksAt, ChunkBreaks, Dispatch;
    if IsUrlState(s.state) {
      UrlOpen(s.state);
      UrlBreaks(s, b);
    } else if s.state == HeaderField {
      NameBreaks(s, b);
    } else if s.state == HeaderValue {
      if s.hstate.ContentLength? {
        LengthBreaks(s, b);
      } else {
        ValueNever(s, b);
      }
    } else if s.state == ResStatus {
      ReasonNever(s, b);
    } else if s.state == ChunkData || s.state == ChunkDataAlmostDone {
      ChunkFails(s, b);
    } else if s.state == BodyIdentity || s.state == BodyIdentityEof {
      BodyNever(s, b);
    }
  }

  /** Cutting a buffer in two changes neither the parser nor the number of bytes consumed; it changes the
      callbacks if and only if the first part ends inside a token of which it has bytes, and the second part
      breaks that token. */
  lemma SplitExact(st: Parser, t: Trace, a: Bytes, b: Bytes)
    requires Inv(st) && a != [] && b != []
    requires Exec(st, t, a).ctl == Next
    ensures Exec(st, t, a).used == |a|
    ensures var first := Exec(st, t, a);
            var second := Exec(first.st, first.trace, b);
            var whole := Exec(st, t, a + b);
            && second.st == whole.st && second.ctl == whole.ctl
            && first.used + second.used == whole.used
            && (second.trace == whole.trace <==> !(EndsInToken(st, t, a) && Breaks(first.st, b)))
  {
    hide Inv, Exec, EndsInToken, FailsInToken, Breaks;
    SplitInvariance(st, t, a, b);
    ExecKeepsInv(st, t, a);
    FailsExact(Exec(st, t, a).st, b);
  }

  // ---------- an input

  const GET_X: Bytes := ['G', 'E', 'T', ' ', '/', 'x']
  const DEL: Bytes := ['\U{7F}']

  // The run on the first part.
  lemma UrlBegun(st: Parser, t: Trace) returns (r: Run)
    requires Waiting(st)
    ensures r == RunBytes(Start(st, t), GET_X) && r.ctl == Next && r.st.state == ReqPath
    ensures r.pend == Open(UrlData, ['/', 'x'])
  {
    hide RunBytes, Inv, Dispatch, Start, Resume;
    StartWaiting(st, t);
    var word, url := ['G', 'E', 'T'], ['/', 'x'];
    assert GET_X == word + [' '] + url;
    MethodExact(Start(st, t), word, GET);
    RunAppend(Start(st, t), word + [' '], url);
    PathOk();
    r := UrlText(RunBytes(Start(st, t), word + [' ']), url);
  }

  lemma PathOk()
    ensures UrlOk(GET, ['/', 'x']) && Urls.Walk(UrlStart(GET), ['/', 'x']) == ReqPath
  {
    assert ['/', 'x'][1..] == ['x'] && ['x'][1..] == [];
  }

  lemma DelBreaks(s: Parser)
    requires s.state == ReqPath
    ensures Breaks(s, DEL)
  {
    assert UrlBreaksAt(ReqPath, DEL, 0);
  }

  /** The exception is real: a parser that has just been initialised and is given "GET /x" and then DEL reports
      a piece of a URL; given both at once it reports none. */
  lemma SplitShows(answerNoBody: bool)
    ensures var st := Fresh(ParserType.Request, answerNoBody);
            && Inv(st) && Exec(st, [], GET_X).ctl == Next
            && var first := Exec(st, [], GET_X);
               Exec(first.st, first.trace, DEL).trace != Exec(st, [], GET_X + DEL).trace
  {
    hide Exec, Inv, RunBytes, Breaks;
    var st := Fresh(ParserType.Request, answerNoBody);
    FreshWaits(answerNoBody);
    var r := UrlBegun(st, []);
    AfterCall(st, [], GET_X);
    DelBreaks(r.st);
    SplitExact(st, [], GET_X, DEL);
  }

  lemma AfterCall(st: Parser, t: Trace, a: Bytes)
    requires st.errno == Ok && a != [] && RunBytes(Start(st, t), a).ctl == Next
    ensures Exec(st, t, a).st == RunBytes(Start(st, t), a).st && Exec(st, t, a).ctl == Next
    ensures EndsInToken(st, t, a) <==> RunBytes(Start(st, t), a).pend.Open?
  {
    hide RunBytes;
  }
}
