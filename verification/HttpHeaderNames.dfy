/** The header-name automaton recognises exactly the names it is built for. */
module HttpHeaderNames {
  import opened HttpTypes
  import opened HttpDispatch
  import opened HttpInvariant
  import opened HttpRun

  predicate IsTokenString(name: Bytes) { forall i :: 0 <= i < |name| ==> TokenChar(name[i]) != NUL }

  // The separators of section 2.2 of RFC 2616.
  const SEPARATORS := "()<>@,;:\\\"/[]?={} \t"

  /** The table of token characters holds exactly the characters that are neither controls nor separators,
      each with its lower-case form. */
  lemma TokenExact(ch: Byte)
    ensures TokenChar(ch) != NUL <==> 32 <= ch as int < 127 && ch !in SEPARATORS
    ensures TokenChar(ch) != NUL ==> TokenChar(ch) == if IsAlpha(ch) then Lower(ch) else ch
  {
    TokenSigns(ch);
    LowerLetters(ch);
  }

  lemma TokenSigns(ch: Byte)
    ensures TokenChar(ch) != NUL <==> 32 <= ch as int < 127 && ch !in SEPARATORS
  {
    hide Lower, SEPARATORS;
    Separators(ch);
  }

  lemma Separators(ch: Byte)
    ensures ch in SEPARATORS <==>
              || ch == '(' || ch == ')' || ch == '<' || ch == '>' || ch == '@' || ch == ',' || ch == ';' || ch == ':'
              || ch == '\\' || ch == '"' || ch == '/' || ch == '[' || ch == ']' || ch == '?' || ch == '=' || ch == '{'
              || ch == '}' || ch == ' ' || ch == '\t'
  {
  }

  lemma LowerLetters(ch: Byte)
    ensures IsAlpha(ch) <==> 'a' <= ch <= 'z' || 'A' <= ch <= 'Z'
    ensures 'A' <= ch <= 'Z' ==> Lower(ch) as int == ch as int + 32
    ensures 'a' <= ch <= 'z' ==> Lower(ch) == ch
  {
  }

  function Lowered(name: Bytes): string {
    seq(|name|, i requires 0 <= i < |name| => TokenChar(name[i]))
  }

  // The header state that a lower-cased, nonempty beginning of a name deserves.
  function Classify(l: string): HeaderState {
    if l <= CONNECTION then
      (if |l| == 1 then C else if |l| == 2 then CO else if |l| == 3 then CON
       else if |l| == |CONNECTION| then Connection else MatchingConnection)
    else if l <= CONTENT_LENGTH then (if |l| == |CONTENT_LENGTH| then ContentLength else MatchingContentLength)
    else if l <= PROXY_CONNECTION then (if |l| == |PROXY_CONNECTION| then Connection else MatchingProxyConnection)
    else if l <= TRANSFER_ENCODING then
      (if |l| == |TRANSFER_ENCODING| then TransferEncoding else MatchingTransferEncoding)
    else if l <= UPGRADE then (if |l| == |UPGRADE| then Upgrade else MatchingUpgrade)
    else General
  }

  // The automaton is where the beginning l of a name should have taken it.
  ghost predicate Tracks(h: HeaderState, i: nat, l: string) {
    l != [] && h == Classify(l) && (CountsIndex(h) ==> i == |l| - 1)
  }

  lemma PrefixStep(lit: string, l: string, c: char)
    ensures l + [c] <= lit <==> (l <= lit && |l| < |lit| && lit[|l|] == c)
  {
    if l + [c] <= lit {
      assert l == lit[..|l|];
    }
  }

  /** The literals begin differently, except that two share "con". */
  lemma LiteralsDiffer(l: string)
    requires l != []
    ensures l <= CONNECTION || l <= CONTENT_LENGTH ==> l[0] == 'c'
    ensures l <= PROXY_CONNECTION ==> l[0] == 'p'
    ensures l <= TRANSFER_ENCODING ==> l[0] == 't'
    ensures l <= UPGRADE ==> l[0] == 'u'
    ensures l <= CONNECTION && |l| > 3 ==> l[3] == 'n'
    ensures l <= CONTENT_LENGTH && |l| > 3 ==> l[3] == 't'
    ensures |l| <= 3 ==> (l <= CONNECTION <==> l <= CONTENT_LENGTH)
  {
  }

  lemma LiteralFacts()
    ensures |CONNECTION| == 10 && CONNECTION[1] == 'o' && CONNECTION[2] == 'n' && CONNECTION[3] == 'n'
    ensures |CONTENT_LENGTH| == 14 && CONTENT_LENGTH[3] == 't'
    ensures |PROXY_CONNECTION| == 16 && |TRANSFER_ENCODING| == 17 && |UPGRADE| == 7
  {
  }

  lemma FirstTracks(c: Byte)
    requires c != NUL
    ensures Tracks(FirstNameState(c), 0, [c])
  {
    LiteralsDiffer([c]);
  }

  lemma SpaceIsNoToken(ch: Byte)
    requires TokenChar(ch) != NUL
    ensures ch != ' ' && ch != CR && ch != LF && ch != ':'
  {
  }

  lemma NameStepTracks(h: HeaderState, i: nat, l: string, ch: Byte)
    requires Tracks(h, i, l) && TokenChar(ch) != NUL
    ensures Tracks(NameStep(h, i, ch, TokenChar(ch)), if CountsIndex(h) then i + 1 else i, l + [TokenChar(ch)])
  {
    hide TokenChar, CONNECTION, PROXY_CONNECTION, CONTENT_LENGTH, TRANSFER_ENCODING, UPGRADE;
    SpaceIsNoToken(ch);
    LiteralFacts();
    var c := TokenChar(ch);
    var l' := l + [c];
    LiteralsDiffer(l);
    LiteralsDiffer(l');
    PrefixStep(CONNECTION, l, c);
    PrefixStep(PROXY_CONNECTION, l, c);
    PrefixStep(CONTENT_LENGTH, l, c);
    PrefixStep(TRANSFER_ENCODING, l, c);
    PrefixStep(UPGRADE, l, c);
  }

  // Where the name has taken the parser.
  ghost predicate NameRead(r: Run, r': Run, name: Bytes) {
    && r' == r.(st := r.st.(state := HeaderField, hstate := r'.st.hstate, index := r'.st.index),
                pend := Open(FieldData, name), used := r.used + |name|)
    && Tracks(r'.st.hstate, r'.st.index, Lowered(name))
  }

  lemma FirstByteRead(r: Run, ch: Byte)
    requires r.ctl == Next && r.st.state == HeaderFieldStart && r.pend == Closed && TokenChar(ch) != NUL
    ensures NameRead(r, Resume(r, ch), [ch])
  {
    hide TokenChar, Tracks;
    SpaceIsNoToken(ch);
    FirstTracks(TokenChar(ch));
    assert Lowered([ch]) == [TokenChar(ch)];
    assert Grow(Open(FieldData, []), ch) == Open(FieldData, [ch]);
  }

  lemma NextByteRead(r: Run, r': Run, name: Bytes, ch: Byte)
    requires r.ctl == Next && NameRead(r, r', name) && TokenChar(ch) != NUL
    ensures NameRead(r, Resume(r', ch), name + [ch])
  {
    hide TokenChar, NameStep, Classify;
    NameStepTracks(r'.st.hstate, r'.st.index, Lowered(name), ch);
    TracksNameState(r'.st.hstate, r'.st.index, Lowered(name));
    assert Lowered(name + [ch]) == Lowered(name) + [TokenChar(ch)];
  }

  lemma TracksNameState(h: HeaderState, i: nat, l: string)
    requires Tracks(h, i, l)
    ensures IsNameState(h)
  {
  }

  lemma {:induction false} NameRun(r: Run, name: Bytes)
    requires r.ctl == Next && r.st.state == HeaderFieldStart && r.pend == Closed
    requires name != [] && IsTokenString(name)
    ensures NameRead(r, RunBytes(r, name), name)
    decreases |name|
  {
    hide Resume, NameRead, TokenChar;
    var n := |name| - 1;
    if n == 0 {
      FirstByteRead(r, name[0]);
      assert name == [name[0]];
      RunOne(r, name[0]);
    } else {
      NameRun(r, name[..n]);
      NameReadNext(r, RunBytes(r, name[..n]), name[..n]);
      NextByteRead(r, RunBytes(r, name[..n]), name[..n], name[n]);
      RunAppend(r, name[..n], [name[n]]);
      assert name[..n] + [name[n]] == name;
      RunOne(RunBytes(r, name[..n]), name[n]);
    }
  }

  lemma NameReadNext(r: Run, r': Run, name: Bytes)
    requires r.ctl == Next && NameRead(r, r', name)
    ensures r'.ctl == Next
  {
  }

  /** A header name of token characters followed by a colon is handed out whole, and the parser then
      attends to its value if and only if the name is, letter case aside, one of the names it knows. */
  lemma HeaderNameExact(r: Run, name: Bytes)
    requires r.ctl == Next && r.st.state == HeaderFieldStart && r.pend == Closed
    requires name != [] && IsTokenString(name)
    ensures var r', l := RunBytes(r, name + [':']), Lowered(name);
            && r'.ctl == Next && r'.st.state == HeaderValueDiscardWs && r'.pend == Closed
            && r'.trace == Emit(r.trace, Data(FieldData, name))
            && r'.used == r.used + |name| + 1
            && r'.st == r.st.(state := HeaderValueDiscardWs, hstate := r'.st.hstate, index := r'.st.index)
            && NameDone(r'.st.hstate)
            && (r'.st.hstate == Connection <==> l == "connection" || l == "proxy-connection")
            && (r'.st.hstate == ContentLength <==> l == "content-length")
            && (r'.st.hstate == TransferEncoding <==> l == "transfer-encoding")
            && (r'.st.hstate == Upgrade <==> l == "upgrade")
  {
    hide RunBytes, Classify, NameStep, Emit;
    NameRun(r, name);
    TracksNameState(RunBytes(r, name).st.hstate, RunBytes(r, name).st.index, Lowered(name));
    RunAppend(r, name, [':']);
    ColonRead(RunBytes(r, name));
    Classified(Lowered(name));
  }

  lemma ColonRead(r: Run)
    requires r.ctl == Next && r.st.state == HeaderField && r.pend.Open? && r.pend.kind == FieldData
    ensures RunBytes(r, [':']) == r.(st := r.st.(state := HeaderValueDiscardWs), pend := Closed,
                                     trace := Emit(r.trace, Data(FieldData, r.pend.bytes)), used := r.used + 1)
  {
    hide Emit, Dispatch;
    ColonDispatch(r.st);
    RunOne(r, ':');
  }

  lemma ColonDispatch(s: Parser)
    requires s.state == HeaderField
    ensures Dispatch(s, ':') == Outcome(s.(state := HeaderValueDiscardWs), Flush(FieldData), Next)
  {
    hide NameStep, NameByte;
  }

  lemma Classified(l: string)
    requires l != []
    ensures Classify(l) == Connection <==> l == "connection" || l == "proxy-connection"
    ensures Classify(l) == ContentLength <==> l == "content-length"
    ensures Classify(l) == TransferEncoding <==> l == "transfer-encoding"
    ensures Classify(l) == Upgrade <==> l == "upgrade"
  {
    LiteralsDiffer(l);
  }
}
