/** The automaton for the options of a Connection header: which of the options in the list it hears. */
module HttpConnection {
  import opened HttpTypes
  import opened HttpDispatch
  import opened HttpRun
  import opened HttpLengths
  import opened HttpTransferEncoding

  // ---------- the list

  // The place of the first comma, or the end.
  function CommaAt(v: Bytes): (k: nat)
    ensures k <= |v| && (k < |v| ==> v[k] == ',') && forall i :: 0 <= i < k ==> v[i] != ','
  {
    if v == [] || v[0] == ',' then 0 else 1 + CommaAt(v[1..])
  }

  // The value cut at its commas.
  function Pieces(v: Bytes): (ps: seq<Bytes>)
    ensures ps != []
    decreases |v|
  {
    var k := CommaAt(v);
    if k == |v| then [v] else [v[..k]] + Pieces(v[k + 1..])
  }

  function Joined(ps: seq<Bytes>): Bytes
    requires ps != []
  {
    if |ps| == 1 then ps[0] else ps[0] + ([','] + Joined(ps[1..]))
  }

  predicate PieceOk(p: Bytes) { forall i :: 0 <= i < |p| ==> p[i] != ',' && InValue(p[i]) }

  predicate PiecesOk(ps: seq<Bytes>) { forall i :: 0 <= i < |ps| ==> PieceOk(ps[i]) }

  lemma {:induction false} PiecesJoin(v: Bytes)
    requires forall i :: 0 <= i < |v| ==> InValue(v[i])
    ensures Joined(Pieces(v)) == v && PiecesOk(Pieces(v))
    decreases |v|
  {
    hide Joined;
    var k := CommaAt(v);
    if k == |v| {
      JoinedOne(v);
    } else {
      var rest := v[k + 1..];
      PiecesJoin(rest);
      JoinedMore(v[..k], Pieces(rest));
      assert v == v[..k] + ([','] + rest);
    }
  }

  lemma JoinedOne(p: Bytes)
    ensures Joined([p]) == p
  {
  }

  lemma JoinedMore(p: Bytes, ps: seq<Bytes>)
    requires ps != []
    ensures Joined([p] + ps) == p + ([','] + Joined(ps))
  {
    assert ([p] + ps)[1..] == ps;
  }

  // ---------- what the pieces say

  datatype Known = ToKeepAlive | ToClose | ToUpgrade

  function Literal(k: Known): string {
    match k case ToKeepAlive => KEEP_ALIVE case ToClose => CLOSE case ToUpgrade => UPGRADE
  }

  function Has(f: Flags, k: Known): bool {
    match k case ToKeepAlive => f.keepAlive case ToClose => f.close case ToUpgrade => f.connUpgrade
  }

  // White space; LOWER makes a space of NUL, too.
  predicate IsGap(ch: Byte) { ch == ' ' || ch == '\t' || ch == NUL }

  // From index a on the bytes are the option, in any letter case.
  predicate WordAt(p: Bytes, k: Known, a: nat) {
    a + |Literal(k)| <= |p| && Lowers(p[a..a + |Literal(k)|]) == Literal(k)
  }

  predicate SaysAt(p: Bytes, k: Known, a: nat) {
    && WordAt(p, k, a) && (forall i :: 0 <= i < a ==> IsGap(p[i]))
    && forall i :: a + |Literal(k)| <= i < |p| ==> IsGap(p[i])
  }

  // The piece is the option, but for white space around it, as which tabs and NULs count here.
  ghost predicate Says(p: Bytes, k: Known) { exists a: nat :: SaysAt(p, k, a) }

  // ---------- what the automaton hears of them

  // How it meets a piece: as the first; as one to be listened to; as one to be passed over up to the next
  // comma; or as one behind a byte that has made it stop listening.
  datatype Mode = Opening | Listening | Deaf | Lost

  // The number of bytes in front of the option.
  function Lead(p: Bytes): (n: nat)
    ensures n <= |p| && (n < |p| ==> Lower(p[n]) != ' ') && forall i :: 0 <= i < n ==> Lower(p[i]) == ' '
  {
    if p == [] || Lower(p[0]) != ' ' then 0 else 1 + Lead(p[1..])
  }

  // The beginning of an option that could still become one of the known ones.
  predicate Unfinished(t: Bytes) { t != [] && (Begins(t, ToKeepAlive) || Begins(t, ToClose) || Begins(t, ToUpgrade)) }

  predicate Begins(t: Bytes, k: Known) { |t| < |Literal(k)| && Lowers(t) == Literal(k)[..|t|] }

  // The lower-cased form of the byte is a token character. That of '@' and of byte 1 is one, so these two count
  // as well.
  predicate IsToken(ch: Byte) { TokenChar(Lower(ch)) != NUL }

  /** How the piece behind p is met. */
  function NextMode(m: Mode, p: Bytes): Mode {
    match m
    case Opening => if p == [] || Unfinished(p) then Deaf else Listening
    case Listening =>
      var t := p[Lead(p)..];
      if t == [] || !IsToken(t[0]) then Lost else if Unfinished(t) then Deaf else Listening
    case Deaf => Listening
    case Lost => Lost
  }

  function ModeAt(m: Mode, ps: seq<Bytes>, i: nat): Mode
    requires i < |ps|
    decreases i
  {
    if i == 0 then m else ModeAt(NextMode(m, ps[0]), ps[1..], i - 1)
  }

  predicate HeardAt(m: Mode, p: Bytes, k: Known, a: nat) {
    && (m.Listening? || (m.Opening? && a == 0)) && WordAt(p, k, a)
    && (forall i :: 0 <= i < a ==> Lower(p[i]) == ' ')
    && forall i :: a + |Literal(k)| <= i < |p| ==> p[i] == ' '
  }

  // The piece is met listening and is the option, but for spaces around it.
  ghost predicate Heard(m: Mode, p: Bytes, k: Known) { exists a: nat :: HeardAt(m, p, k, a) }

  ghost predicate SomeHeard(m: Mode, ps: seq<Bytes>, k: Known) {
    exists i :: 0 <= i < |ps| && Heard(ModeAt(m, ps, i), ps[i], k)
  }

  ghost predicate SomeSays(ps: seq<Bytes>, k: Known) { exists i :: 0 <= i < |ps| && Says(ps[i], k) }

  // The flags with those of the options heard.
  ghost function Hear(f: Flags, m: Mode, ps: seq<Bytes>): Flags {
    f.(keepAlive := f.keepAlive || SomeHeard(m, ps, ToKeepAlive), close := f.close || SomeHeard(m, ps, ToClose),
       connUpgrade := f.connUpgrade || SomeHeard(m, ps, ToUpgrade))
  }

  // The flags with those of all options of the list.
  ghost function Listed(f: Flags, ps: seq<Bytes>): Flags {
    f.(keepAlive := f.keepAlive || SomeSays(ps, ToKeepAlive), close := f.close || SomeSays(ps, ToClose),
       connUpgrade := f.connUpgrade || SomeSays(ps, ToUpgrade))
  }

  // ---------- runs inside a value

  ghost predicate InText(r: Run) {
    r.ctl == Next && r.st.state == HeaderValue && r.pend.Open? && r.pend.kind == ValueData
  }

  // The bytes v have been read; the state of the automaton has changed and perhaps the flags.
  ghost predicate Moved(r: Run, r': Run, v: Bytes) {
    && InText(r)
    && r' == r.(st := r.st.(hstate := r'.st.hstate, index := r'.st.index, flags := r'.st.flags),
                pend := Open(ValueData, r.pend.bytes + v), used := r.used + |v|)
  }

  lemma MovedAppend(r: Run, r1: Run, a: Bytes, r2: Run, b: Bytes)
    requires Moved(r, r1, a) && Moved(r1, r2, b)
    ensures Moved(r, r2, a + b)
  {
    assert r.pend.bytes + a + b == r.pend.bytes + (a + b);
  }

  lemma OneByte(r: Run, ch: Byte, s: Parser) returns (r': Run)
    requires InText(r) && InValue(ch) && ValueByte(r.st, ch) == Go(s)
    requires s == r.st.(hstate := s.hstate, index := s.index, flags := s.flags)
    ensures r' == RunBytes(r, [ch]) && r'.st == s && Moved(r, r', [ch])
  {
    hide Dispatch, ValueByte;
    ValueDispatch(r.st, ch);
    RunOne(r, ch);
    r' := RunBytes(r, [ch]);
  }

  lemma {:induction false} StillRun(r: Run, xs: Bytes)
    requires InText(r) && forall i :: 0 <= i < |xs| ==> InValue(xs[i]) && ValueByte(r.st, xs[i]) == Go(r.st)
    ensures Moved(r, RunBytes(r, xs), xs) && RunBytes(r, xs).st == r.st
    decreases |xs|
  {
    hide ValueByte, Dispatch, RunBytes;
    if xs == [] {
      RunNothing(r);
      assert r.pend.bytes + xs == r.pend.bytes;
    } else {
      var r1 := OneByte(r, xs[0], r.st);
      StillRun(r1, xs[1..]);
      assert [xs[0]] + xs[1..] == xs;
      RunAppend(r, [xs[0]], xs[1..]);
      MovedAppend(r, r1, [xs[0]], RunBytes(r, xs), xs[1..]);
    }
  }

  // ---------- one option

  // The state that compares with the option, and the state reached with its last letter.
  function Comparing(k: Known): HeaderState {
    match k
    case ToKeepAlive => MatchingConnectionKeepAlive
    case ToClose => MatchingConnectionClose
    case ToUpgrade => MatchingConnectionUpgrade
  }

  function Full(k: Known): HeaderState {
    match k
    case ToKeepAlive => ConnectionKeepAlive
    case ToClose => ConnectionClose
    case ToUpgrade => ConnectionUpgrade
  }

  // The option and nothing but spaces behind it.
  predicate Complete(t: Bytes, k: Known) { WordAt(t, k, 0) && forall i :: |Literal(k)| <= i < |t| ==> t[i] == ' ' }

  // The state that the beginning t of an option deserves.
  function Deserves(t: Bytes): HeaderState {
    if Complete(t, ToKeepAlive) then ConnectionKeepAlive
    else if Complete(t, ToClose) then ConnectionClose
    else if Complete(t, ToUpgrade) then ConnectionUpgrade
    else if Begins(t, ToKeepAlive) then MatchingConnectionKeepAlive
    else if Begins(t, ToClose) then MatchingConnectionClose
    else if Begins(t, ToUpgrade) then MatchingConnectionUpgrade
    else MatchingConnectionToken
  }

  ghost predicate Follows(s: Parser, t: Bytes) {
    && t != [] && s.hstate == Deserves(t)
    && (Unfinished(t) ==> s.index == |t| - 1)
  }

  lemma Literals()
    ensures |KEEP_ALIVE| == 10 && |CLOSE| == 5 && |UPGRADE| == 7
    ensures KEEP_ALIVE[0] == 'k' && CLOSE[0] == 'c' && UPGRADE[0] == 'u'
  {
  }

  lemma LowersAt(t: Bytes)
    ensures |Lowers(t)| == |t| && (t != [] ==> Lowers(t)[0] == Lower(t[0]))
  {
  }

  // A text begins or is at most one of the options.
  lemma OneOption(t: Bytes, k: Known)
    requires t != [] && (Begins(t, k) || Complete(t, k))
    ensures Lower(t[0]) == Literal(k)[0]
    ensures forall j: Known :: Begins(t, j) || Complete(t, j) ==> j == k
    ensures !(Begins(t, k) && Complete(t, k))
    ensures Deserves(t) == if Complete(t, k) then Full(k) else Comparing(k)
  {
    hide Lower, KEEP_ALIVE, CLOSE, UPGRADE, Lowers;
    Literals();
    forall j: Known | Begins(t, j) || Complete(t, j)
      ensures Lower(t[0]) == Literal(j)[0]
    {
      LowersAt(t);
      if Complete(t, j) {
        WordStart(t, j);
      }
    }
  }

  lemma WordStart(t: Bytes, k: Known)
    requires WordAt(t, k, 0)
    ensures t != [] && Lower(t[0]) == Literal(k)[0]
  {
    hide Lower, KEEP_ALIVE, CLOSE, UPGRADE;
    Literals();
    LowersAt(t[0..|Literal(k)|]);
  }

  lemma BeginsSnoc(t: Bytes, ch: Byte, k: Known)
    requires Begins(t, k)
    ensures Begins(t + [ch], k) <==> |t| + 1 < |Literal(k)| && Lower(ch) == Literal(k)[|t|]
    ensures Complete(t + [ch], k) <==> |t| + 1 == |Literal(k)| && Lower(ch) == Literal(k)[|t|]
  {
    hide Lower, KEEP_ALIVE, CLOSE, UPGRADE;
    LowersSnoc(t, ch);
    var w, l := t + [ch], Literal(k);
    assert |t| + 1 <= |l| ==> l[..|t| + 1] == l[..|t|] + [l[|t|]];
    if |w| == |l| {
      assert w[0..|l|] == w && l[..|l|] == l;
    }
  }

  lemma CompleteSnoc(t: Bytes, ch: Byte, k: Known)
    requires |t| >= |Literal(k)|
    ensures Complete(t + [ch], k) <==> Complete(t, k) && ch == ' '
    ensures !Begins(t + [ch], k) && !Begins(t, k)
  {
    hide Lowers, KEEP_ALIVE, CLOSE, UPGRADE;
    var w, n := t + [ch], |Literal(k)|;
    assert w[0..n] == t[0..n];
    assert w[|t|] == ch && forall i :: 0 <= i < |t| ==> w[i] == t[i];
  }

  // What is no beginning of an option does not become one.
  lemma NeitherSnoc(t: Bytes, ch: Byte, k: Known)
    requires t != [] && !Begins(t, k) && !Complete(t, k)
    ensures !Begins(t + [ch], k) && !Complete(t + [ch], k)
  {
    hide Lower, KEEP_ALIVE, CLOSE, UPGRADE;
    if |t| >= |Literal(k)| {
      CompleteSnoc(t, ch, k);
    } else {
      LowersSnoc(t, ch);
      var w, l := t + [ch], Literal(k);
      assert Lowers(w)[..|t|] == Lowers(t);
      if |w| == |l| {
        assert w[0..|l|] == w;
      }
    }
  }

  lemma DeservesToken(t: Bytes)
    requires forall k: Known :: !Begins(t, k) && !Complete(t, k)
    ensures Deserves(t) == MatchingConnectionToken && !Unfinished(t)
  {
  }

  lemma ComparingByte(s: Parser, k: Known, ch: Byte)
    requires s.hstate == Comparing(k)
    ensures ValueByte(s, ch) ==
            Go(s.(index := s.index + 1,
                  hstate := Follow(Literal(k), s.index + 1, Lower(ch), Comparing(k), Full(k), MatchingConnectionToken)))
  {
    hide Lower, Follow, KEEP_ALIVE, CLOSE, UPGRADE;
  }

  lemma FullByte(s: Parser, k: Known, ch: Byte)
    requires s.hstate == Full(k)
    ensures ValueByte(s, ch) == OptionByte(s, ch)
  {
    hide Lower, OptionByte;
  }

  lemma TokenByte(s: Parser, ch: Byte)
    requires s.hstate == MatchingConnectionToken
    ensures ValueByte(s, ch) == if ch == ',' then Go(s.(hstate := MatchingConnectionTokenStart, index := 0)) else Go(s)
  {
    hide Lower;
  }

  /** One more byte of an option leads to the state that the longer beginning deserves. */
  lemma OptionStep(s: Parser, t: Bytes, ch: Byte) returns (s': Parser)
    requires Follows(s, t) && ch != ','
    ensures ValueByte(s, ch) == Go(s') && s' == s.(hstate := s'.hstate, index := s'.index)
    ensures Follows(s', t + [ch])
  {
    hide ValueByte, Begins, Complete, Follow, Lower, Literal;
    if k: Known :| Begins(t, k) {
      s' := BeginsStep(s, t, k, ch);
    } else if k: Known :| Complete(t, k) {
      s' := CompleteStep(s, t, k, ch);
    } else {
      DeservesToken(t);
      TokenByte(s, ch);
      s' := s;
      forall k: Known ensures !Begins(t + [ch], k) && !Complete(t + [ch], k) {
        NeitherSnoc(t, ch, k);
      }
      DeservesToken(t + [ch]);
    }
  }

  lemma BeginsStep(s: Parser, t: Bytes, k: Known, ch: Byte) returns (s': Parser)
    requires Follows(s, t) && Begins(t, k)
    ensures ValueByte(s, ch) == Go(s') && s' == s.(hstate := s'.hstate, index := s'.index)
    ensures Follows(s', t + [ch])
  {
    hide ValueByte, Complete, Lower, Literal, Deserves;
    OneOption(t, k);
    IsUnfinished(t, k);
    ComparingByte(s, k, ch);
    s' := ValueByte(s, ch).st;
    BeginsSnoc(t, ch, k);
    OthersStay(t, ch, k);
    if Begins(t + [ch], k) || Complete(t + [ch], k) {
      OneOption(t + [ch], k);
    } else {
      DeservesToken(t + [ch]);
    }
  }

  lemma IsUnfinished(t: Bytes, k: Known)
    requires t != [] && Begins(t, k)
    ensures Unfinished(t) && |t| < |Literal(k)|
  {
  }

  // What has begun like one option is not continued like another.
  lemma OthersStay(t: Bytes, ch: Byte, k: Known)
    requires t != [] && (Begins(t, k) || Complete(t, k))
    ensures forall j: Known :: j != k ==> !Begins(t + [ch], j) && !Complete(t + [ch], j)
  {
    hide Begins, Complete, Lower, Literal, Deserves;
    OneOption(t, k);
    forall j: Known | j != k ensures !Begins(t + [ch], j) && !Complete(t + [ch], j) {
      NeitherSnoc(t, ch, j);
    }
  }

  lemma CompleteStep(s: Parser, t: Bytes, k: Known, ch: Byte) returns (s': Parser)
    requires Follows(s, t) && Complete(t, k) && ch != ','
    ensures ValueByte(s, ch) == Go(s') && s' == s.(hstate := s'.hstate, index := s'.index)
    ensures Follows(s', t + [ch])
  {
    hide ValueByte, Begins, Complete, Lower, Literal, Deserves;
    OneOption(t, k);
    FullByte(s, k, ch);
    CompleteLong(t, k);
    CompleteSnoc(t, ch, k);
    OthersStay(t, ch, k);
    s' := ValueByte(s, ch).st;
    if ch == ' ' {
      OneOption(t + [ch], k);
    } else {
      DeservesToken(t + [ch]);
    }
    NotUnfinished(t + [ch]);
  }

  lemma CompleteLong(t: Bytes, k: Known)
    requires Complete(t, k)
    ensures |t| >= |Literal(k)|
  {
  }

  lemma NotUnfinished(t: Bytes)
    requires forall j: Known :: !Begins(t, j)
    ensures !Unfinished(t)
  {
  }

  /** Inside an option the automaton is always where the bytes read so far deserve. */
  lemma {:induction false} OptionRun(r: Run, t: Bytes, xs: Bytes) returns (r': Run)
    requires InText(r) && Follows(r.st, t) && PieceOk(xs)
    ensures r' == RunBytes(r, xs) && Moved(r, r', xs) && r'.st.flags == r.st.flags && Follows(r'.st, t + xs)
    decreases |xs|
  {
    hide ValueByte, RunBytes, Follows;
    if xs == [] {
      StillRun(r, xs);
      assert t + xs == t;
      r' := r;
    } else {
      var s := OptionStep(r.st, t, xs[0]);
      var r1 := OneByte(r, xs[0], s);
      r' := OptionRun(r1, t + [xs[0]], xs[1..]);
      assert t + [xs[0]] + xs[1..] == t + xs && [xs[0]] + xs[1..] == xs;
      RunAppend(r, [xs[0]], xs[1..]);
      MovedAppend(r, r1, [xs[0]], r', xs[1..]);
    }
  }

  // The state after the first byte of an option.
  function FirstState(ch: Byte): HeaderState {
    if Lower(ch) == 'k' then MatchingConnectionKeepAlive
    else if Lower(ch) == 'c' then MatchingConnectionClose
    else if Lower(ch) == 'u' then MatchingConnectionUpgrade
    else MatchingConnectionToken
  }

  lemma FirstFollows(s: Parser, ch: Byte)
    requires s.hstate == FirstState(ch) && s.index == 0
    ensures Follows(s, [ch])
  {
    hide Lower, KEEP_ALIVE, CLOSE, UPGRADE;
    Literals();
    LowersAt([ch]);
    forall k: Known
      ensures !Complete([ch], k) && (Begins([ch], k) <==> Lower(ch) == Literal(k)[0])
    {
      assert Literal(k)[..1] == [Literal(k)[0]];
      assert Lowers([ch]) == [Lower(ch)];
    }
  }

  // ---------- one piece

  // The states a piece is met in, but for the first.
  ghost predicate Ready(m: Mode, s: Parser) {
    match m
    case Opening => false
    case Listening => s.hstate == MatchingConnectionTokenStart && s.index == 0
    case Deaf => s.hstate == MatchingConnectionToken
    case Lost => s.hstate == General
  }

  // The states a piece leads to.
  ghost predicate Passed(m: Mode, p: Bytes, s: Parser) {
    match m
    case Opening => Follows(s, p)
    case Listening =>
      var t := p[Lead(p)..];
      if t == [] then s.hstate == MatchingConnectionTokenStart && s.index == 0
      else if IsToken(t[0]) then Follows(s, t) else s.hstate == General
    case Deaf => s.hstate == MatchingConnectionToken
    case Lost => s.hstate == General
  }

  lemma StartByte(s: Parser, ch: Byte)
    requires s.hstate == MatchingConnectionTokenStart && s.index == 0
    ensures Lower(ch) == ' ' ==> ValueByte(s, ch) == Go(s)
    ensures Lower(ch) != ' ' ==> ValueByte(s, ch) == Go(s.(hstate := if IsToken(ch) then FirstState(ch) else General))
  {
    NotTokens();
    hide Lower, TokenChar;
  }

  lemma NotTokens()
    ensures TokenChar(' ') == NUL && TokenChar('k') != NUL && TokenChar('c') != NUL && TokenChar('u') != NUL
    ensures forall ch: Byte :: Lower(ch) != '\t'
  {
  }

  lemma GeneralByte(s: Parser, ch: Byte)
    requires s.hstate == General
    ensures ValueByte(s, ch) == Go(s)
  {
    hide Lower;
  }

  lemma PieceRun(r: Run, m: Mode, p: Bytes) returns (r': Run)
    requires InText(r) && Ready(m, r.st) && PieceOk(p)
    ensures r' == RunBytes(r, p) && Moved(r, r', p) && r'.st.flags == r.st.flags && Passed(m, p, r'.st)
  {
    hide ValueByte, RunBytes, Follows, Lead, IsToken;
    match m
    case Listening =>
      r' := ListeningRun(r, p);
    case Deaf =>
      forall ch: Byte | ch != ',' ensures ValueByte(r.st, ch) == Go(r.st) { TokenByte(r.st, ch); }
      StillRun(r, p);
      r' := RunBytes(r, p);
    case Lost =>
      forall ch: Byte ensures ValueByte(r.st, ch) == Go(r.st) { GeneralByte(r.st, ch); }
      StillRun(r, p);
      r' := RunBytes(r, p);
  }

  lemma ListeningRun(r: Run, p: Bytes) returns (r': Run)
    requires InText(r) && Ready(Listening, r.st) && PieceOk(p)
    ensures r' == RunBytes(r, p) && Moved(r, r', p) && r'.st.flags == r.st.flags && Passed(Listening, p, r'.st)
  {
    hide ValueByte, RunBytes, Follows, IsToken, Lead, Lower, FirstState;
    var n := Lead(p);
    forall i | 0 <= i < n ensures ValueByte(r.st, p[i]) == Go(r.st) { StartByte(r.st, p[i]); }
    StillRun(r, p[..n]);
    var r1, t := RunBytes(r, p[..n]), p[n..];
    assert p[..n] + t == p;
    if t == [] {
      r' := r1;
      assert p[..n] == p;
    } else {
      StartByte(r.st, t[0]);
      r' := WordRun(r1, t);
      RunAppend(r, p[..n], t);
      MovedAppend(r, r1, p[..n], r', t);
    }
  }

  // An option, or something else, where one may begin.
  lemma WordRun(r: Run, t: Bytes) returns (r': Run)
    requires InText(r) && r.st.index == 0 && t != [] && PieceOk(t)
    requires ValueByte(r.st, t[0]) == Go(r.st.(hstate := if IsToken(t[0]) then FirstState(t[0]) else General))
    ensures r' == RunBytes(r, t) && Moved(r, r', t) && r'.st.flags == r.st.flags
    ensures if IsToken(t[0]) then Follows(r'.st, t) else r'.st.hstate == General
  {
    hide ValueByte, RunBytes, Follows, IsToken, FirstState;
    var r1 := OneByte(r, t[0], ValueByte(r.st, t[0]).st);
    assert [t[0]] + t[1..] == t;
    if IsToken(t[0]) {
      FirstFollows(r1.st, t[0]);
      r' := OptionRun(r1, [t[0]], t[1..]);
    } else {
      forall ch: Byte ensures ValueByte(r1.st, ch) == Go(r1.st) { GeneralByte(r1.st, ch); }
      StillRun(r1, t[1..]);
      r' := RunBytes(r1, t[1..]);
    }
    RunAppend(r, [t[0]], t[1..]);
    MovedAppend(r, r1, [t[0]], r', t[1..]);
  }

  // ---------- from one piece to the next

  lemma NoCommas()
    ensures Lower(',') == ',' && TokenChar(',') == NUL
    ensures forall i :: 0 <= i < |KEEP_ALIVE| ==> KEEP_ALIVE[i] != ','
    ensures forall i :: 0 <= i < |CLOSE| ==> CLOSE[i] != ','
    ensures forall i :: 0 <= i < |UPGRADE| ==> UPGRADE[i] != ','
  {
  }

  // A comma behind an option, finished or not.
  lemma CommaBehind(s: Parser, t: Bytes) returns (s': Parser)
    requires Follows(s, t)
    ensures ValueByte(s, ',') == Go(s')
    ensures s' == s.(flags := SetOption(s.flags, s.hstate), hstate := s'.hstate, index := s'.index)
    ensures Ready(if Unfinished(t) then Deaf else Listening, s')
  {
    hide ValueByte, Begins, Complete, Lower, KEEP_ALIVE, CLOSE, UPGRADE;
    if k: Known :| Begins(t, k) {
      OneOption(t, k);
      IsUnfinished(t, k);
      ComparingByte(s, k, ',');
      NoCommas();
    } else if k: Known :| Complete(t, k) {
      OneOption(t, k);
      NotUnfinished(t);
      FullByte(s, k, ',');
    } else {
      DeservesToken(t);
      TokenByte(s, ',');
    }
    s' := ValueByte(s, ',').st;
  }

  // A comma where no option has begun.
  lemma CommaElse(s: Parser)
    ensures s.hstate == MatchingConnectionTokenStart ==> ValueByte(s, ',') == Go(s.(hstate := General))
    ensures s.hstate == General ==> ValueByte(s, ',') == Go(s)
    ensures s.hstate == MatchingConnectionToken ==>
              ValueByte(s, ',') == Go(s.(hstate := MatchingConnectionTokenStart, index := 0))
  {
    NoCommas();
    hide Lower, TokenChar;
  }

  lemma CommaStep(m: Mode, p: Bytes, s: Parser) returns (s': Parser)
    requires Passed(m, p, s)
    ensures ValueByte(s, ',') == Go(s')
    ensures s' == s.(flags := SetOption(s.flags, s.hstate), hstate := s'.hstate, index := s'.index)
    ensures Ready(NextMode(m, p), s')
  {
    hide ValueByte, Follows, Lower, Unfinished;
    var t := if m.Opening? then p else p[Lead(p)..];
    if m.Opening? || (m.Listening? && t != [] && IsToken(t[0])) {
      FollowsSome(s, t);
      s' := CommaBehind(s, t);
    } else {
      CommaElse(s);
      s' := ValueByte(s, ',').st;
    }
  }

  lemma FollowsSome(s: Parser, t: Bytes)
    requires Follows(s, t)
    ensures t != []
  {
  }

  // ---------- which options are heard

  lemma FullIs(s: Parser, t: Bytes, k: Known)
    requires Follows(s, t)
    ensures s.hstate == Full(k) <==> Complete(t, k)
  {
    hide Begins, Complete, Lower, Literal;
    if j: Known :| Begins(t, j) || Complete(t, j) {
      OneOption(t, j);
    } else {
      DeservesToken(t);
    }
  }

  lemma FirstLetters(k: Known)
    ensures Literal(k) != [] && Literal(k)[0] != ' ' && TokenChar(Literal(k)[0]) != NUL
  {
    NotTokens();
    Literals();
    hide TokenChar, KEEP_ALIVE, CLOSE, UPGRADE;
  }

  // An option that is heard stands right behind the bytes in front.
  lemma HeardLead(p: Bytes, k: Known, a: nat)
    requires HeardAt(Listening, p, k, a)
    ensures a == Lead(p) && Complete(p[a..], k)
  {
    hide Lower, TokenChar, Literal, IsToken, Lowers;
    FirstLetters(k);
    assert p[a..][0..|Literal(k)|] == p[a..a + |Literal(k)|];
    WordStart(p[a..], k);
  }

  lemma LeadHeard(p: Bytes, k: Known)
    requires Complete(p[Lead(p)..], k)
    ensures HeardAt(Listening, p, k, Lead(p))
  {
    hide Lower, Literal, Lowers;
    var a := Lead(p);
    assert p[a..][0..|Literal(k)|] == p[a..a + |Literal(k)|];
    forall i | a + |Literal(k)| <= i < |p| ensures p[i] == ' ' { assert p[a..][i - a] == p[i]; }
  }

  lemma ListeningHears(p: Bytes, s: Parser, k: Known)
    requires Passed(Listening, p, s)
    ensures Heard(Listening, p, k) <==> s.hstate == Full(k)
  {
    hide Complete, Follows, HeardAt, Lead;
    var t := p[Lead(p)..];
    if a: nat :| HeardAt(Listening, p, k, a) {
      HeardLead(p, k, a);
      CompleteToken(t, k);
    }
    if t != [] && IsToken(t[0]) {
      FullIs(s, t, k);
      if Complete(t, k) {
        LeadHeard(p, k);
      }
    }
  }

  lemma CompleteToken(t: Bytes, k: Known)
    requires Complete(t, k)
    ensures t != [] && IsToken(t[0])
  {
    hide Lower, TokenChar, Literal, Lowers;
    FirstLetters(k);
    WordStart(t, k);
  }

  lemma OpeningHears(p: Bytes, s: Parser, k: Known)
    requires Follows(s, p)
    ensures Heard(Opening, p, k) <==> s.hstate == Full(k)
  {
    hide Follows, Lower, Literal, Lowers, WordAt;
    FullIs(s, p, k);
    if Complete(p, k) {
      assert HeardAt(Opening, p, k, 0);
    }
  }

  /** The state behind a piece tells whether the piece is heard as the option. */
  lemma Hears(m: Mode, p: Bytes, s: Parser, k: Known)
    requires Passed(m, p, s)
    ensures Heard(m, p, k) <==> s.hstate == Full(k)
  {
    hide Follows, WordAt, Lead, IsToken;
    match m
    case Opening => OpeningHears(p, s, k);
    case Listening => ListeningHears(p, s, k);
    case Deaf =>
    case Lost =>
  }

  // The flags with those of the options heard in one piece.
  ghost function HearOne(f: Flags, m: Mode, p: Bytes): Flags {
    f.(keepAlive := f.keepAlive || Heard(m, p, ToKeepAlive), close := f.close || Heard(m, p, ToClose),
       connUpgrade := f.connUpgrade || Heard(m, p, ToUpgrade))
  }

  lemma OptionSet(f: Flags, m: Mode, p: Bytes, s: Parser)
    requires Passed(m, p, s)
    ensures SetOption(f, s.hstate) == HearOne(f, m, p)
  {
    hide Passed, Heard;
    Hears(m, p, s, ToKeepAlive);
    Hears(m, p, s, ToClose);
    Hears(m, p, s, ToUpgrade);
  }

  lemma HeardFirst(m: Mode, ps: seq<Bytes>, k: Known)
    requires ps != []
    ensures SomeHeard(m, ps, k) <==> Heard(m, ps[0], k) || SomeHeard(NextMode(m, ps[0]), ps[1..], k)
  {
    hide Heard, NextMode;
    var n := NextMode(m, ps[0]);
    if i :| 0 <= i < |ps| && Heard(ModeAt(m, ps, i), ps[i], k) {
      if i > 0 {
        assert Heard(ModeAt(n, ps[1..], i - 1), ps[1..][i - 1], k);
      }
    }
    if Heard(m, ps[0], k) {
      assert Heard(ModeAt(m, ps, 0), ps[0], k);
    }
    if i :| 0 <= i < |ps[1..]| && Heard(ModeAt(n, ps[1..], i), ps[1..][i], k) {
      assert Heard(ModeAt(m, ps, i + 1), ps[i + 1], k);
    }
  }

  lemma HearFirst(f: Flags, m: Mode, ps: seq<Bytes>)
    requires ps != []
    ensures Hear(f, m, ps) == Hear(HearOne(f, m, ps[0]), NextMode(m, ps[0]), ps[1..])
  {
    hide SomeHeard, Heard, NextMode;
    HeardFirst(m, ps, ToKeepAlive);
    HeardFirst(m, ps, ToClose);
    HeardFirst(m, ps, ToUpgrade);
  }

  // All pieces but the last, how the last is met, and the last.
  function Init(ps: seq<Bytes>): seq<Bytes>
    requires ps != []
  {
    ps[..|ps| - 1]
  }

  function LastMode(m: Mode, ps: seq<Bytes>): Mode
    requires ps != []
  {
    ModeAt(m, ps, |ps| - 1)
  }

  function Last(ps: seq<Bytes>): Bytes
    requires ps != []
  {
    ps[|ps| - 1]
  }

  lemma InitFirst(f: Flags, m: Mode, ps: seq<Bytes>)
    requires |ps| > 1
    ensures Hear(f, m, Init(ps)) == Hear(HearOne(f, m, ps[0]), NextMode(m, ps[0]), Init(ps[1..]))
    ensures LastMode(m, ps) == LastMode(NextMode(m, ps[0]), ps[1..]) && Last(ps) == Last(ps[1..])
  {
    hide Hear, HearOne, NextMode;
    HearFirst(f, m, Init(ps));
    assert Init(ps)[1..] == Init(ps[1..]);
  }

  lemma HearNothing(f: Flags, m: Mode)
    ensures Hear(f, m, []) == f
  {
  }

  // ---------- all pieces

  predicate NotChunked(h: HeaderState) { !h.TransferEncodingChunked? }

  lemma PassedNotChunked(m: Mode, p: Bytes, s: Parser)
    requires Passed(m, p, s)
    ensures NotChunked(s.hstate)
  {
    hide Begins, Complete, Lead, IsToken;
  }

  // Where the pieces have left the automaton: the flags of all pieces but the last are set.
  ghost predicate AtLast(f: Flags, m: Mode, ps: seq<Bytes>, s: Parser)
    requires ps != []
  {
    s.flags == Hear(f, m, Init(ps)) && Passed(LastMode(m, ps), Last(ps), s)
  }

  lemma AtFirst(m: Mode, p: Bytes, s: Parser)
    requires Passed(m, p, s)
    ensures AtLast(s.flags, m, [p], s)
  {
    hide Passed, Hear;
    HearNothing(s.flags, m);
    assert Init([p]) == [];
  }

  lemma AtLater(f: Flags, m: Mode, ps: seq<Bytes>, s: Parser)
    requires |ps| > 1 && AtLast(HearOne(f, m, ps[0]), NextMode(m, ps[0]), ps[1..], s)
    ensures AtLast(f, m, ps, s)
  {
    hide Passed, Hear, HearOne, NextMode, Init, Last, LastMode;
    InitFirst(f, m, ps);
  }

  // The rest of the value behind a piece.
  lemma {:induction false} BehindRun(r: Run, m: Mode, ps: seq<Bytes>) returns (r': Run)
    requires InText(r) && ps != [] && Passed(m, ps[0], r.st) && PiecesOk(ps)
    ensures r' == RunBytes(r, Joined(ps)[|ps[0]|..]) && Moved(r, r', Joined(ps)[|ps[0]|..])
    ensures AtLast(r.st.flags, m, ps, r'.st)
    ensures SetOption(r'.st.flags, r'.st.hstate) == Hear(r.st.flags, m, ps) && NotChunked(r'.st.hstate)
    decreases |ps|, 0
  {
    hide RunBytes, ValueByte, Passed, Hear, HearOne, SetOption, NextMode, NotChunked, PieceOk, AtLast;
    var p, m1 := ps[0], NextMode(m, ps[0]);
    OptionSet(r.st.flags, m, p, r.st);
    HearFirst(r.st.flags, m, ps);
    if |ps| == 1 {
      HearNothing(HearOne(r.st.flags, m, p), m1);
      assert Joined(ps)[|p|..] == [] && ps[1..] == [];
      StillRun(r, []);
      PassedNotChunked(m, p, r.st);
      RunNothing(r);
      r' := r;
      AtFirst(m, p, r.st);
      assert ps == [p];
    } else {
      var s := CommaStep(m, p, r.st);
      var r1 := OneByte(r, ',', s);
      PiecesRest(ps);
      r' := MoreRun(r1, m1, ps[1..]);
      AtLater(r.st.flags, m, ps, r'.st);
      assert Joined(ps)[|p|..] == [','] + Joined(ps[1..]);
      RunAppend(r, [','], Joined(ps[1..]));
      MovedAppend(r, r1, [','], r', Joined(ps[1..]));
    }
  }

  lemma PiecesRest(ps: seq<Bytes>)
    requires PiecesOk(ps) && |ps| > 1
    ensures PiecesOk(ps[1..]) && PieceOk(ps[0]) && PieceOk(ps[1])
  {
  }

  // Pieces behind a comma.
  lemma {:induction false} MoreRun(r: Run, m: Mode, ps: seq<Bytes>) returns (r': Run)
    requires InText(r) && ps != [] && Ready(m, r.st) && PiecesOk(ps)
    ensures r' == RunBytes(r, Joined(ps)) && Moved(r, r', Joined(ps)) && AtLast(r.st.flags, m, ps, r'.st)
    ensures SetOption(r'.st.flags, r'.st.hstate) == Hear(r.st.flags, m, ps) && NotChunked(r'.st.hstate)
    decreases |ps|, 1
  {
    hide RunBytes, ValueByte, Passed, Ready, Hear, HearOne, SetOption, NextMode, NotChunked, PieceOk, AtLast;
    var r1 := PieceRun(r, m, ps[0]);
    r' := BehindRun(r1, m, ps);
    var rest := Joined(ps)[|ps[0]|..];
    assert Joined(ps) == ps[0] + rest;
    RunAppend(r, ps[0], rest);
    MovedAppend(r, r1, ps[0], r', rest);
  }

  // ---------- the whole value

  // The parser is in front of the value of a Connection header.
  ghost predicate AtOptions(r: Run) {
    r.ctl == Next && r.st.state == HeaderValueDiscardWs && r.st.hstate == Connection && r.pend == Closed
  }

  // A nonempty value on one line; blanks in front of it are not part of it.
  predicate ValueOk(v: Bytes) {
    v != [] && v[0] != ' ' && v[0] != '\t' && forall i :: 0 <= i < |v| ==> InValue(v[i])
  }

  lemma FirstByteDispatch(s: Parser, ch: Byte)
    requires s.state == HeaderValueDiscardWs && s.hstate == Connection && InValue(ch) && ch != ' ' && ch != '\t'
    ensures Dispatch(s, ch)
            == Outcome(s.(state := HeaderValue, index := 0, hstate := FirstState(ch)), Mark(ValueData), Next)
  {
    hide Lower, NameStep;
  }

  lemma FirstByteRun(r: Run, ch: Byte) returns (r': Run)
    requires AtOptions(r) && InValue(ch) && ch != ' ' && ch != '\t'
    ensures r' == RunBytes(r, [ch]) && InText(r')
    ensures r' == r.(st := r.st.(state := HeaderValue, index := 0, hstate := FirstState(ch)),
                     pend := Open(ValueData, [ch]), used := r.used + 1)
  {
    hide Dispatch, RunBytes, FirstState;
    FirstByteDispatch(r.st, ch);
    RunOne(r, ch);
    assert Grow(Open(ValueData, []), ch) == Open(ValueData, [ch]);
    r' := RunBytes(r, [ch]);
  }

  // What the value leaves behind: the state of the automaton and the flags, the value as text.
  ghost predicate ListRead(r: Run, v: Bytes, r': Run) {
    && r' == r.(st := r.st.(state := HeaderValue, hstate := r'.st.hstate, index := r'.st.index, flags := r'.st.flags),
                pend := Open(ValueData, v), used := r.used + |v|)
    && FinishValue(r'.st.flags, r'.st.hstate) == Hear(r.st.flags, Opening, Pieces(v))
    && AtLast(r.st.flags, Opening, Pieces(v), r'.st)
  }

  lemma FinishIsSet(f: Flags, h: HeaderState)
    requires NotChunked(h)
    ensures FinishValue(f, h) == SetOption(f, h)
  {
  }

  lemma ListRun(r: Run, v: Bytes) returns (r': Run)
    requires AtOptions(r) && ValueOk(v)
    ensures r' == RunBytes(r, v) && ListRead(r, v, r')
  {
    hide RunBytes, Hear, SetOption, FinishValue, NotChunked, FirstState, PiecesOk, Pieces, ListRead, Moved, Joined,
         AtLast;
    var r1 := FirstByteRun(r, v[0]);
    PiecesJoin(v);
    r' := RestRun(r1, v, Pieces(v), r.st.flags);
    assert [v[0]] + v[1..] == v;
    RunAppend(r, [v[0]], v[1..]);
    FinishIsSet(r'.st.flags, r'.st.hstate);
    TextRead(r, r1, v, r');
  }

  lemma TextRead(r: Run, r1: Run, v: Bytes, r': Run)
    requires v != [] && Moved(r1, r', v[1..])
    requires r1 == r.(st := r1.st, pend := Open(ValueData, [v[0]]), used := r.used + 1)
    requires r1.st == r.st.(state := HeaderValue, index := r1.st.index, hstate := r1.st.hstate)
    requires FinishValue(r'.st.flags, r'.st.hstate) == Hear(r.st.flags, Opening, Pieces(v))
    requires AtLast(r.st.flags, Opening, Pieces(v), r'.st)
    ensures ListRead(r, v, r')
  {
    hide FinishValue, Hear, Pieces, AtLast;
    assert [v[0]] + v[1..] == v;
  }

  // The value behind its first byte.
  lemma RestRun(r: Run, v: Bytes, ps: seq<Bytes>, f: Flags) returns (r': Run)
    requires v != [] && ps != [] && Joined(ps) == v && PiecesOk(ps)
    requires InText(r) && r.st.hstate == FirstState(v[0]) && r.st.index == 0 && r.st.flags == f
    ensures r' == RunBytes(r, v[1..]) && Moved(r, r', v[1..]) && AtLast(f, Opening, ps, r'.st)
    ensures SetOption(r'.st.flags, r'.st.hstate) == Hear(f, Opening, ps) && NotChunked(r'.st.hstate)
  {
    hide RunBytes, Hear, SetOption, NotChunked, Follows, FirstState, AtLast;
    var p := ps[0];
    if p == [] {
      r' := EmptyFirst(r, ps);
    } else {
      FirstFollows(r.st, v[0]);
      assert PieceOk(p[1..]);
      var r1 := OptionRun(r, [v[0]], p[1..]);
      assert [v[0]] + p[1..] == p;
      r' := BehindRun(r1, Opening, ps);
      var rest := v[|p|..];
      assert v[1..] == p[1..] + rest;
      RunAppend(r, p[1..], rest);
      MovedAppend(r, r1, p[1..], r', rest);
    }
  }

  // A comma at the front counts as the first letter of a word, so that the piece behind it is passed over.
  lemma EmptyFirst(r: Run, ps: seq<Bytes>) returns (r': Run)
    requires InText(r) && r.st.hstate == FirstState(',')
    requires |ps| > 1 && ps[0] == [] && PiecesOk(ps)
    ensures r' == RunBytes(r, Joined(ps)[1..]) && Moved(r, r', Joined(ps)[1..])
    ensures AtLast(r.st.flags, Opening, ps, r'.st)
    ensures SetOption(r'.st.flags, r'.st.hstate) == Hear(r.st.flags, Opening, ps) && NotChunked(r'.st.hstate)
  {
    hide RunBytes, Hear, SetOption, NotChunked, HearOne, AtLast;
    NoCommas();
    PiecesRest(ps);
    r' := MoreRun(r, Deaf, ps[1..]);
    HearFirst(r.st.flags, Opening, ps);
    NothingHeard(r.st.flags);
    AtLater(r.st.flags, Opening, ps, r'.st);
    assert Joined(ps)[1..] == Joined(ps[1..]);
  }

  lemma NothingHeard(f: Flags)
    ensures HearOne(f, Opening, []) == f
  {
    Literals();
  }

  // ---------- when the flags are those of the list

  lemma HeardIsSaid(m: Mode, p: Bytes, k: Known)
    requires Heard(m, p, k)
    ensures Says(p, k)
  {
    hide WordAt;
    var a: nat :| HeardAt(m, p, k, a);
    LowerSpace();
    hide Lower;
    assert SaysAt(p, k, a);
  }

  lemma LowerSpace()
    ensures forall ch: Byte :: Lower(ch) == ' ' <==> ch == ' ' || ch == NUL
  {
  }

  // The list names the option, but no piece of it is heard as the option, and the flag was not set before.
  ghost predicate Missed(f: Flags, ps: seq<Bytes>, k: Known) {
    SomeSays(ps, k) && !SomeHeard(Opening, ps, k) && !Has(f, k)
  }

  lemma SomeHeardIsSaid(ps: seq<Bytes>, k: Known)
    ensures SomeHeard(Opening, ps, k) ==> SomeSays(ps, k)
  {
    hide Heard, Says;
    if i :| 0 <= i < |ps| && Heard(ModeAt(Opening, ps, i), ps[i], k) {
      HeardIsSaid(ModeAt(Opening, ps, i), ps[i], k);
    }
  }

  /** No flag is set that the list does not ask for; and the flags are all those it asks for if and only if
      none of its options is missed. */
  lemma ListExact(f: Flags, ps: seq<Bytes>)
    ensures forall k: Known :: Has(Hear(f, Opening, ps), k) ==> Has(Listed(f, ps), k)
    ensures Hear(f, Opening, ps) == Listed(f, ps) <==> forall k: Known :: !Missed(f, ps, k)
  {
    hide SomeHeard, SomeSays;
    forall k: Known ensures SomeHeard(Opening, ps, k) ==> SomeSays(ps, k) { SomeHeardIsSaid(ps, k); }
    if !Missed(f, ps, ToKeepAlive) && !Missed(f, ps, ToClose) && !Missed(f, ps, ToUpgrade) {
      forall k: Known ensures !Missed(f, ps, k) {
        match k case ToKeepAlive => case ToClose => case ToUpgrade =>
      }
    }
  }

  /** A Connection header sets exactly the flags of the options that are heard: its value is cut at the
      commas, and a piece is passed over if it stands right behind an unfinished word or an empty first
      piece, or anywhere behind a later piece that is empty or begins with a byte whose lower-cased form is no
      token character. These are the flags of all options of the list if and only if none is missed. */
  lemma ConnectionExact(r: Run, v: Bytes)
    requires AtOptions(r) && ValueOk(v)
    ensures var r' := RunBytes(r, v + ([CR] + ([LF] + [CR])));
            && r' == r.(st := r'.st, used := r.used + |v| + 3, trace := Emit(r.trace, Data(ValueData, v)))
            && r'.st.state == HeadersAlmostDone && r'.st.flags == Hear(r.st.flags, Opening, Pieces(v))
            && (r'.st.flags == Listed(r.st.flags, Pieces(v)) <==> forall k :: !Missed(r.st.flags, Pieces(v), k))
  {
    hide RunBytes, Resume, Emit, Hear, FinishValue, Pieces, Listed, Missed, AtLast;
    ListExact(r.st.flags, Pieces(v));
    var r1 := ListRun(r, v);
    RunAppend(r, v, [CR] + ([LF] + [CR]));
    RunAppend(r1, [CR], [LF] + [CR]);
    RunOne(r1, CR);
    ValueCr(r1);
    LinesEnd(RunBytes(r1, [CR]));
  }

  // An element of a list as it should be: first a byte whose lower-cased form is a token character, no tab or NUL,
  // and no unfinished word.
  predicate Clean(p: Bytes) {
    && Lead(p) < |p| && IsToken(p[Lead(p)]) && !Unfinished(p[Lead(p)..])
    && forall i :: 0 <= i < |p| ==> p[i] != '\t' && p[i] != NUL
  }

  lemma {:induction false} CleanModes(m: Mode, ps: seq<Bytes>, i: nat)
    requires i < |ps| && forall j :: 0 <= j < |ps| ==> Clean(ps[j])
    requires m.Listening? || (m.Opening? && Lead(ps[0]) == 0)
    ensures ModeAt(m, ps, i) == if i == 0 then m else Listening
    decreases i
  {
    hide Lead, IsToken, Unfinished;
    if i > 0 {
      assert Clean(ps[0]);
      assert ps[0][0..] == ps[0];
      CleanModes(NextMode(m, ps[0]), ps[1..], i - 1);
    }
  }

  lemma CleanHeard(m: Mode, p: Bytes, k: Known)
    requires Clean(p) && Says(p, k) && (m.Listening? || (m.Opening? && Lead(p) == 0))
    ensures Heard(m, p, k)
  {
    hide WordAt, IsToken, Unfinished;
    var a: nat :| SaysAt(p, k, a);
    LowerSpace();
    hide Lower;
    assert a > 0 ==> Lead(p) > 0;
    assert HeardAt(m, p, k, a);
  }

  /** Every option is heard in a list of clean elements that does not begin with a space. */
  lemma CleanListHeard(f: Flags, ps: seq<Bytes>)
    requires ps != [] && Lead(ps[0]) == 0 && forall j :: 0 <= j < |ps| ==> Clean(ps[j])
    ensures Hear(f, Opening, ps) == Listed(f, ps)
  {
    hide Heard, Says, Clean;
    forall k: Known ensures !Missed(f, ps, k) {
      if i :| 0 <= i < |ps| && Says(ps[i], k) {
        CleanModes(Opening, ps, i);
        CleanHeard(ModeAt(Opening, ps, i), ps[i], k);
        assert SomeHeard(Opening, ps, k);
      }
    }
    ListExact(f, ps);
  }

  // ---------- lists that are not heard to the end

  // An unfinished word, an empty first piece, an empty later piece in front of an option.
  const BEHIND_WORD: Bytes := "c,close"
  const BEHIND_NOTHING: Bytes := ",close"
  const BEHIND_GAP: Bytes := "close,,keep-alive"

  lemma FirstPiece(a: Bytes, b: Bytes)
    requires ',' !in a
    ensures Pieces(a + ([','] + b)) == [a] + Pieces(b) && Pieces(a) == [a]
  {
    hide CommaAt;
    var v := a + ([','] + b);
    CommaBehindFirst(a, b);
    assert v[..|a|] == a && v[|a| + 1..] == b;
  }

  lemma CommaBehindFirst(a: Bytes, b: Bytes)
    requires ',' !in a
    ensures CommaAt(a + ([','] + b)) == |a| && CommaAt(a) == |a|
  {
    var v := a + ([','] + b);
    assert v[|a|] == ',' && forall i :: 0 <= i < |a| ==> v[i] == a[i];
  }

  lemma MissedPieces()
    ensures Pieces(BEHIND_WORD) == ["c", CLOSE]
    ensures Pieces(BEHIND_NOTHING) == ["", CLOSE]
    ensures Pieces(BEHIND_GAP) == [CLOSE, "", KEEP_ALIVE]
  {
    hide Pieces;
    FirstPiece("c", CLOSE);
    FirstPiece("", CLOSE);
    FirstPiece(CLOSE, [','] + KEEP_ALIVE);
    FirstPiece("", KEEP_ALIVE);
    FirstPiece(CLOSE, "");
    FirstPiece(KEEP_ALIVE, "");
    assert BEHIND_WORD == ['c'] + ([','] + CLOSE);
    assert BEHIND_NOTHING == [] + ([','] + CLOSE);
    var rest: Bytes := [','] + KEEP_ALIVE;
    assert BEHIND_GAP == CLOSE + ([','] + rest) && "" + rest == rest;
  }

  lemma LiteralLowers(k: Known)
    ensures WordAt(Literal(k), k, 0)
  {
    match k case ToKeepAlive => case ToClose => case ToUpgrade =>
  }

  lemma HearTwo(f: Flags, m: Mode, p: Bytes, q: Bytes)
    ensures Hear(f, m, [p, q]) == HearOne(HearOne(f, m, p), NextMode(m, p), q)
  {
    hide SomeHeard, NextMode, HearOne, Hear;
    var n := NextMode(m, p);
    HearFirst(f, m, [p, q]);
    assert [p, q][1..] == [q] && [q][1..] == [];
    HearFirst(HearOne(f, m, p), n, [q]);
    HearNothing(HearOne(HearOne(f, m, p), n, q), NextMode(n, q));
  }

  // No flag is set by a piece that is passed over, or that is shorter than the options.
  lemma NoneHeard(f: Flags, m: Mode, p: Bytes)
    requires m.Deaf? || m.Lost? || |p| < 5
    ensures HearOne(f, m, p) == f
  {
    Literals();
    hide Lowers;
  }

  lemma CloseHeard(f: Flags)
    ensures HearOne(f, Opening, CLOSE) == f.(close := true) && NextMode(Opening, CLOSE) == Listening
  {
    hide Lower;
    LiteralLowers(ToClose);
    assert HeardAt(Opening, CLOSE, ToClose, 0);
    OneOption(CLOSE, ToClose);
    forall k: Known | Heard(Opening, CLOSE, k) ensures k == ToClose {
      assert HeardAt(Opening, CLOSE, k, 0);
      assert Complete(CLOSE, k);
    }
    NotUnfinished(CLOSE);
  }

  lemma WordModes()
    ensures NextMode(Opening, "c") == Deaf && NextMode(Opening, "") == Deaf && NextMode(Listening, "") == Lost
  {
    assert Lowers("c") == "c" == CLOSE[..1];
    assert Begins("c", ToClose);
  }

  lemma MissedFlags(f: Flags)
    ensures Hear(f, Opening, Pieces(BEHIND_WORD)) == f && Hear(f, Opening, Pieces(BEHIND_NOTHING)) == f
    ensures Hear(f, Opening, Pieces(BEHIND_GAP)) == f.(close := true)
  {
    hide Hear, HearOne, NextMode, Pieces;
    MissedPieces();
    WordModes();
    HearTwo(f, Opening, "c", CLOSE);
    NoneHeard(f, Opening, "c");
    NoneHeard(f, Deaf, CLOSE);
    HearTwo(f, Opening, "", CLOSE);
    NoneHeard(f, Opening, "");
    HearFirst(f, Opening, [CLOSE, "", KEEP_ALIVE]);
    CloseHeard(f);
    var g := f.(close := true);
    assert [CLOSE, "", KEEP_ALIVE][1..] == ["", KEEP_ALIVE];
    HearTwo(g, Listening, "", KEEP_ALIVE);
    NoneHeard(g, Listening, "");
    NoneHeard(g, Lost, KEEP_ALIVE);
  }

  /** The missed options are real: "c,close" and ",close" set no flag, and "close,,keep-alive" sets one, though
      the second piece is the option to close, and the third the one to keep the connection. */
  lemma OptionsMissed(r: Run)
    requires AtOptions(r)
    ensures RunBytes(r, BEHIND_WORD + ([CR] + ([LF] + [CR]))).st.flags == r.st.flags
    ensures RunBytes(r, BEHIND_NOTHING + ([CR] + ([LF] + [CR]))).st.flags == r.st.flags
    ensures RunBytes(r, BEHIND_GAP + ([CR] + ([LF] + [CR]))).st.flags == r.st.flags.(close := true)
    ensures |Pieces(BEHIND_WORD)| == |Pieces(BEHIND_NOTHING)| == 2 && |Pieces(BEHIND_GAP)| == 3
    ensures Says(Pieces(BEHIND_WORD)[1], ToClose) && Says(Pieces(BEHIND_NOTHING)[1], ToClose)
    ensures Says(Pieces(BEHIND_GAP)[2], ToKeepAlive)
  {
    hide RunBytes, Hear, Pieces, WordAt, Missed, Listed, Says, Emit;
    ConnectionExact(r, BEHIND_WORD);
    ConnectionExact(r, BEHIND_NOTHING);
    ConnectionExact(r, BEHIND_GAP);
    MissedFlags(r.st.flags);
    MissedPieces();
    LiteralSays(ToClose);
    LiteralSays(ToKeepAlive);
  }

  lemma LiteralSays(k: Known)
    ensures Says(Literal(k), k)
  {
    hide WordAt;
    LiteralLowers(k);
    assert SaysAt(Literal(k), k, 0);
  }
}
