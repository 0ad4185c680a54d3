/** The request-method automaton accepts exactly the method names. */
module HttpMethods {
  import opened HttpTypes
  import opened HttpDispatch
  import opened HttpInvariant
  import opened HttpRun

  // The method the parser holds just before it moves on to m, and after how many letters it does so.
  // A method that starts out as itself has itself for a parent.
  function Parent(m: Method): (Method, nat) {
    match m
    case CHECKOUT => (CONNECT, 1) case COPY => (CONNECT, 2)
    case MOVE => (MKCOL, 1) case MERGE => (MKCOL, 1) case MSEARCH => (MKCOL, 1)
    case MKACTIVITY => (MKCOL, 2) case MKCALENDAR => (MKCOL, 3)
    case SEARCH => (SUBSCRIBE, 1) case REBIND => (REPORT, 2)
    case PROPFIND => (POST, 1) case PUT => (POST, 1) case PATCH => (POST, 1)
    case PURGE => (PUT, 2) case UNSUBSCRIBE => (UNLOCK, 2) case UNBIND => (UNLOCK, 2)
    case PROPPATCH => (PROPFIND, 4)
    case _ => (m, 0)
  }

  // The method held after i letters of m's name.
  function Held(m: Method, i: nat): Method
    decreases Parent(m).1
  {
    var (p, at) := Parent(m);
    if i > at then m else if at == 0 then m else Held(p, i)
  }

  // The methods agree with the letters read so far.
  ghost predicate Spells(m: Method, i: nat, w: Bytes) {
    i == |w| && i <= |MethodString(m)| && w == MethodString(m)[..i]
  }

  /** A method shares with its parent the letters read before it branches off. */
  lemma SharedLetters(m: Method)
    ensures var (p, at) := Parent(m);
            at < |MethodString(p)| && at < |MethodString(m)| && MethodString(p)[..at] == MethodString(m)[..at]
  {
  }

  lemma SwitchIsBranch(m: Method, i: nat, ch: Byte)
    requires SwitchMethod(m, i, ch).1
    ensures var m' := SwitchMethod(m, i, ch).0; Parent(m') == (m, i) && CharAt(MethodString(m'), i) == ch
  {
  }

  lemma SwitchSpells(m: Method, i: nat, ch: Byte)
    requires i <= |MethodString(m)| && SwitchMethod(m, i, ch).1
    ensures var m' := SwitchMethod(m, i, ch).0;
            i + 1 <= |MethodString(m')| && MethodString(m')[..i + 1] == MethodString(m)[..i] + [ch]
  {
    hide MethodString, SwitchMethod, Parent;
    var m' := SwitchMethod(m, i, ch).0;
    SwitchIsBranch(m, i, ch);
    SharedLetters(m');
    assert MethodString(m')[..i + 1] == MethodString(m')[..i] + [MethodString(m')[i]];
  }

  lemma FirstSpells(ch: Byte)
    requires FirstMethod(ch).1
    ensures MethodString(FirstMethod(ch).0)[..1] == [ch] && IsAlpha(ch)
  {
  }

  lemma LettersOnly(m: Method, i: nat)
    requires i < |MethodString(m)|
    ensures MethodString(m)[i] != ' ' && MethodString(m)[i] != NUL && MethodString(m)[i] as int < 128
  {
    if Early(m) {
      EarlyLetters(m, i);
    } else {
      LateLetters(m, i);
    }
  }

  // The first half of the methods.
  predicate Early(m: Method) {
    m.DELETE? || m.GET? || m.HEAD? || m.POST? || m.PUT? || m.CONNECT? || m.OPTIONS? || m.TRACE? || m.COPY? || m.LOCK?
    || m.MKCOL? || m.MOVE? || m.PROPFIND? || m.PROPPATCH? || m.SEARCH?
  }

  lemma EarlyLetters(m: Method, i: nat)
    requires Early(m) && i < |MethodString(m)|
    ensures MethodString(m)[i] != ' ' && MethodString(m)[i] != NUL && MethodString(m)[i] as int < 128
  {
  }

  lemma LateLetters(m: Method, i: nat)
    requires !Early(m) && i < |MethodString(m)|
    ensures MethodString(m)[i] != ' ' && MethodString(m)[i] != NUL && MethodString(m)[i] as int < 128
  {
  }

  /** Where a method branches off its parent, the automaton takes that branch. */
  lemma BranchTaken(m: Method)
    ensures var (p, at) := Parent(m);
            && at < |MethodString(m)|
            && (at > 0 ==> p != m && CharAt(MethodString(p), at) != MethodString(m)[at]
                           && MethodString(m)[at] as int < 128
                           && SwitchMethod(p, at, MethodString(m)[at]) == (m, true))
            && (at == 0 ==> FirstMethod(MethodString(m)[0]) == (m, true))
  {
    hide MethodString, SwitchMethod, FirstMethod, Parent;
    if Parent(m).1 > 0 {
      BranchesOff(m);
    } else {
      StartsItself(m);
    }
  }

  lemma BranchesOff(m: Method)
    requires Parent(m).1 > 0
    ensures var (p, at) := Parent(m);
            && at < |MethodString(m)| && p != m && CharAt(MethodString(p), at) != MethodString(m)[at]
            && MethodString(m)[at] as int < 128 && SwitchMethod(p, at, MethodString(m)[at]) == (m, true)
  {
  }

  lemma StartsItself(m: Method)
    requires Parent(m).1 == 0
    ensures 0 < |MethodString(m)| && FirstMethod(MethodString(m)[0]) == (m, true)
  {
  }

  lemma HeldNext(m: Method, i: nat)
    requires 1 <= i < |MethodString(m)|
    ensures var (p, at) := Parent(m);
            && (i > at ==> Held(m, i) == Held(m, i + 1) == m)
            && (i == at ==> Held(m, i) == Held(p, i) == p && Held(m, i + 1) == m)
            && (i < at ==> Held(m, i) == Held(p, i) && Held(m, i + 1) == Held(p, i + 1))
  {
    hide MethodString;
  }

  /** The automaton holds, after each letter of m's name, the method it should. */
  lemma {:induction false} HeldSteps(m: Method, i: nat)
    requires 1 <= i < |MethodString(m)|
    ensures var ch, h, h' := MethodString(m)[i], Held(m, i), Held(m, i + 1);
            ch as int < 128 && ch != ' ' && ch != NUL &&
            if ch == CharAt(MethodString(h), i) then h' == h else SwitchMethod(h, i, ch) == (h', true)
    decreases Parent(m).1
  {
    hide MethodString, SwitchMethod, Parent, Held;
    var (p, at) := Parent(m);
    LettersOnly(m, i);
    HeldNext(m, i);
    SharedLetters(m);
    BranchTaken(m);
    ParentDecreases(m);
    if i < at {
      assert MethodString(p)[i] == MethodString(p)[..at][i] == MethodString(m)[..at][i] == MethodString(m)[i];
      HeldSteps(p, i);
    }
  }

  lemma ParentDecreases(m: Method)
    ensures var (p, at) := Parent(m); Parent(p).1 < at || at == 0
  {
  }

  // ---------- over a run

  // The letters w have been read as the beginning of a method name.
  ghost predicate WordRead(r: Run, r': Run, w: Bytes) {
    && r.ctl == Next && r.pend == Closed
    && r' == r.(st := r.st.(flags := NO_FLAGS, contentLength := ULLONG_MAX, state := ReqMethod, meth := r'.st.meth,
                            index := r'.st.index),
                trace := Emit(r.trace, MessageBegin), used := r.used + |w|)
    && Spells(r'.st.meth, r'.st.index, w)
  }

  ghost predicate AtStart(r: Run) { r.ctl == Next && r.st.state == StartReq && r.pend == Closed }

  lemma FirstLetter(r: Run, ch: Byte)
    requires AtStart(r) && ch != CR && ch != LF
    ensures var r' := Resume(r, ch);
            if FirstMethod(ch).1 then WordRead(r, r', [ch]) && r'.st.meth == FirstMethod(ch).0 else r'.ctl == Failed
  {
    hide MethodString, Emit, FirstMethod, Dispatch;
    FirstDispatch(r.st, ch);
    if FirstMethod(ch).1 {
      FirstSpells(ch);
      LengthsPositive(FirstMethod(ch).0);
    }
  }

  lemma FirstDispatch(s: Parser, ch: Byte)
    requires s.state == StartReq && ch != CR && ch != LF
    ensures var (m, known) := FirstMethod(ch);
            if known then
              Dispatch(s, ch) == Outcome(s.(flags := NO_FLAGS, contentLength := ULLONG_MAX, meth := m, index := 1,
                                            state := ReqMethod), Notify(MessageBegin), Next)
            else Dispatch(s, ch).ctl == Failed && Dispatch(s, ch).act == NoAct
  {
    hide FirstMethod, DispatchHeader, DispatchBody, DispatchUrl;
    if FirstMethod(ch).1 {
      FirstSpells(ch);
    }
  }

  lemma LengthsPositive(m: Method)
    ensures 3 <= |MethodString(m)| <= 11
  {
    MethodIndexOk(m, 0, 'A');
  }

  lemma MethodDispatch(s: Parser, ch: Byte)
    requires s.state == ReqMethod
    ensures Dispatch(s, ch) == DispatchMethod(s, ch)
  {
    hide DispatchMethod;
  }

  lemma NextLetter(r: Run, r': Run, w: Bytes, ch: Byte)
    requires WordRead(r, r', w) && ch != ' '
    ensures var r2 := Resume(r', ch);
            if ch != NUL && ch == CharAt(MethodString(r'.st.meth), |w|) then
              WordRead(r, r2, w + [ch]) && r2.st.meth == r'.st.meth
            else if ch != NUL && SwitchMethod(r'.st.meth, |w|, ch).1 then
              WordRead(r, r2, w + [ch]) && r2.st.meth == SwitchMethod(r'.st.meth, |w|, ch).0
            else r2.ctl == Failed
  {
    hide MethodString, SwitchMethod, Dispatch, Emit;
    MethodDispatch(r'.st, ch);
    var m := r'.st.meth;
    if ch != NUL && ch == CharAt(MethodString(m), |w|) {
      assert MethodString(m)[..|w| + 1] == MethodString(m)[..|w|] + [ch];
    } else if SwitchMethod(m, |w|, ch).1 {
      SwitchSpells(m, |w|, ch);
    }
  }

  lemma {:induction false} Letters(r: Run, w: Bytes)
    requires AtStart(r) && w != [] && w[0] != CR && w[0] != LF && ' ' !in w
    ensures var r' := RunBytes(r, w); r'.ctl == Failed || WordRead(r, r', w)
    decreases |w|
  {
    hide Resume, WordRead;
    var n := |w| - 1;
    assert w == w[..n] + [w[n]];
    if n == 0 {
      FirstLetter(r, w[0]);
      RunOne(r, w[0]);
    } else {
      Letters(r, w[..n]);
      RunAppend(r, w[..n], [w[n]]);
      var r' := RunBytes(r, w[..n]);
      if r'.ctl != Failed {
        WordReadNext(r, r', w[..n]);
        NextLetter(r, r', w[..n], w[n]);
        RunOne(r', w[n]);
      }
    }
  }

  lemma WordReadNext(r: Run, r': Run, w: Bytes)
    requires WordRead(r, r', w)
    ensures r'.ctl == Next
  {
  }

  /** Reading the letters of m's name never fails and ends with m. */
  lemma {:induction false} LettersOf(r: Run, m: Method, w: Bytes)
    requires AtStart(r) && w != [] && |w| <= |MethodString(m)| && w == MethodString(m)[..|w|]
    ensures var r' := RunBytes(r, w); WordRead(r, r', w) && r'.st.meth == Held(m, |w|)
    decreases |w|
  {
    hide Resume, WordRead, MethodString, Held, SwitchMethod, FirstMethod;
    var n := |w| - 1;
    assert w == w[..n] + [w[n]];
    assert w[n] == MethodString(m)[n];
    if n == 0 {
      HeldFirst(m);
      FirstLetter(r, w[0]);
      RunOne(r, w[0]);
    } else {
      LettersOf(r, m, w[..n]);
      HeldSteps(m, n);
      RunAppend(r, w[..n], [w[n]]);
      var r' := RunBytes(r, w[..n]);
      WordReadNext(r, r', w[..n]);
      NextLetter(r, r', w[..n], w[n]);
      RunOne(r', w[n]);
    }
  }

  lemma {:induction false} HeldFirst(m: Method)
    ensures MethodString(m)[0] as int < 128
    ensures FirstMethod(MethodString(m)[0]) == (Held(m, 1), true)
    ensures MethodString(m)[0] != CR && MethodString(m)[0] != LF
    decreases Parent(m).1
  {
    hide MethodString, Parent;
    var (p, at) := Parent(m);
    BranchTaken(m);
    SharedLetters(m);
    ParentDecreases(m);
    LettersOnly(m, 0);
    if at > 0 {
      assert MethodString(p)[0] == MethodString(p)[..at][0] == MethodString(m)[..at][0] == MethodString(m)[0];
      HeldFirst(p);
    }
    NotLineEnd(m);
  }

  lemma NotLineEnd(m: Method)
    ensures |MethodString(m)| > 0 && MethodString(m)[0] != CR && MethodString(m)[0] != LF
  {
  }

  lemma SpaceEndsMethod(r: Run, r': Run, w: Bytes)
    requires WordRead(r, r', w)
    ensures var r2 := Resume(r', ' ');
            if w == MethodString(r'.st.meth) then
              r2 == r'.(st := r'.st.(state := ReqSpacesBeforeUrl, index := |w| + 1), used := r'.used + 1)
            else r2.ctl == Failed && r2.st.errno == InvalidMethod
  {
    hide MethodString, SwitchMethod, Dispatch, Emit;
    MethodDispatch(r'.st, ' ');
    var m := r'.st.meth;
    NoSwitchAtSpace(m, |w|);
    if |w| < |MethodString(m)| {
      LettersOnly(m, |w|);
    }
  }

  lemma NoSwitchAtSpace(m: Method, i: nat)
    ensures !SwitchMethod(m, i, ' ').1
  {
  }

  /** A word followed by a space is taken for method m if and only if it is m's name. */
  lemma MethodExact(r: Run, w: Bytes, m: Method)
    requires AtStart(r) && w != [] && w[0] != CR && w[0] != LF && ' ' !in w
    ensures var r' := RunBytes(r, w + [' ']);
            && (r'.ctl == Next && r'.st.state == ReqSpacesBeforeUrl && r'.st.meth == m <==> w == MethodString(m))
            && (r'.ctl == Failed || (r'.ctl == Next && r'.st.state == ReqSpacesBeforeUrl))
            && (r'.ctl == Next ==>
                  r' == r.(st := r.st.(flags := NO_FLAGS, contentLength := ULLONG_MAX, state := ReqSpacesBeforeUrl,
                                       meth := r'.st.meth, index := |w| + 1),
                           trace := Emit(r.trace, MessageBegin), used := r.used + |w| + 1))
  {
    hide MethodString, RunBytes, Emit;
    AnyWord(r, w);
    if w == MethodString(m) {
      NameTaken(r, w, m);
    }
  }

  lemma AnyWord(r: Run, w: Bytes)
    requires AtStart(r) && w != [] && w[0] != CR && w[0] != LF && ' ' !in w
    ensures var r' := RunBytes(r, w + [' ']);
            r'.ctl == Failed
            || (w == MethodString(r'.st.meth)
                && r' == r.(st := r.st.(flags := NO_FLAGS, contentLength := ULLONG_MAX, state := ReqSpacesBeforeUrl,
                                        meth := r'.st.meth, index := |w| + 1),
                            trace := Emit(r.trace, MessageBegin), used := r.used + |w| + 1))
  {
    hide Resume, MethodString, RunBytes, Emit, WordRead;
    RunAppend(r, w, [' ']);
    Letters(r, w);
    var r' := RunBytes(r, w);
    StaysEnded(r', [' ']);
    if r'.ctl != Failed {
      WordReadNext(r, r', w);
      RunOne(r', ' ');
      WordEnds(r, r', w);
    }
  }

  lemma NameTaken(r: Run, w: Bytes, m: Method)
    requires AtStart(r) && w == MethodString(m) && w != []
    ensures var r' := RunBytes(r, w + [' ']); r'.ctl == Next && r'.st.state == ReqSpacesBeforeUrl && r'.st.meth == m
  {
    hide Resume, MethodString, RunBytes, Emit, WordRead;
    assert MethodString(m)[..|w|] == w;
    RunAppend(r, w, [' ']);
    LettersOf(r, m, w);
    var r' := RunBytes(r, w);
    WordReadNext(r, r', w);
    HeldLast(m);
    RunOne(r', ' ');
    WordEnds(r, r', w);
  }

  lemma WordEnds(r: Run, r': Run, w: Bytes)
    requires WordRead(r, r', w)
    ensures var r2 := Resume(r', ' ');
            if w == MethodString(r'.st.meth) then
              r2 == r.(st := r.st.(flags := NO_FLAGS, contentLength := ULLONG_MAX, state := ReqSpacesBeforeUrl,
                                   meth := r'.st.meth, index := |w| + 1),
                       trace := Emit(r.trace, MessageBegin), used := r.used + |w| + 1)
            else r2.ctl == Failed
  {
    hide Resume, MethodString, Emit;
    SpaceEndsMethod(r, r', w);
  }

  lemma HeldLast(m: Method)
    ensures Held(m, |MethodString(m)|) == m
  {
    hide MethodString;
    SharedLetters(m);
  }
}
