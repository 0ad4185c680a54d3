/** The protocol and the numbers in the first line of a message. */
module HttpVersions {
  import opened HttpTypes
  import opened HttpDispatch
  import opened HttpRun
  import opened HttpLengths

  predicate Spaces(xs: Bytes) { forall i :: 0 <= i < |xs| ==> xs[i] == ' ' }

  // The line ends that may stand in front of a message.
  predicate LeadOk(xs: Bytes) { forall i :: 0 <= i < |xs| ==> xs[i] == CR || xs[i] == LF }

  predicate Digits(ds: Bytes) { ds != [] && forall i :: 0 <= i < |ds| ==> IsNum(ds[i]) }

  // A number in a first line: digits worth at most 999.
  predicate NumberOk(ds: Bytes) { Digits(ds) && Decimal(0, ds) <= 999 }

  lemma FirstIsDigit(ds: Bytes)
    requires NumberOk(ds)
    ensures ds != [] && IsNum(ds[0]) && DigitsOrSpaces(ds)
  {
  }

  const PROTOCOL: Bytes := ['H', 'T', 'T', 'P', '/']

  // The state after k letters of it in a response (where the first has already been taken) or a request.
  function ProtocolState(response: bool, k: nat): State {
    if response then
      if k <= 1 then ResH else if k == 2 then ResHT else if k == 3 then ResHTT
      else if k == 4 then ResHTTP else ResFirstHttpMajor
    else if k == 0 then ReqHttpStart else if k == 1 then ReqHttpH else if k == 2 then ReqHttpHT
    else if k == 3 then ReqHttpHTT else if k == 4 then ReqHttpHTTP else ReqFirstHttpMajor
  }

  lemma ProtocolDispatch(s: Parser, response: bool, k: nat)
    requires k < 5 && s.state == ProtocolState(response, k) && (response ==> k > 0)
    ensures |PROTOCOL| == 5 && Dispatch(s, PROTOCOL[k]) == Go(s.(state := ProtocolState(response, k + 1)))
  {
    hide DispatchHeader, DispatchBody, DispatchUrl, DispatchStart;
  }

  lemma {:induction false} ProtocolRun(r: Run, response: bool, k: nat, b: Bytes)
    requires r.ctl == Next && r.pend == Closed && k <= 5 == |PROTOCOL| && (response ==> k > 0)
    requires r.st.state == ProtocolState(response, k)
    ensures RunBytes(r, PROTOCOL[k..] + b)
            == RunBytes(r.(st := r.st.(state := ProtocolState(response, 5)), used := r.used + (5 - k)), b)
    decreases 5 - k
  {
    hide Dispatch, RunBytes, PROTOCOL;
    if k == 5 {
      assert PROTOCOL[k..] + b == b;
    } else {
      var s1 := r.st.(state := ProtocolState(response, k + 1));
      ProtocolDispatch(r.st, response, k);
      assert PROTOCOL[k..] + b == [PROTOCOL[k]] + (PROTOCOL[k + 1..] + b);
      OneGo(r, PROTOCOL[k], s1, PROTOCOL[k + 1..] + b);
      ProtocolRun(r.(st := s1, used := r.used + 1), response, k + 1, b);
    }
  }

  // The numbers read digit by digit.
  datatype Number = Major | Minor | Status

  function NumberOf(s: Parser, n: Number): nat {
    match n case Major => s.major case Minor => s.minor case Status => s.status
  }

  function WithNumber(s: Parser, n: Number, v: nat): Parser {
    match n case Major => s.(major := v) case Minor => s.(minor := v) case Status => s.(status := v)
  }

  predicate InNumber(s: Parser, n: Number) {
    match n
    case Major => s.state == ReqHttpMajor || s.state == ResHttpMajor
    case Minor => s.state == ReqHttpMinor || s.state == ResHttpMinor
    case Status => s.state == ResStatusCode
  }

  lemma NumberDispatch(s: Parser, n: Number, ch: Byte)
    requires InNumber(s, n) && IsNum(ch)
    ensures Dispatch(s, ch) == NumberTaken(s, n, NumberOf(s, n) * 10 + Digit(ch))
  {
    hide Dispatch, NumberTaken;
    match n
    case Major => MajorNumber(s, ch);
    case Minor => MinorNumber(s, ch);
    case Status => StatusNumber(s, ch);
  }

  // What becomes of a number that has grown to v.
  function NumberTaken(s: Parser, n: Number, v: nat): Outcome {
    if v <= 999 then Go(WithNumber(s, n, v))
    else Fail(WithNumber(s, n, v), if n.Status? then InvalidStatus else InvalidVersion)
  }

  lemma MajorNumber(s: Parser, ch: Byte)
    requires InNumber(s, Major) && IsNum(ch)
    ensures Dispatch(s, ch) == NumberTaken(s, Major, s.major * 10 + Digit(ch))
  {
    hide DispatchHeader, DispatchBody, DispatchUrl, DispatchStart, PutMinor, DispatchStatusCode;
  }

  lemma MinorNumber(s: Parser, ch: Byte)
    requires InNumber(s, Minor) && IsNum(ch)
    ensures Dispatch(s, ch) == NumberTaken(s, Minor, s.minor * 10 + Digit(ch))
  {
    hide DispatchHeader, DispatchBody, DispatchUrl, DispatchStart, PutMajor, DispatchStatusCode;
  }

  lemma StatusNumber(s: Parser, ch: Byte)
    requires InNumber(s, Status) && IsNum(ch)
    ensures Dispatch(s, ch) == NumberTaken(s, Status, s.status * 10 + Digit(ch))
  {
    hide DispatchHeader, DispatchBody, DispatchUrl, DispatchStart, PutMajor, PutMinor;
  }

  /** Further digits of a number are accepted if and only if the number stays at most 999. */
  lemma {:induction false} NumberRun(r: Run, n: Number, ds: Bytes)
    requires r.ctl == Next && r.pend == Closed && InNumber(r.st, n) && forall i :: 0 <= i < |ds| ==> IsNum(ds[i])
    requires NumberOf(r.st, n) <= 999
    ensures var r', v := RunBytes(r, ds), Decimal(NumberOf(r.st, n), ds);
            if v <= 999 then r' == r.(st := WithNumber(r.st, n, v), used := r.used + |ds|)
            else r'.ctl == Failed && r'.st.errno == if n.Status? then InvalidStatus else InvalidVersion
    decreases |ds|
  {
    hide Dispatch;
    if ds != [] {
      var v := NumberOf(r.st, n) * 10 + Digit(ds[0]);
      NumberDispatch(r.st, n, ds[0]);
      DecimalGrows(v, ds[1..]);
      if v <= 999 {
        GoRun(r, ds[0], WithNumber(r.st, n, v));
        NumberRun(Resume(r, ds[0]), n, ds[1..]);
      } else {
        StaysEnded(Resume(r, ds[0]), ds[1..]);
      }
    }
  }

  // A number behind its first digit, which has moved the parser to s1.
  lemma WholeNumber(r: Run, n: Number, ds: Bytes, s1: Parser, b: Bytes) returns (r': Run)
    requires r.ctl == Next && r.pend == Closed && NumberOk(ds)
    requires InNumber(s1, n) && NumberOf(s1, n) == Digit(ds[0]) && Dispatch(r.st, ds[0]) == Go(s1)
    ensures r' == r.(st := WithNumber(s1, n, Decimal(0, ds)), used := r.used + |ds|)
    ensures RunBytes(r, ds + b) == RunBytes(r', b)
  {
    hide Dispatch, RunBytes;
    assert ds + b == [ds[0]] + (ds[1..] + b);
    OneGo(r, ds[0], s1, ds[1..] + b);
    var r1 := r.(st := s1, used := r.used + 1);
    NumberRun(r1, n, ds[1..]);
    RunAppend(r1, ds[1..], b);
    r' := RunBytes(r1, ds[1..]);
  }

  // ---------- the version

  // The states around the numbers of the version of a response or a request.
  function FirstMajor(response: bool): State { if response then ResFirstHttpMajor else ReqFirstHttpMajor }

  function InMajor(response: bool): State { if response then ResHttpMajor else ReqHttpMajor }

  function FirstMinor(response: bool): State { if response then ResFirstHttpMinor else ReqFirstHttpMinor }

  function InMinor(response: bool): State { if response then ResHttpMinor else ReqHttpMinor }

  lemma MajorDispatch(s: Parser, response: bool, ch: Byte)
    requires IsNum(ch)
    ensures s.state == FirstMajor(response) && (response || ch != '0') ==>
              Dispatch(s, ch) == Go(s.(major := Digit(ch), state := InMajor(response)))
    ensures s.state == InMajor(response) ==> Dispatch(s, '.') == Go(s.(state := FirstMinor(response)))
  {
    hide DispatchHeader, DispatchBody, DispatchUrl, DispatchStart, PutMinor;
  }

  lemma MinorDispatch(s: Parser, response: bool, ch: Byte)
    requires IsNum(ch)
    ensures s.state == FirstMinor(response) ==>
              Dispatch(s, ch) == Go(s.(minor := Digit(ch), state := InMinor(response)))
  {
    hide DispatchHeader, DispatchBody, DispatchUrl, DispatchStart, PutMajor;
  }

  lemma MajorRun(r: Run, response: bool, ds: Bytes, b: Bytes) returns (r': Run)
    requires r.ctl == Next && r.pend == Closed && r.st.state == FirstMajor(response)
    requires NumberOk(ds) && (response || ds[0] != '0')
    ensures r' == r.(st := r.st.(major := Decimal(0, ds), state := FirstMinor(response)), used := r.used + |ds| + 1)
    ensures RunBytes(r, ds + (['.'] + b)) == RunBytes(r', b)
  {
    hide Dispatch, RunBytes, Decimal, NumberOk;
    FirstIsDigit(ds);
    MajorDispatch(r.st, response, ds[0]);
    var r1 := WholeNumber(r, Major, ds, r.st.(major := Digit(ds[0]), state := InMajor(response)), ['.'] + b);
    MajorDispatch(r1.st, response, ds[0]);
    OneGo(r1, '.', r1.st.(state := FirstMinor(response)), b);
    r' := r1.(st := r1.st.(state := FirstMinor(response)), used := r1.used + 1);
  }

  lemma MinorRun(r: Run, response: bool, ds: Bytes, b: Bytes) returns (r': Run)
    requires r.ctl == Next && r.pend == Closed && r.st.state == FirstMinor(response) && NumberOk(ds)
    ensures r' == r.(st := r.st.(minor := Decimal(0, ds), state := InMinor(response)), used := r.used + |ds|)
    ensures RunBytes(r, ds + b) == RunBytes(r', b)
  {
    hide Dispatch, RunBytes, Decimal, NumberOk;
    FirstIsDigit(ds);
    MinorDispatch(r.st, response, ds[0]);
    r' := WholeNumber(r, Minor, ds, r.st.(minor := Digit(ds[0]), state := InMinor(response)), b);
  }

  /** The numbers of a version. */
  lemma VersionRun(r: Run, response: bool, major: Bytes, minor: Bytes, b: Bytes) returns (r': Run)
    requires r.ctl == Next && r.pend == Closed && r.st.state == FirstMajor(response)
    requires NumberOk(major) && (response || major[0] != '0') && NumberOk(minor)
    ensures r' == r.(st := r.st.(major := Decimal(0, major), minor := Decimal(0, minor), state := InMinor(response)),
                     used := r.used + |major| + 1 + |minor|)
    ensures RunBytes(r, major + (['.'] + (minor + b))) == RunBytes(r', b)
  {
    hide RunBytes, Decimal, NumberOk;
    var r1 := MajorRun(r, response, major, minor + b);
    r' := MinorRun(r1, response, minor, b);
  }
}
