/** Whole header lines: each is handed out as one field and one value, with the effect its name calls for. */
module HttpHeaderLines {
  import opened HttpTypes
  import opened HttpDispatch
  import opened HttpInvariant
  import opened HttpRun
  import opened HttpHeaderNames
  import opened HttpLengths
  import opened HttpFolding
  import Encoding = HttpTransferEncoding
  import Options = HttpConnection

  // ---------- header lines

  // A line `name:value`. In front of the value there may be blanks and, between them, line ends; the value may
  // be continued on further lines.
  datatype Header = Header(
    name: Bytes, gaps: seq<Gap>, blanks: Bytes, value: Bytes, folds: seq<Fold>, end: LineEnd)

  predicate Plain(v: Bytes) { (forall i :: 0 <= i < |v| ==> v[i] != CR && v[i] != LF) && (v != [] ==> !IsBlank(v[0])) }

  predicate Named(h: Header, literal: string) { Lowered(h.name) == literal }

  // The line gives a length.
  predicate GivesLength(h: Header) { Named(h, "content-length") && h.value != [] }

  predicate HeaderOk(h: Header) {
    && h.name != [] && IsTokenString(h.name) && GapsOk(h.gaps, h.blanks) && Plain(h.value)
    && FoldsOk(h.folds) && (h.value == [] ==> h.folds == [])
    && (GivesLength(h) ==>
          IsNum(h.value[0]) && DigitsOrSpaces(h.value) && Decimal(0, h.value) <= MAX_LENGTH && h.folds == [])
  }

  // The text in front of the value, and the whole line.
  function Before(h: Header): Bytes { GapsText(h.gaps) + h.blanks }

  function LineText(h: Header): Bytes {
    h.name + [':'] + (Before(h) + (h.value + (FoldsText(h.folds) + EndText(h.end))))
  }

  // The value without the line ends in it.
  function FullValue(h: Header): Bytes { h.value + FoldsValue(h.folds) }

  // The line asks for the chunked coding, for another protocol, or gives options for the connection.
  // A coding that is continued is not recognised.
  predicate SaysChunked(h: Header) {
    Named(h, "transfer-encoding") && h.folds == [] && Encoding.IsChunked(h.value)
  }

  predicate SaysUpgrade(h: Header) { Named(h, "upgrade") && h.value != [] }

  predicate GivesOptions(h: Header) { (Named(h, "connection") || Named(h, "proxy-connection")) && h.value != [] }

  // The line gives the option, and the parser hears it.
  ghost predicate SaysOption(h: Header, k: Options.Known) {
    GivesOptions(h) && HeardIn(Options.Opening, h.value, Texts(h.folds), k)
  }

  // What the line does to the flags.
  ghost function LineFlags(f: Flags, h: Header): Flags {
    f.(chunked := f.chunked || SaysChunked(h), upgrade := f.upgrade || SaysUpgrade(h),
       keepAlive := f.keepAlive || SaysOption(h, Options.ToKeepAlive),
       close := f.close || SaysOption(h, Options.ToClose),
       connUpgrade := f.connUpgrade || SaysOption(h, Options.ToUpgrade))
  }

  // What the line does to the parser: to the length and the flags.
  ghost predicate Effect(h: Header, s: Parser, s': Parser) {
    && s' == s.(hstate := s'.hstate, index := s'.index, flags := LineFlags(s.flags, h),
        contentLength := s'.contentLength)
    && (GivesLength(h) ==> DigitsOrSpaces(h.value) && s'.contentLength == Decimal(0, h.value))
    && (!GivesLength(h) ==> s'.contentLength == s.contentLength)
  }

  // ---------- values of headers that the parser does not know

  // The name is none whose value is looked into.
  predicate Ignored(h: HeaderState) { NameDone(h) && !h.ContentLength? && !h.TransferEncoding? && !h.Connection? }

  function StartFlags(s: Parser): Flags { if s.hstate.Upgrade? then s.flags.(upgrade := true) else s.flags }

  lemma FirstDispatch(s: Parser, ch: Byte)
    requires s.state == HeaderValueDiscardWs && !IsBlank(ch) && ch != CR && ch != LF && Ignored(s.hstate)
    ensures Dispatch(s, ch) == Outcome(s.(state := HeaderValue, hstate := General, index := 0, flags := StartFlags(s)),
                                       Mark(ValueData), Next)
  {
    hide TokenChar, Lower, NameStep;
  }

  lemma FirstRun(r: Run, ch: Byte) returns (r': Run)
    requires AtValue(r) && !IsBlank(ch) && ch != CR && ch != LF && Ignored(r.st.hstate)
    ensures r' == RunBytes(r, [ch])
    ensures r' == r.(st := r.st.(state := HeaderValue, hstate := General, index := 0, flags := StartFlags(r.st)),
                     pend := Open(ValueData, [ch]), used := r.used + 1)
  {
    hide Dispatch, Ignored, StartFlags, RunBytes;
    FirstDispatch(r.st, ch);
    RunOne(r, ch);
    assert Grow(Open(ValueData, []), ch) == Open(ValueData, [ch]);
    r' := RunBytes(r, [ch]);
  }

  lemma IgnoredRun(r: Run, v: Bytes) returns (r': Run)
    requires AtValue(r) && v != [] && Plain(v) && Ignored(r.st.hstate)
    ensures r' == RunBytes(r, v)
    ensures r' == r.(st := r.st.(state := HeaderValue, hstate := General, index := 0, flags := StartFlags(r.st)),
                     pend := Open(ValueData, v), used := r.used + |v|)
  {
    hide Ignored, StartFlags, RunBytes, ValueByte;
    var r1 := FirstRun(r, v[0]);
    forall ch: Byte ensures ValueByte(r1.st, ch) == Go(r1.st) { Options.GeneralByte(r1.st, ch); }
    Options.StillRun(r1, v[1..]);
    assert [v[0]] + v[1..] == v;
    RunAppend(r, [v[0]], v[1..]);
    r' := RunBytes(r1, v[1..]);
  }

  // ---------- any nonempty value

  // What the value makes of the flags, given the state its name has led to.
  ghost function ValueFlags(h: HeaderState, f: Flags, v: Bytes, fs: seq<Fold>): Flags {
    match h
    case Upgrade => f.(upgrade := true)
    case TransferEncoding => f.(chunked := f.chunked || (fs == [] && Encoding.IsChunked(v)))
    case Connection => HearFolded(f, Options.Opening, v, Texts(fs))
    case _ => f
  }

  ghost predicate ValueEffect(s: Parser, v: Bytes, fs: seq<Fold>, s': Parser) {
    && s' == s.(state := HeaderValue, hstate := s'.hstate, index := s'.index, flags := s'.flags,
                contentLength := s'.contentLength)
    && (s.hstate.ContentLength? ==> DigitsOrSpaces(v) && s'.contentLength == Decimal(0, v))
    && (!s.hstate.ContentLength? ==> s'.contentLength == s.contentLength)
    && FinishValue(s'.flags, s'.hstate) == ValueFlags(s.hstate, s.flags, v, fs)
  }

  // The first line of a value has been read.
  ghost predicate FirstLine(r: Run, v: Bytes, r': Run) {
    && r' == r.(st := r'.st, pend := Open(ValueData, v), used := r.used + |v|) && InValue(r')
    && r'.st == r.st.(state := HeaderValue, hstate := r'.st.hstate, index := r'.st.index, flags := r'.st.flags,
                      contentLength := r'.st.contentLength)
  }

  lemma AllThrough(r: Run, v: Bytes, r1: Run, fs: seq<Fold>, r': Run)
    requires FirstLine(r, v, r1) && Through(r1, r', FoldsValue(fs), |FoldsText(fs)|)
    ensures ValueRead(r, v, fs, r')
  {
    hide Emit, FoldsText, FoldsValue;
  }

  // A value and the lines that continue it have been read.
  ghost predicate ValueRead(r: Run, v: Bytes, fs: seq<Fold>, r': Run) {
    && InValue(r') && r'.used == r.used + |v| + |FoldsText(fs)|
    && r'.st == r.st.(state := HeaderValue, hstate := r'.st.hstate, index := r'.st.index, flags := r'.st.flags,
                      contentLength := r'.st.contentLength)
    && Emit(r'.trace, Data(ValueData, r'.pend.bytes)) == Emit(r.trace, Data(ValueData, v + FoldsValue(fs)))
  }

  lemma {:induction false} LengthRead(r: Run, v: Bytes) returns (r': Run)
    requires AtValue(r) && r.st.hstate.ContentLength? && v != []
    requires IsNum(v[0]) && DigitsOrSpaces(v) && Decimal(0, v) <= MAX_LENGTH
    ensures r' == RunBytes(r, v + FoldsText([])) && ValueRead(r, v, [], r') && ValueEffect(r.st, v, [], r'.st)
  {
    hide RunBytes, Decimal, Emit;
    WholeLength(r, v);
    r' := RunBytes(r, v);
    assert v + FoldsText([]) == v && v + FoldsValue([]) == v;
  }

  // Nothing but the automaton and the flags has changed inside a value.
  ghost predicate Kept(s: Parser, s': Parser) {
    s' == s.(state := HeaderValue, hstate := s'.hstate, index := s'.index, flags := s'.flags)
  }

  lemma KeptThrough(s: Parser, r1: Run, xs: Bytes, n: nat, r': Run)
    requires Kept(s, r1.st) && Through(r1, r', xs, n)
    ensures Kept(s, r'.st)
  {
    hide Emit;
  }

  lemma CodingRead(r: Run, v: Bytes, fs: seq<Fold>) returns (r': Run)
    requires AtValue(r) && r.st.hstate.TransferEncoding? && v != [] && Plain(v) && FoldsOk(fs)
    ensures r' == RunBytes(r, v + FoldsText(fs)) && ValueRead(r, v, fs, r') && ValueEffect(r.st, v, fs, r'.st)
  {
    hide RunBytes, FoldsText, FoldsValue, FoldsOk, Through, ValueRead, ValueEffect, FirstLine, Kept, Encoding.ValueRead,
         FinishValue, Encoding.IsChunked;
    Encoding.ValueRun(r, v);
    var r1 := RunBytes(r, v);
    Encoding.ReadState(r, r1, v);
    CodingStates(r, r1, v);
    r' := IgnoredFolds(r1, fs);
    RunAppend(r, v, FoldsText(fs));
    AllThrough(r, v, r1, fs, r');
    KeptThrough(r.st, r1, FoldsValue(fs), |FoldsText(fs)|, r');
    CodingEffect(r.st, v, fs, r1.st, r'.st);
  }

  lemma CodingEffect(s: Parser, v: Bytes, fs: seq<Fold>, s1: Parser, s': Parser)
    requires s.hstate.TransferEncoding? && Kept(s, s') && s1.flags == s'.flags == s.flags
    requires FinishValue(s1.flags, s1.hstate) == s.flags.(chunked := s.flags.chunked || Encoding.IsChunked(v))
    requires s'.hstate == if fs == [] then s1.hstate else General
    ensures ValueEffect(s, v, fs, s')
  {
    hide Encoding.IsChunked;
  }

  lemma CodingStates(r: Run, r': Run, v: Bytes)
    requires AtValue(r) && Encoding.ValueRead(r, r', v)
    ensures GoesOn(r'.st.hstate) && r'.st.hstate != MatchingConnectionTokenStart && r'.st.flags == r.st.flags
    ensures FirstLine(r, v, r') && Kept(r.st, r'.st) && InValue(r')
  {
    hide Encoding.IsChunked, Encoding.Lowers, CHUNKED;
  }

  lemma OptionsRead(r: Run, v: Bytes, fs: seq<Fold>) returns (r': Run)
    requires AtValue(r) && r.st.hstate.Connection? && v != [] && Plain(v) && FoldsOk(fs)
    ensures r' == RunBytes(r, v + FoldsText(fs)) && ValueRead(r, v, fs, r') && ValueEffect(r.st, v, fs, r'.st)
  {
    hide RunBytes, FoldsText, FoldsValue, FoldsOk, Through, ValueRead, ValueEffect, FirstLine, Kept, FinishValue,
         Options.Pieces, Options.AtLast, Options.ListRead, HearFolded;
    var r1 := Options.ListRun(r, v);
    ListFirst(r, v, r1);
    r' := OptionFolds(r1, r.st.flags, Options.Opening, v, fs);
    RunAppend(r, v, FoldsText(fs));
    AllThrough(r, v, r1, fs, r');
    KeptThrough(r.st, r1, FoldsValue(fs), |FoldsText(fs)|, r');
    OptionsEffect(r.st, v, fs, r'.st);
  }

  lemma OptionsEffect(s: Parser, v: Bytes, fs: seq<Fold>, s': Parser)
    requires s.hstate.Connection? && Kept(s, s')
    requires FinishValue(s'.flags, s'.hstate) == HearFolded(s.flags, Options.Opening, v, Texts(fs))
    ensures ValueEffect(s, v, fs, s')
  {
    hide HearFolded, FinishValue;
  }

  lemma ListFirst(r: Run, v: Bytes, r': Run)
    requires AtValue(r) && Options.ListRead(r, v, r')
    ensures FirstLine(r, v, r') && Kept(r.st, r'.st) && InValue(r')
    ensures Options.AtLast(r.st.flags, Options.Opening, Options.Pieces(v), r'.st)
  {
    hide Options.Hear, Options.Pieces, Options.AtLast, FinishValue;
  }

  lemma OtherRead(r: Run, v: Bytes, fs: seq<Fold>) returns (r': Run)
    requires AtValue(r) && Ignored(r.st.hstate) && v != [] && Plain(v) && FoldsOk(fs)
    ensures r' == RunBytes(r, v + FoldsText(fs)) && ValueRead(r, v, fs, r') && ValueEffect(r.st, v, fs, r'.st)
  {
    hide RunBytes, FoldsText, FoldsValue, FoldsOk, Through, ValueRead, ValueEffect, FinishValue, Plain, StartFlags;
    var r1 := IgnoredRun(r, v);
    r' := IgnoredFolds(r1, fs);
    RunAppend(r, v, FoldsText(fs));
    AllThrough(r, v, r1, fs, r');
    KeptThrough(r.st, r1, FoldsValue(fs), |FoldsText(fs)|, r');
    OtherEffect(r.st, v, fs, r'.st);
  }

  lemma OtherEffect(s: Parser, v: Bytes, fs: seq<Fold>, s': Parser)
    requires Ignored(s.hstate) && Kept(s, s') && s'.hstate == General && s'.flags == StartFlags(s)
    ensures ValueEffect(s, v, fs, s')
  {
    GeneralFinish(s'.flags);
    hide FinishValue;
  }

  lemma ValueRun(r: Run, v: Bytes, fs: seq<Fold>) returns (r': Run)
    requires AtValue(r) && v != [] && Plain(v) && NameDone(r.st.hstate) && FoldsOk(fs)
    requires r.st.hstate.ContentLength? ==>
               IsNum(v[0]) && DigitsOrSpaces(v) && Decimal(0, v) <= MAX_LENGTH && fs == []
    ensures r' == RunBytes(r, v + FoldsText(fs)) && ValueRead(r, v, fs, r') && ValueEffect(r.st, v, fs, r'.st)
  {
    hide RunBytes, ValueRead, ValueEffect, Plain, FoldsOk, Decimal, FoldsText;
    if r.st.hstate.ContentLength? {
      r' := LengthRead(r, v);
    } else if r.st.hstate.TransferEncoding? {
      r' := CodingRead(r, v, fs);
    } else if r.st.hstate.Connection? {
      r' := OptionsRead(r, v, fs);
    } else {
      r' := OtherRead(r, v, fs);
    }
  }

  // ---------- the line

  // The next line goes on from here.
  function Finished(r: Run, t: Trace): Run {
    r.(st := r.st.(flags := FinishValue(r.st.flags, r.st.hstate), state := HeaderFieldStart), pend := Closed,
        trace := t)
  }

  /** The end of a line with a value, and the first byte of the next line. */
  lemma EndOfValue(r: Run, e: LineEnd, b: Bytes)
    requires InValue(r) && b != [] && !IsBlank(b[0])
    ensures RunBytes(r, EndText(e) + b)
            == RunBytes(Finished(r, Emit(r.trace, Data(ValueData, r.pend.bytes))).(used := r.used + |EndText(e)|), b)
  {
    hide Dispatch, RunBytes, FinishValue, Emit, Resume, EndText;
    var r2 := ValueEnd(r, e);
    RunAppend(r, EndText(e), b);
    LineEndDispatch(r2.st, b[0]);
    var s := r2.st.(flags := FinishValue(r2.st.flags, r2.st.hstate), state := HeaderFieldStart);
    AgainRun(r2, b[0], s);
    SameFirst(r2, r2.(st := s), b);
  }

  /** The end of a line without a value. */
  lemma EndOfNothing(r: Run, e: LineEnd, b: Bytes)
    requires AtValue(r) && b != [] && !IsBlank(b[0])
    ensures RunBytes(r, EndText(e) + b)
            == RunBytes(Finished(r, Emit(r.trace, Data(ValueData, []))).(used := r.used + |EndText(e)|), b)
  {
    hide RunBytes, FinishValue, Emit, Resume;
    var r2 := NothingRead(r, e);
    RunAppend(r, EndText(e), b);
    NothingFlushed(r2, b[0]);
    SameFirst(r2, Finished(r2, Emit(r2.trace, Data(ValueData, []))), b);
  }

  lemma NothingFlushed(r: Run, ch: Byte)
    requires r.ctl == Next && r.st.state == HeaderValueDiscardLws && r.pend == Closed && !IsBlank(ch)
    ensures Resume(r, ch) == Resume(Finished(r, Emit(r.trace, Data(ValueData, []))), ch)
  {
    hide Dispatch, FinishValue, Emit;
    LineEndDispatch(r.st, ch);
  }

  lemma Cut(r: Run, h: Header, b: Bytes)
    ensures var rest := h.value + FoldsText(h.folds) + (EndText(h.end) + b);
            && RunBytes(r, LineText(h) + b) == RunBytes(RunBytes(RunBytes(r, h.name + [':']), Before(h)), rest)
            && |LineText(h)| == |h.name| + 1 + |Before(h)| + |h.value| + |FoldsText(h.folds)| + |EndText(h.end)|
  {
    hide RunBytes, EndText, FoldsText, Before;
    var rest := h.value + FoldsText(h.folds) + (EndText(h.end) + b);
    assert LineText(h) + b == h.name + [':'] + (Before(h) + rest);
    RunAppend(r, h.name + [':'], Before(h) + rest);
    RunAppend(RunBytes(r, h.name + [':']), Before(h), rest);
  }

  ghost predicate AtName(r: Run) { r.ctl == Next && r.st.state == HeaderFieldStart && r.pend == Closed }

  // The runs before and after a header line.
  ghost predicate LineRead(r: Run, h: Header, r': Run) {
    && AtName(r') && Effect(h, r.st, r'.st) && r'.used == r.used + |LineText(h)|
    && r'.trace == Emit(Emit(r.trace, Data(FieldData, h.name)), Data(ValueData, FullValue(h)))
  }

  /** A header line: its name and its value are handed out whole, and what follows is read with exactly the
      effect of the line. */
  lemma LineRun(r: Run, h: Header, b: Bytes) returns (r': Run)
    requires AtName(r) && HeaderOk(h) && b != [] && !IsBlank(b[0])
    ensures LineRead(r, h, r') && RunBytes(r, LineText(h) + b) == RunBytes(r', b)
  {
    hide RunBytes, NameDone, Emit, FinishValue, HeaderOk, Effect, NameTells, ValueEffect, EndText, FoldsText, LineText,
         Before, FoldsOk, GapsOk, Plain, FoldsValue;
    HeaderParts(h);
    Cut(r, h, b);
    var r2 := NameRead(r, h);
    if h.value == [] {
      NothingText(h, b);
      EndOfNothing(r2, h.end, b);
      NothingTells(h, r.st, r2.st);
      r' := Finished(r2, Emit(r2.trace, Data(ValueData, []))).(used := r2.used + |EndText(h.end)|);
    } else {
      r' := ValueLine(r, h, r2, b);
    }
  }

  lemma NothingText(h: Header, b: Bytes)
    requires h.value == [] && h.folds == []
    ensures h.value + FoldsText(h.folds) + (EndText(h.end) + b) == EndText(h.end) + b && FoldsText(h.folds) == []
    ensures FullValue(h) == []
  {
    hide EndText;
  }

  lemma ValueLine(r: Run, h: Header, r2: Run, b: Bytes) returns (r': Run)
    requires AtName(r) && HeaderOk(h) && h.value != [] && b != [] && !IsBlank(b[0])
    requires AtValue(r2) && NameTells(h, r.st, r2.st)
    ensures AtName(r') && Effect(h, r.st, r'.st)
    ensures r'.used == r2.used + |h.value| + |FoldsText(h.folds)| + |EndText(h.end)|
    ensures r'.trace == Emit(r2.trace, Data(ValueData, FullValue(h)))
    ensures RunBytes(r2, h.value + FoldsText(h.folds) + (EndText(h.end) + b)) == RunBytes(r', b)
  {
    hide RunBytes, NameDone, Emit, FinishValue, HeaderOk, Effect, ValueEffect, EndText, FoldsText, FoldsOk, GapsOk,
         Plain, FoldsValue, ValueRead, NameTells;
    HeaderParts(h);
    LengthTells(h, r2.st);
    NameDoneTells(h, r.st, r2.st);
    var r3 := ValueRun(r2, h.value, h.folds);
    RunAppend(r2, h.value + FoldsText(h.folds), EndText(h.end) + b);
    ReadParts(r2, h.value, h.folds, r3);
    r' := ValueFinish(r3, h.end, b);
    ValueTells(h, r.st, r2.st, r3.st);
  }

  // The end of the line behind a value.
  lemma ValueFinish(r: Run, e: LineEnd, b: Bytes) returns (r': Run)
    requires InValue(r) && b != [] && !IsBlank(b[0])
    ensures RunBytes(r, EndText(e) + b) == RunBytes(r', b) && r'.used == r.used + |EndText(e)| && AtName(r')
    ensures r'.trace == Emit(r.trace, Data(ValueData, r.pend.bytes))
    ensures r'.st == r.st.(flags := FinishValue(r.st.flags, r.st.hstate), state := HeaderFieldStart)
  {
    hide RunBytes, Emit, FinishValue, EndText;
    EndOfValue(r, e, b);
    r' := Finished(r, Emit(r.trace, Data(ValueData, r.pend.bytes))).(used := r.used + |EndText(e)|);
  }

  lemma ReadParts(r: Run, v: Bytes, fs: seq<Fold>, r': Run)
    requires ValueRead(r, v, fs, r')
    ensures InValue(r') && r'.used == r.used + |v| + |FoldsText(fs)|
    ensures Emit(r'.trace, Data(ValueData, r'.pend.bytes)) == Emit(r.trace, Data(ValueData, v + FoldsValue(fs)))
  {
    hide Emit, FoldsText, FoldsValue;
  }

  lemma NameDoneTells(h: Header, s: Parser, s': Parser)
    requires NameTells(h, s, s')
    ensures NameDone(s'.hstate)
  {
    hide NameDone, Named;
  }

  lemma HeaderParts(h: Header)
    requires HeaderOk(h)
    ensures h.name != [] && IsTokenString(h.name) && GapsOk(h.gaps, h.blanks) && Plain(h.value) && FoldsOk(h.folds)
    ensures h.value == [] ==> h.folds == []
  {
  }

  // The state in front of the value tells the names apart.
  ghost predicate NameTells(h: Header, s: Parser, s': Parser) {
    && s' == s.(state := HeaderValueDiscardWs, hstate := s'.hstate, index := s'.index) && NameDone(s'.hstate)
    && (s'.hstate.ContentLength? <==> Named(h, "content-length"))
    && (s'.hstate.TransferEncoding? <==> Named(h, "transfer-encoding"))
    && (s'.hstate.Upgrade? <==> Named(h, "upgrade"))
    && (s'.hstate.Connection? <==> Named(h, "connection") || Named(h, "proxy-connection"))
  }

  lemma NameRead(r: Run, h: Header) returns (r': Run)
    requires AtName(r) && h.name != [] && IsTokenString(h.name) && GapsOk(h.gaps, h.blanks)
    ensures r' == RunBytes(RunBytes(r, h.name + [':']), Before(h))
    ensures r' == r.(st := r'.st, trace := Emit(r.trace, Data(FieldData, h.name)),
                     used := r.used + |h.name| + 1 + |Before(h)|)
    ensures AtValue(r') && NameTells(h, r.st, r'.st) && NameDone(r'.st.hstate)
  {
    hide RunBytes, Lowered, NameDone, Emit;
    HeaderNameExact(r, h.name);
    var r1 := RunBytes(r, h.name + [':']);
    GapsRun(r1, h.gaps, h.blanks);
    r' := RunBytes(r1, Before(h));
  }

  lemma LengthTells(h: Header, s: Parser)
    requires HeaderOk(h) && h.value != [] && exists s0 :: NameTells(h, s0, s)
    ensures s.hstate.ContentLength? ==>
              IsNum(h.value[0]) && DigitsOrSpaces(h.value) && Decimal(0, h.value) <= MAX_LENGTH && h.folds == []
  {
  }

  lemma ValueTells(h: Header, s: Parser, s1: Parser, s2: Parser)
    requires s.state == HeaderFieldStart && h.value != [] && NameTells(h, s, s1)
    requires ValueEffect(s1, h.value, h.folds, s2)
    ensures Effect(h, s, s2.(flags := FinishValue(s2.flags, s2.hstate), state := HeaderFieldStart))
  {
    hide FinishValue, Encoding.IsChunked, Named, NameDone, HeardIn;
    NoneTwice(h);
  }

  // A name is not two of the known ones.
  lemma NoneTwice(h: Header)
    ensures Named(h, "transfer-encoding") ==> !Named(h, "upgrade") && !GivesOptions(h)
    ensures Named(h, "upgrade") ==> !GivesOptions(h)
  {
    assert "transfer-encoding" != "upgrade";
    assert "transfer-encoding" != "connection" && "transfer-encoding" != "proxy-connection";
    assert |"upgrade"| != |"connection"| && |"upgrade"| != |"proxy-connection"|;
  }

  lemma NothingTells(h: Header, s: Parser, s1: Parser)
    requires s.state == HeaderFieldStart && h.value == [] && NameTells(h, s, s1)
    ensures Effect(h, s, s1.(flags := FinishValue(s1.flags, s1.hstate), state := HeaderFieldStart))
  {
    hide Named, HeardIn;
  }

  // ---------- a length that is continued

  // A Content-Length line that would be well-formed on one line, and has more of them.
  predicate ContinuedLength(h: Header) {
    HeaderOk(h.(folds := [])) && GivesLength(h) && FoldsOk(h.folds) && h.folds != []
  }

  /** A Content-Length that is continued is an error, whatever follows. Name and first line are handed out. */
  lemma ContinuedLengthRun(r: Run, h: Header, b: Bytes) returns (r': Run)
    requires AtName(r) && ContinuedLength(h)
    ensures r' == RunBytes(r, LineText(h) + b) && r'.ctl == Failed && r'.st.errno == InvalidContentLength
    ensures r'.used == r.used + |h.name| + 1 + |Before(h)| + |h.value| + |EndText(h.folds[0].end)|
    ensures r'.trace == Emit(Emit(r.trace, Data(FieldData, h.name)), Data(ValueData, h.value))
  {
    hide RunBytes, NameDone, Emit, EndText, FoldsText, LineText, Before, FoldsOk, GapsOk, Decimal;
    HeaderParts(h.(folds := []));
    SameBefore(h);
    Cut(r, h, b);
    var r2 := NameRead(r, h);
    WholeLength(r2, h.value);
    var r3 := RunBytes(r2, h.value);
    RunAppend(r2, h.value + FoldsText(h.folds), EndText(h.end) + b);
    RunAppend(r2, h.value, FoldsText(h.folds));
    r' := LengthFolds(r3, h.folds, EndText(h.end) + b);
    RunAppend(r3, FoldsText(h.folds), EndText(h.end) + b);
  }

  lemma SameBefore(h: Header)
    ensures Before(h.(folds := [])) == Before(h) && (Named(h.(folds := []), "content-length") <==>
            Named(h, "content-length"))
  {
  }

  // ---------- all lines

  function LinesText(hs: seq<Header>): Bytes { if hs == [] then [] else LineText(hs[0]) + LinesText(hs[1..]) }

  function LineEvents(hs: seq<Header>): Trace {
    if hs == [] then [] else [Data(FieldData, hs[0].name), Data(ValueData, FullValue(hs[0]))] + LineEvents(hs[1..])
  }

  predicate HeadersOk(hs: seq<Header>) { forall i :: 0 <= i < |hs| ==> HeaderOk(hs[i]) }

  predicate SomeChunked(hs: seq<Header>) { exists i :: 0 <= i < |hs| && SaysChunked(hs[i]) }

  predicate SomeUpgrade(hs: seq<Header>) { exists i :: 0 <= i < |hs| && SaysUpgrade(hs[i]) }

  // The length given last, or v.
  function GivenLength(hs: seq<Header>, v: nat): nat
    requires HeadersOk(hs)
  {
    if hs == [] then v
    else GivenLength(hs[1..], if GivesLength(hs[0]) then Decimal(0, hs[0].value) else v)
  }

  ghost predicate SomeOption(hs: seq<Header>, k: Options.Known) { exists i :: 0 <= i < |hs| && SaysOption(hs[i], k) }

  // What the lines do to the flags.
  ghost function LinesFlags(f: Flags, hs: seq<Header>): Flags {
    f.(chunked := f.chunked || SomeChunked(hs), upgrade := f.upgrade || SomeUpgrade(hs),
       keepAlive := f.keepAlive || SomeOption(hs, Options.ToKeepAlive),
       close := f.close || SomeOption(hs, Options.ToClose),
       connUpgrade := f.connUpgrade || SomeOption(hs, Options.ToUpgrade))
  }

  ghost predicate Effects(hs: seq<Header>, s: Parser, s': Parser)
    requires HeadersOk(hs)
  {
    s' == s.(hstate := s'.hstate, index := s'.index, flags := LinesFlags(s.flags, hs),
             contentLength := GivenLength(hs, s.contentLength))
  }

  // The last callback is not one that another name would be glued to.
  predicate NoField(t: Trace) { t != [] ==> !(t[|t| - 1].Data? && t[|t| - 1].kind == FieldData) }

  lemma LineStart(h: Header)
    requires HeaderOk(h)
    ensures LineText(h) != [] && !IsBlank(LineText(h)[0])
  {
    assert TokenChar(h.name[0]) != NUL;
    SpaceIsNoToken(h.name[0]);
    assert LineText(h)[0] == h.name[0];
    TabIsNoToken();
  }

  lemma TabIsNoToken()
    ensures TokenChar('\t') == NUL
  {
  }

  lemma SomeFirst(hs: seq<Header>)
    requires hs != []
    ensures SomeChunked(hs) <==> SaysChunked(hs[0]) || SomeChunked(hs[1..])
    ensures SomeUpgrade(hs) <==> SaysUpgrade(hs[0]) || SomeUpgrade(hs[1..])
    ensures forall k :: SomeOption(hs, k) <==> SaysOption(hs[0], k) || SomeOption(hs[1..], k)
  {
    hide SaysChunked, SaysUpgrade, SaysOption;
    assert forall i :: 0 < i < |hs| ==> hs[i] == hs[1..][i - 1];
  }

  lemma EffectsFirst(hs: seq<Header>, s: Parser, s1: Parser, s2: Parser)
    requires hs != [] && HeadersOk(hs) && Effect(hs[0], s, s1) && Effects(hs[1..], s1, s2)
    ensures Effects(hs, s, s2)
  {
    hide SaysChunked, SaysUpgrade, SaysOption, SomeChunked, SomeUpgrade, SomeOption, HeaderOk;
    SomeFirst(hs);
  }

  lemma {:induction false} SomeOptionAppend(a: seq<Header>, b: seq<Header>, k: Options.Known)
    ensures SomeOption(a + b, k) <==> SomeOption(a, k) || SomeOption(b, k)
  {
    hide SaysOption;
    var w := a + b;
    if i :| 0 <= i < |a| && SaysOption(a[i], k) {
      assert SaysOption(w[i], k);
    }
    if i :| 0 <= i < |b| && SaysOption(b[i], k) {
      assert SaysOption(w[|a| + i], k);
    }
  }

  lemma NoneSome(k: Options.Known)
    ensures !SomeOption([], k)
  {
  }

  lemma EmitLine(t: Trace, h: Header)
    requires NoField(t)
    ensures var u := Emit(Emit(t, Data(FieldData, h.name)), Data(ValueData, FullValue(h)));
            u == t + [Data(FieldData, h.name), Data(ValueData, FullValue(h))] && NoField(u)
  {
  }

  /** Any number of header lines. */
  lemma {:induction false} LinesRun(r: Run, hs: seq<Header>, b: Bytes) returns (r': Run)
    requires AtName(r) && HeadersOk(hs) && b != [] && !IsBlank(b[0]) && NoField(r.trace)
    ensures AtName(r') && Effects(hs, r.st, r'.st) && r'.used == r.used + |LinesText(hs)|
    ensures r'.trace == r.trace + LineEvents(hs) && NoField(r'.trace)
    ensures RunBytes(r, LinesText(hs) + b) == RunBytes(r', b)
    decreases |hs|
  {
    hide RunBytes, Effect, Effects, LineText, Emit, NoField, HeaderOk;
    if hs == [] {
      r' := r;
      NoEffects(r.st);
      assert LinesText(hs) + b == b;
      assert r.trace + LineEvents(hs) == r.trace;
    } else {
      var c := LinesText(hs[1..]) + b;
      NextStart(hs[1..], b);
      var r1 := LineRun(r, hs[0], c);
      EmitLine(r.trace, hs[0]);
      r' := LinesRun(r1, hs[1..], b);
      EffectsFirst(hs, r.st, r1.st, r'.st);
      assert LinesText(hs) + b == LineText(hs[0]) + c;
      assert r.trace + [Data(FieldData, hs[0].name), Data(ValueData, FullValue(hs[0]))] + LineEvents(hs[1..])
          == r.trace + LineEvents(hs);
    }
  }

  lemma NoEffects(s: Parser)
    ensures Effects([], s, s)
  {
  }

  lemma NextStart(hs: seq<Header>, b: Bytes)
    requires HeadersOk(hs) && b != [] && !IsBlank(b[0])
    ensures LinesText(hs) + b != [] && !IsBlank((LinesText(hs) + b)[0])
  {
    hide HeaderOk, LineText;
    if hs != [] {
      LineStart(hs[0]);
      assert (LinesText(hs) + b)[0] == LineText(hs[0])[0];
    }
  }
}
