/** Parsing a URL written from its parts (section 3 of RFC 3986) gives back exactly these parts. */
module HttpUrlRoundTrip {
  import opened Common
  import opened HttpTypes
  import opened HttpDispatch
  import opened HttpUrl

  // A name, an address of version 6, or one of a future version.
  datatype HostText = Name(text: Bytes) | Ipv6(addr: Bytes, zone: Option<Bytes>) | Future(literal: Bytes)

  datatype Authority = Authority(userinfo: Option<Bytes>, host: HostText, port: Option<Bytes>)

  // With a scheme, an absolute URL; without one but with an authority, the target of a CONNECT request;
  // else a path.
  datatype UrlText = UrlText(
    schema: Option<Bytes>, authority: Option<Authority>, path: Bytes, query: Option<Bytes>, fragment: Option<Bytes>)

  // ---------- well-formed parts

  predicate Every(p: Byte -> bool, s: Bytes) { forall i :: 0 <= i < |s| ==> p(s[i]) }

  predicate IsV6Char(ch: Byte) { IsHex(ch) || ch == ':' || ch == '.' }

  predicate IsQueryChar(ch: Byte) { IsUrlChar(ch) || ch == '?' }

  predicate IsFragmentChar(ch: Byte) { IsUrlChar(ch) || ch == '?' || ch == '#' }

  // The letters of a registered name (section 3.2.2 of RFC 3986); not all of them are host characters here.
  predicate IsRegNameChar(ch: Byte) { IsUserinfoChar(ch) && ch != ':' }

  predicate IsSchemeChar(ch: Byte) { IsAlphaNum(ch) || ch == '+' || ch == '-' || ch == '.' }

  predicate HostTextOk(h: HostText) {
    match h
    case Name(t) => Every(IsRegNameChar, t)
    case Ipv6(a, z) => a != [] && Every(IsV6Char, a) && (z.Some? ==> z.value != [] && Every(IsZoneChar, z.value))
    case Future(t) => t != [] && (t[0] == 'v' || t[0] == 'V') && Every(IsUserinfoChar, t)
  }

  predicate AuthorityOk(a: Authority) {
    && (a.userinfo.Some? ==> Every(IsUserinfoChar, a.userinfo.value))
    && HostTextOk(a.host)
    && (a.port.Some? ==> Every(IsNum, a.port.value))
  }

  predicate TailOk(t: UrlText) {
    && Every(IsUrlChar, t.path)
    && (t.query.Some? ==> Every(IsQueryChar, t.query.value))
    && (t.fragment.Some? ==> Every(IsFragmentChar, t.fragment.value)
                             && (t.fragment.value != [] ==> t.fragment.value[0] != '#'))
  }

  predicate SchemeOk(s: Bytes) { s != [] && IsAlpha(s[0]) && Every(IsSchemeChar, s) }

  // The parts are well-formed, and what stands behind a scheme or an authority begins with a slash, a
  // question mark or a hash. An empty authority counts as none.
  predicate TextOk(t: UrlText) {
    && TailOk(t)
    && (t.schema.Some? ==> SchemeOk(t.schema.value))
    && (t.authority.Some? ==> AuthorityOk(t.authority.value) && PrintAuthority(t.authority.value) != [])
    && if t.schema.Some? || t.authority.Some? then t.path != [] ==> t.path[0] == '/'
       else t.path != [] && (t.path[0] == '/' || t.path[0] == '*')
  }

  // ---------- what the parser takes

  predicate Empty(part: Option<Bytes>) { part == None || part == Some([]) }

  predicate IsConnect(t: UrlText) { t.schema.None? && t.authority.Some? }

  predicate AuthorityTaken(a: Authority) {
    && !a.host.Future? && (a.host.Name? ==> a.host.text != [] && Every(IsHostChar, a.host.text))
    && (a.port.Some? ==> a.port.value != [])
  }

  // Nothing but a host and a port.
  predicate HostAndPort(t: UrlText)
    requires t.authority.Some?
  {
    && t.authority.value.port.Some? && Empty(t.authority.value.userinfo)
    && t.path == [] && Empty(t.query) && Empty(t.fragment)
  }

  // No fragment stands right behind a scheme or an authority.
  predicate FragmentTaken(t: UrlText) {
    (t.schema.Some? || t.authority.Some?) && t.fragment.Some? ==> t.path != [] || t.query.Some?
  }

  /** The URLs the parser takes, but for a port that is too large: the scheme is made of letters and followed
      by a host; the host of the letters, digits, dots and hyphens of a name, or an address of version 6; a
      port is not empty; no fragment follows the authority at once; the target of a CONNECT request is a
      host and a port. */
  predicate Taken(t: UrlText) {
    && (t.schema.Some? ==> Every(IsAlpha, t.schema.value) && t.authority.Some?)
    && (t.authority.Some? ==> AuthorityTaken(t.authority.value))
    && FragmentTaken(t)
    && (IsConnect(t) ==> HostAndPort(t))
  }

  // ---------- printing

  function PrintHost(h: HostText): Bytes {
    match h
    case Name(t) => t
    case Ipv6(a, z) => ['['] + (a + (if z.Some? then ['%'] + z.value else [])) + [']']
    case Future(t) => ['['] + t + [']']
  }

  function PrintUser(u: Option<Bytes>): Bytes { if u.Some? then u.value + ['@'] else [] }

  function PrintPort(p: Option<Bytes>): Bytes { if p.Some? then [':'] + p.value else [] }

  function PrintAuthority(a: Authority): Bytes { PrintUser(a.userinfo) + (PrintHost(a.host) + PrintPort(a.port)) }

  function PrintSchema(s: Option<Bytes>): Bytes { if s.Some? then s.value + [':', '/', '/'] else [] }

  function PrintQuery(q: Option<Bytes>): Bytes { if q.Some? then ['?'] + q.value else [] }

  function PrintFragment(f: Option<Bytes>): Bytes { if f.Some? then ['#'] + f.value else [] }

  function PrintTail(t: UrlText): Bytes { t.path + (PrintQuery(t.query) + PrintFragment(t.fragment)) }

  function PrintHead(t: UrlText): Bytes {
    PrintSchema(t.schema) + if t.authority.Some? then PrintAuthority(t.authority.value) else []
  }

  function Print(t: UrlText): Bytes { PrintHead(t) + PrintTail(t) }

  // ---------- the parts to expect

  // Adds part f of length len at off, unless it is empty.
  function Put(parts: map<Field, Span>, f: Field, off: nat, len: nat): map<Field, Span> {
    if len == 0 then parts else parts[f := Span(off, len)]
  }

  // Where the host's own text begins behind `off`, and its length.
  function HostSpan(h: HostText, off: nat): Span {
    match h
    case Name(t) => Span(off, |t|)
    case _ => Span(off + 1, |PrintHost(h)| - 2)
  }

  function ExpectAuthority(parts: map<Field, Span>, a: Authority, off: nat): map<Field, Span> {
    var hostOff := off + |PrintUser(a.userinfo)|;
    var p1 := parts[Host := HostSpan(a.host, hostOff)];
    var p2 := if a.port.Some? then p1[Port := Span(hostOff + |PrintHost(a.host)| + 1, |a.port.value|)] else p1;
    if a.userinfo.Some? then Put(p2, Userinfo, off, |a.userinfo.value|) else p2
  }

  function ExpectTail(parts: map<Field, Span>, t: UrlText, off: nat): map<Field, Span> {
    var p1 := Put(parts, Path, off, |t.path|);
    var off2 := off + |t.path|;
    var p2 := if t.query.Some? then Put(p1, Query, off2 + 1, |t.query.value|) else p1;
    var off3 := off2 + |PrintQuery(t.query)|;
    if t.fragment.Some? then Put(p2, Fragment, off3 + 1, |t.fragment.value|) else p2
  }

  function Expected(t: UrlText): map<Field, Span> {
    var p1 := if t.schema.Some? then map[Schema := Span(0, |t.schema.value|)] else map[];
    var p2 := if t.authority.Some? then ExpectAuthority(p1, t.authority.value, |PrintSchema(t.schema)|) else p1;
    ExpectTail(p2, t, |PrintHead(t)|)
  }

  // ---------- runs of bytes that belong to one part

  // From state s the bytes all belong to part f; the state they lead to, and whether '@' occurs.
  predicate Stays(s: State, xs: Bytes, f: Field)
    decreases |xs|
  {
    xs == [] || (FieldOf(ParseUrlChar(s, xs[0])) == Some(f) && Stays(ParseUrlChar(s, xs[0]), xs[1..], f))
  }

  function Walk(s: State, xs: Bytes): State
    decreases |xs|
  {
    if xs == [] then s else Walk(ParseUrlChar(s, xs[0]), xs[1..])
  }

  predicate SeesAt(s: State, xs: Bytes)
    decreases |xs|
  {
    xs != [] && (ParseUrlChar(s, xs[0]) == ReqServerWithAt || SeesAt(ParseUrlChar(s, xs[0]), xs[1..]))
  }

  lemma FieldAlive(s: State)
    requires FieldOf(s).Some?
    ensures s != Dead
  {
  }

  lemma UpdateTwice(parts: map<Field, Span>, f: Field, a: Span, b: Span)
    ensures parts[f := a][f := b] == parts[f := b]
  {
  }

  lemma GrowStep(u: Scan, ch: Byte, f: Field)
    requires u.last == Some(f) && f in u.parts && FieldOf(ParseUrlChar(u.s, ch)) == Some(f)
    ensures ScanByte(u, ch) == Scan(ParseUrlChar(u.s, ch), u.pos + 1, Some(f),
                                    u.foundAt || ParseUrlChar(u.s, ch) == ReqServerWithAt,
                                    u.parts[f := Span(u.parts[f].off, u.parts[f].len + 1)])
  {
    hide ParseUrlChar, FieldOf;
  }

  lemma {:induction false} PartGrows(u: Scan, xs: Bytes, f: Field)
    requires u.s != Dead && u.last == Some(f) && f in u.parts && Stays(u.s, xs, f)
    ensures ScanAll(u, xs) == Scan(Walk(u.s, xs), u.pos + |xs|, Some(f), u.foundAt || SeesAt(u.s, xs),
                                   u.parts[f := Span(u.parts[f].off, u.parts[f].len + |xs|)])
    decreases |xs|
  {
    hide ParseUrlChar, FieldOf, ScanByte, ScanAll, Walk, Stays, SeesAt;
    if xs == [] {
      GrownByNothing(u, f);
    } else {
      var u1 := GrownByOne(u, xs, f);
      var sp := Span(u.parts[f].off, u.parts[f].len + |xs|);
      PartGrows(u1, xs[1..], f);
      UpdateTwice(u.parts, f, u1.parts[f], sp);
    }
  }

  lemma GrownByNothing(u: Scan, f: Field)
    requires f in u.parts
    ensures ScanAll(u, []) == u && Walk(u.s, []) == u.s && !SeesAt(u.s, [])
    ensures u.parts[f := Span(u.parts[f].off, u.parts[f].len)] == u.parts
  {
  }

  lemma GrownByOne(u: Scan, xs: Bytes, f: Field) returns (u1: Scan)
    requires u.s != Dead && u.last == Some(f) && f in u.parts && xs != [] && Stays(u.s, xs, f)
    ensures ScanAll(u, xs) == ScanAll(u1, xs[1..]) && Walk(u.s, xs) == Walk(u1.s, xs[1..]) && Stays(u1.s, xs[1..], f)
    ensures SeesAt(u.s, xs) <==> u1.s == ReqServerWithAt || SeesAt(u1.s, xs[1..])
    ensures u1.s != Dead
    ensures u1 == Scan(u1.s, u.pos + 1, Some(f), u.foundAt || u1.s == ReqServerWithAt,
                       u.parts[f := Span(u.parts[f].off, u.parts[f].len + 1)])
  {
    hide ParseUrlChar, FieldOf, ScanByte;
    FieldAlive(ParseUrlChar(u.s, xs[0]));
    GrowStep(u, xs[0], f);
    u1 := ScanByte(u, xs[0]);
  }

  /** A nonempty run of bytes of a new part. */
  lemma PartRun(u: Scan, xs: Bytes, f: Field)
    requires u.s != Dead && u.last != Some(f) && xs != [] && Stays(u.s, xs, f)
    ensures ScanAll(u, xs) == Scan(Walk(u.s, xs), u.pos + |xs|, Some(f), u.foundAt || SeesAt(u.s, xs),
                                   u.parts[f := Span(u.pos, |xs|)])
  {
    hide ParseUrlChar;
    FieldAlive(ParseUrlChar(u.s, xs[0]));
    var u1 := ScanByte(u, xs[0]);
    PartGrows(u1, xs[1..], f);
    assert u1.parts == u.parts[f := Span(u.pos, 1)];
    assert u1.parts[f := Span(u.pos, |xs|)] == u.parts[f := Span(u.pos, |xs|)];
  }

  /** Bytes that keep the automaton in one state. */
  lemma {:induction false} SameState(s: State, xs: Bytes, f: Field)
    requires FieldOf(s) == Some(f) && s != ReqServerWithAt
    requires forall i :: 0 <= i < |xs| ==> ParseUrlChar(s, xs[i]) == s
    ensures Stays(s, xs, f) && Walk(s, xs) == s && !SeesAt(s, xs)
    decreases |xs|
  {
    hide ParseUrlChar;
    if xs != [] {
      SameState(s, xs[1..], f);
    }
  }

  /** Bytes that bring the automaton to one state and keep it there. */
  lemma IntoState(s: State, xs: Bytes, s': State, f: Field)
    requires FieldOf(s') == Some(f) && s' != ReqServerWithAt && xs != []
    requires ParseUrlChar(s, xs[0]) == s'
    requires forall i :: 1 <= i < |xs| ==> ParseUrlChar(s', xs[i]) == s'
    ensures Stays(s, xs, f) && Walk(s, xs) == s' && !SeesAt(s, xs)
  {
    hide ParseUrlChar;
    SameState(s', xs[1..], f);
  }

  lemma {:induction false} StaysAppend(s: State, a: Bytes, b: Bytes, f: Field)
    requires Stays(s, a, f) && Stays(Walk(s, a), b, f)
    ensures Stays(s, a + b, f) && Walk(s, a + b) == Walk(Walk(s, a), b)
    ensures SeesAt(s, a + b) <==> SeesAt(s, a) || SeesAt(Walk(s, a), b)
    decreases |a|
  {
    hide ParseUrlChar, FieldOf;
    if a == [] {
      assert a + b == b;
    } else {
      assert (a + b)[0] == a[0] && (a + b)[1..] == a[1..] + b;
      StaysAppend(ParseUrlChar(s, a[0]), a[1..], b, f);
    }
  }

  /** A delimiter. */
  lemma Delimiter(u: Scan, ch: Byte)
    requires u.s != Dead && FieldOf(ParseUrlChar(u.s, ch)).None? && ParseUrlChar(u.s, ch) != ReqServerWithAt
    ensures ScanAll(u, [ch]) == u.(s := ParseUrlChar(u.s, ch), pos := u.pos + 1)
  {
    hide ParseUrlChar;
    assert [ch][1..] == [];
    assert ScanAll(u, [ch]) == ScanAll(ScanByte(u, ch), []);
  }

  // ---------- path, query and fragment

  predicate TailStart(t: UrlText, u: Scan) {
    && u.s != Dead && u.last != Some(Path) && u.last != Some(Query) && u.last != Some(Fragment)
    && (t.path != [] ==> ParseUrlChar(u.s, t.path[0]) == ReqPath)
    && (t.path == [] ==>
          (t.query.Some? ==> ParseUrlChar(u.s, '?') == ReqQueryStringStart) && (t.fragment.Some? ==> t.query.Some?))
  }

  lemma PathRun(t: UrlText, u: Scan)
    requires TailOk(t) && TailStart(t, u) && t.path != []
    ensures ScanAll(u, t.path) == Scan(ReqPath, u.pos + |t.path|, Some(Path), u.foundAt,
                                       Put(u.parts, Path, u.pos, |t.path|))
  {
    forall i | 1 <= i < |t.path|
      ensures ParseUrlChar(ReqPath, t.path[i]) == ReqPath
    {
      assert IsUrlChar(t.path[i]);
    }
    hide ParseUrlChar;
    IntoState(u.s, t.path, ReqPath, Path);
    PartRun(u, t.path, Path);
  }

  lemma QueryChars(s: State, q: Bytes)
    requires Every(IsQueryChar, q) && (s == ReqQueryStringStart || s == ReqQueryString)
    ensures forall i :: 0 <= i < |q| ==> ParseUrlChar(s, q[i]) == ReqQueryString
  {
    forall i | 0 <= i < |q|
      ensures ParseUrlChar(s, q[i]) == ReqQueryString
    {
      assert IsQueryChar(q[i]);
    }
  }

  lemma FragmentChars(f: Bytes)
    requires Every(IsFragmentChar, f)
    ensures f != [] && f[0] != '#' ==> ParseUrlChar(ReqFragmentStart, f[0]) == ReqFragment
    ensures forall i :: 0 <= i < |f| ==> ParseUrlChar(ReqFragment, f[i]) == ReqFragment
  {
    forall i | 0 <= i < |f|
      ensures ParseUrlChar(ReqFragment, f[i]) == ReqFragment
    {
      assert IsFragmentChar(f[i]);
    }
    if f != [] {
      assert IsFragmentChar(f[0]);
    }
  }

  lemma QueryRun(u: Scan, q: Bytes)
    requires u.s != Dead && ParseUrlChar(u.s, '?') == ReqQueryStringStart && Every(IsQueryChar, q)
    requires u.last != Some(Query)
    ensures var u' := ScanAll(u, ['?'] + q);
            && (u'.s == ReqQueryStringStart || u'.s == ReqQueryString)
            && u' == Scan(u'.s, u.pos + 1 + |q|, if q == [] then u.last else Some(Query), u.foundAt,
                          Put(u.parts, Query, u.pos + 1, |q|))
  {
    hide ParseUrlChar, ScanAll, IsQueryChar, FieldOf;
    QueryMark(u);
    if q == [] {
      assert ['?'] + q == ['?'];
    } else {
      ScanAppend(u, ['?'], q);
      QueryPart(ScanAll(u, ['?']), q);
    }
  }

  lemma QueryMark(u: Scan)
    requires u.s != Dead && ParseUrlChar(u.s, '?') == ReqQueryStringStart
    ensures ScanAll(u, ['?']) == u.(s := ReqQueryStringStart, pos := u.pos + 1)
  {
    hide ParseUrlChar, ScanAll;
    Delimiter(u, '?');
  }

  lemma QueryPart(u: Scan, q: Bytes)
    requires u.s == ReqQueryStringStart && q != [] && Every(IsQueryChar, q) && u.last != Some(Query)
    ensures ScanAll(u, q) == Scan(ReqQueryString, u.pos + |q|, Some(Query), u.foundAt,
                                  u.parts[Query := Span(u.pos, |q|)])
  {
    hide ParseUrlChar, ScanAll, IsQueryChar;
    QueryChars(ReqQueryStringStart, q);
    QueryChars(ReqQueryString, q);
    IntoState(ReqQueryStringStart, q, ReqQueryString, Query);
    PartRun(u, q, Query);
  }

  lemma FragmentRun(u: Scan, f: Bytes)
    requires u.s != Dead && ParseUrlChar(u.s, '#') == ReqFragmentStart && Every(IsFragmentChar, f)
    requires (f != [] ==> f[0] != '#') && u.last != Some(Fragment)
    ensures var u' := ScanAll(u, ['#'] + f);
            u'.s != Dead && u'.parts == Put(u.parts, Fragment, u.pos + 1, |f|) && u'.foundAt == u.foundAt
  {
    hide ParseUrlChar, ScanAll, Stays, Walk, SeesAt, IsFragmentChar;
    Delimiter(u, '#');
    if f == [] {
      assert ['#'] + f == ['#'];
    } else {
      ScanAppend(u, ['#'], f);
      FragmentChars(f);
      IntoState(ReqFragmentStart, f, ReqFragment, Fragment);
      PartRun(ScanAll(u, ['#']), f, Fragment);
    }
  }

  lemma AfterTailState(s: State)
    ensures s == ReqPath ==> ParseUrlChar(s, '?') == ReqQueryStringStart && ParseUrlChar(s, '#') == ReqFragmentStart
    ensures s == ReqQueryStringStart || s == ReqQueryString ==> ParseUrlChar(s, '#') == ReqFragmentStart
  {
  }

  // The scan u has read everything before the fragment.
  ghost predicate FragmentNext(t: UrlText, u: Scan) {
    && u.s != Dead && u.last != Some(Fragment)
    && (t.fragment.Some? ==> ParseUrlChar(u.s, '#') == ReqFragmentStart)
  }

  lemma PathStep(t: UrlText, u: Scan)
    requires TailOk(t) && TailStart(t, u)
    ensures var u1 := ScanAll(u, t.path);
            && u1.s != Dead && u1.pos == u.pos + |t.path| && u1.foundAt == u.foundAt
            && u1.last != Some(Query) && u1.last != Some(Fragment)
            && u1.parts == Put(u.parts, Path, u.pos, |t.path|)
            && (t.query.Some? ==> ParseUrlChar(u1.s, '?') == ReqQueryStringStart)
            && (t.query.None? ==> FragmentNext(t, u1))
  {
    hide ParseUrlChar, ScanAll;
    if t.path != [] {
      PathRun(t, u);
      AfterTailState(ReqPath);
    } else {
      ScanNothing(u);
    }
  }

  lemma QueryStep(t: UrlText, u: Scan)
    requires TailOk(t) && u.s != Dead && u.last != Some(Query) && u.last != Some(Fragment)
    requires t.query.Some? ==> ParseUrlChar(u.s, '?') == ReqQueryStringStart
    requires t.query.None? ==> FragmentNext(t, u)
    ensures var u1 := ScanAll(u, PrintQuery(t.query));
            && FragmentNext(t, u1) && u1.pos == u.pos + |PrintQuery(t.query)| && u1.foundAt == u.foundAt
            && u1.parts == if t.query.Some? then Put(u.parts, Query, u.pos + 1, |t.query.value|) else u.parts
  {
    hide ParseUrlChar, ScanAll;
    if t.query.Some? {
      QueryRun(u, t.query.value);
      AfterTailState(ScanAll(u, PrintQuery(t.query)).s);
    } else {
      ScanNothing(u);
    }
  }

  lemma FragmentStep(t: UrlText, u: Scan)
    requires TailOk(t) && FragmentNext(t, u)
    ensures var u1 := ScanAll(u, PrintFragment(t.fragment));
            && u1.s != Dead && u1.foundAt == u.foundAt
            && u1.parts == if t.fragment.Some? then Put(u.parts, Fragment, u.pos + 1, |t.fragment.value|) else u.parts
  {
    hide ParseUrlChar, ScanAll;
    if t.fragment.Some? {
      FragmentRun(u, t.fragment.value);
    } else {
      ScanNothing(u);
    }
  }

  lemma TailRun(t: UrlText, u: Scan)
    requires TailOk(t) && TailStart(t, u)
    ensures var u' := ScanAll(u, PrintTail(t));
            u'.s != Dead && u'.parts == ExpectTail(u.parts, t, u.pos) && u'.foundAt == u.foundAt
  {
    hide ParseUrlChar, ScanAll, TailOk, TailStart, Put, FragmentNext;
    var q, f := PrintQuery(t.query), PrintFragment(t.fragment);
    ScanAppend(u, t.path, q + f);
    PathStep(t, u);
    var u1 := ScanAll(u, t.path);
    ScanAppend(u1, q, f);
    QueryStep(t, u1);
    FragmentStep(t, ScanAll(u1, q));
  }

  lemma ScanNothing(u: Scan)
    ensures ScanAll(u, []) == u
  {
  }

  // ---------- the authority, first pass

  predicate IsServerChar(ch: Byte) { IsUserinfoChar(ch) || ch == '[' || ch == ']' }

  predicate IsServerState(s: State) { s == ReqServerStart || s == ReqServer || s == ReqServerWithAt }

  lemma ServerChar(s: State, ch: Byte)
    requires IsServerState(s) && IsServerChar(ch)
    ensures ParseUrlChar(s, ch) == ReqServer
  {
    hide IsUserinfoChar, IsUrlChar, IsAlpha, IsAlphaNum;
    if IsUserinfoChar(ch) {
      NoDelimiter(ch);
    }
  }

  lemma NoDelimiter(ch: Byte)
    requires IsUserinfoChar(ch)
    ensures ch !in [' ', CR, LF, '\t', '\U{0C}', '/', '?', '@', '#']
  {
  }

  lemma ServerDelimiters(s: State)
    requires IsServerState(s)
    ensures s != ReqServerWithAt ==> ParseUrlChar(s, '@') == ReqServerWithAt
    ensures ParseUrlChar(s, '/') == ReqPath && ParseUrlChar(s, '?') == ReqQueryStringStart
  {
  }

  lemma ServerRun(s: State, xs: Bytes)
    requires IsServerState(s) && Every(IsServerChar, xs)
    ensures Stays(s, xs, Host) && !SeesAt(s, xs) && IsServerState(Walk(s, xs))
    ensures xs != [] ==> Walk(s, xs) == ReqServer
    ensures xs == [] ==> Walk(s, xs) == s
  {
    hide ParseUrlChar, IsServerChar;
    if xs != [] {
      forall i | 0 <= i < |xs|
        ensures ParseUrlChar(s, xs[i]) == ReqServer && ParseUrlChar(ReqServer, xs[i]) == ReqServer
      {
        ServerChar(s, xs[i]);
        ServerChar(ReqServer, xs[i]);
      }
      IntoState(s, xs, ReqServer, Host);
    }
  }

  lemma EveryAppend(p: Byte -> bool, a: Bytes, b: Bytes)
    ensures Every(p, a + b) <==> Every(p, a) && Every(p, b)
  {
    if Every(p, a + b) {
      forall i | 0 <= i < |b|
        ensures p(b[i])
      {
        assert (a + b)[|a| + i] == b[i];
      }
      forall i | 0 <= i < |a|
        ensures p(a[i])
      {
        assert (a + b)[i] == a[i];
      }
    }
  }

  lemma HostIsServerText(a: Authority)
    requires AuthorityOk(a)
    ensures Every(IsServerChar, PrintHost(a.host) + PrintPort(a.port))
    ensures a.userinfo.Some? ==> Every(IsServerChar, a.userinfo.value)
  {
    EveryAppend(IsServerChar, PrintHost(a.host), PrintPort(a.port));
    match a.host {
      case Name(t) =>
        assert Every(IsServerChar, t);
      case Ipv6(addr, z) =>
        assert Every(IsServerChar, addr);
        assert z.Some? ==> Every(IsServerChar, ['%'] + z.value);
        EveryAppend(IsServerChar, addr, if z.Some? then ['%'] + z.value else []);
        assert Every(IsServerChar, ['[']) && Every(IsServerChar, [']']);
        EveryAppend(IsServerChar, ['['], addr + if z.Some? then ['%'] + z.value else []);
        EveryAppend(IsServerChar, ['['] + (addr + if z.Some? then ['%'] + z.value else []), [']']);
      case Future(t) =>
        assert Every(IsServerChar, t) && Every(IsServerChar, ['[']) && Every(IsServerChar, [']']);
        EveryAppend(IsServerChar, ['['], t);
        EveryAppend(IsServerChar, ['['] + t, [']']);
    }
    if a.port.Some? {
      assert Every(IsServerChar, [':']) && Every(IsServerChar, a.port.value);
      EveryAppend(IsServerChar, [':'], a.port.value);
    }
  }

  lemma AuthorityStays(a: Authority)
    requires AuthorityOk(a)
    ensures var text := PrintAuthority(a);
            Stays(ReqServerStart, text, Host) && IsServerState(Walk(ReqServerStart, text))
            && (SeesAt(ReqServerStart, text) <==> a.userinfo.Some?)
  {
    hide ParseUrlChar, PrintHost, PrintPort, Every, IsServerChar, AuthorityOk;
    HostIsServerText(a);
    var rest := PrintHost(a.host) + PrintPort(a.port);
    if a.userinfo.Some? {
      var user := a.userinfo.value;
      ServerRun(ReqServerStart, user);
      ServerDelimiters(Walk(ReqServerStart, user));
      var s := Walk(ReqServerStart, user);
      OneByte(s, '@', Host);
      StaysAppend(ReqServerStart, user, ['@'], Host);
      ServerRun(ReqServerWithAt, rest);
      StaysAppend(ReqServerStart, user + ['@'], rest, Host);
    } else {
      ServerRun(ReqServerStart, rest);
      assert [] + rest == rest;
    }
  }

  lemma OneByte(s: State, ch: Byte, f: Field)
    requires FieldOf(ParseUrlChar(s, ch)) == Some(f)
    ensures Stays(s, [ch], f) && Walk(s, [ch]) == ParseUrlChar(s, ch)
    ensures SeesAt(s, [ch]) <==> ParseUrlChar(s, ch) == ReqServerWithAt
  {
    hide ParseUrlChar;
    assert [ch][1..] == [];
  }

  lemma AuthorityRun(u: Scan, a: Authority)
    requires AuthorityOk(a) && PrintAuthority(a) != [] && u.s == ReqServerStart && u.last != Some(Host) && !u.foundAt
    ensures var u' := ScanAll(u, PrintAuthority(a));
            && IsServerState(u'.s)
            && u' == Scan(u'.s, u.pos + |PrintAuthority(a)|, Some(Host), a.userinfo.Some?,
                          u.parts[Host := Span(u.pos, |PrintAuthority(a)|)])
  {
    hide ParseUrlChar, PrintAuthority, AuthorityOk;
    AuthorityStays(a);
    PartRun(u, PrintAuthority(a), Host);
  }

  // ---------- scheme

  lemma SchemaChars(s: Bytes)
    requires s != [] && Every(IsAlpha, s)
    ensures ParseUrlChar(ReqSpacesBeforeUrl, s[0]) == ReqSchema
    ensures forall i :: 0 <= i < |s| ==> ParseUrlChar(ReqSchema, s[i]) == ReqSchema
  {
    forall i | 0 <= i < |s|
      ensures ParseUrlChar(ReqSchema, s[i]) == ReqSchema && ParseUrlChar(ReqSpacesBeforeUrl, s[i]) == ReqSchema
    {
      assert IsAlpha(s[i]);
    }
  }

  lemma SlashStates()
    ensures ParseUrlChar(ReqSchema, ':') == ReqSchemaSlash && ParseUrlChar(ReqSchemaSlash, '/') == ReqSchemaSlashSlash
    ensures ParseUrlChar(ReqSchemaSlashSlash, '/') == ReqServerStart
  {
  }

  lemma SlashesRun(u: Scan)
    requires u.s == ReqSchema
    ensures ScanAll(u, [':', '/', '/']) == u.(s := ReqServerStart, pos := u.pos + 3)
  {
    hide ParseUrlChar, ScanAll;
    SlashStates();
    var slashes: Bytes := [':', '/', '/'];
    assert slashes == [':'] + (['/'] + ['/']);
    ScanAppend(u, [':'], ['/'] + ['/']);
    Delimiter(u, ':');
    var u1 := ScanAll(u, [':']);
    ScanAppend(u1, ['/'], ['/']);
    Delimiter(u1, '/');
    Delimiter(ScanAll(u1, ['/']), '/');
  }

  lemma SchemaRun(s: Bytes)
    requires s != [] && Every(IsAlpha, s)
    ensures ScanAll(ScanStart(false), PrintSchema(Some(s))) ==
            Scan(ReqServerStart, |s| + 3, Some(Schema), false, map[Schema := Span(0, |s|)])
  {
    hide ParseUrlChar, ScanAll;
    SchemaChars(s);
    IntoState(ReqSpacesBeforeUrl, s, ReqSchema, Schema);
    PartRun(ScanStart(false), s, Schema);
    ScanAppend(ScanStart(false), s, [':', '/', '/']);
    SlashesRun(ScanAll(ScanStart(false), s));
  }

  // ---------- the first pass over the whole

  // The parts after the first pass: the whole authority counts as host.
  function RoughParts(t: UrlText): map<Field, Span> {
    var p1 := if t.schema.Some? then map[Schema := Span(0, |t.schema.value|)] else map[];
    var p2 := if t.authority.Some?
              then p1[Host := Span(|PrintSchema(t.schema)|, |PrintAuthority(t.authority.value)|)] else p1;
    ExpectTail(p2, t, |PrintHead(t)|)
  }

  // What the first pass has found in front of the path.
  ghost predicate HeadRead(t: UrlText, u: Scan) {
    && TailStart(t, u) && u.pos == |PrintHead(t)|
    && u.foundAt == (t.authority.Some? && t.authority.value.userinfo.Some?)
    && ExpectTail(u.parts, t, u.pos) == RoughParts(t)
  }

  // The automaton comes through the URL.
  predicate FirstOk(t: UrlText) {
    TextOk(t) && (t.schema.Some? ==> Every(IsAlpha, t.schema.value)) && FragmentTaken(t)
  }

  // The scan in front of the authority.
  lemma SchemePart(t: UrlText) returns (u: Scan)
    requires TextOk(t) && (t.schema.Some? ==> Every(IsAlpha, t.schema.value)) && (t.schema.Some? || t.authority.Some?)
    ensures u == ScanAll(ScanStart(IsConnect(t)), PrintSchema(t.schema))
    ensures var parts: map<Field, Span> := if t.schema.Some? then map[Schema := Span(0, |t.schema.value|)] else map[];
            u == Scan(ReqServerStart, |PrintSchema(t.schema)|, if t.schema.Some? then Some(Schema) else None,
                      false, parts)
  {
    hide ScanAll, AuthorityOk, TailOk, PrintAuthority;
    u := ScanAll(ScanStart(IsConnect(t)), PrintSchema(t.schema));
    if t.schema.Some? {
      SchemaRun(t.schema.value);
    } else {
      ScanNothing(ScanStart(IsConnect(t)));
    }
  }

  // The scan behind a scheme or an authority.
  lemma HeadScan(t: UrlText) returns (u: Scan)
    requires TextOk(t) && (t.schema.Some? ==> Every(IsAlpha, t.schema.value)) && (t.schema.Some? || t.authority.Some?)
    ensures u == ScanAll(ScanStart(IsConnect(t)), PrintHead(t)) && IsServerState(u.s) && u.pos == |PrintHead(t)|
    ensures u.foundAt == (t.authority.Some? && t.authority.value.userinfo.Some?)
    ensures u.last != Some(Path) && u.last != Some(Query) && u.last != Some(Fragment)
    ensures ExpectTail(u.parts, t, u.pos) == RoughParts(t)
  {
    hide ParseUrlChar, ScanAll, ExpectTail, PrintAuthority, AuthorityOk, TailOk, SchemeOk;
    u := SchemePart(t);
    if t.authority.Some? {
      ScanAppend(ScanStart(IsConnect(t)), PrintSchema(t.schema), PrintAuthority(t.authority.value));
      AuthorityRun(u, t.authority.value);
      u := ScanAll(u, PrintAuthority(t.authority.value));
    } else {
      assert PrintHead(t) == PrintSchema(t.schema);
    }
  }

  lemma HeadRun(t: UrlText)
    requires FirstOk(t) && (t.schema.Some? || t.authority.Some?)
    ensures HeadRead(t, ScanAll(ScanStart(IsConnect(t)), PrintHead(t)))
  {
    hide ParseUrlChar, ScanAll, ExpectTail, PrintAuthority, AuthorityOk, TailOk, SchemeOk, RoughParts;
    var u := HeadScan(t);
    ServerDelimiters(u.s);
  }

  lemma NoHead(t: UrlText)
    requires TextOk(t) && t.schema.None? && t.authority.None?
    ensures HeadRead(t, ScanAll(ScanStart(IsConnect(t)), PrintHead(t)))
  {
    hide ParseUrlChar, ScanAll, ExpectTail, TailOk;
    assert PrintHead(t) == [];
    ScanNothing(ScanStart(IsConnect(t)));
    PathFirst(t.path);
  }

  lemma PathFirst(path: Bytes)
    requires path != [] && (path[0] == '/' || path[0] == '*')
    ensures ParseUrlChar(ReqSpacesBeforeUrl, path[0]) == ReqPath
  {
  }

  lemma FirstPass(t: UrlText)
    requires FirstOk(t)
    ensures var u := ScanAll(ScanStart(IsConnect(t)), Print(t));
            && u.s != Dead && u.parts == RoughParts(t)
            && u.foundAt == (t.authority.Some? && t.authority.value.userinfo.Some?)
  {
    hide TailOk, AuthorityOk, SchemeOk, FragmentTaken, TailStart, ScanAll, PrintHead, PrintTail, RoughParts, ExpectTail;
    if t.schema.Some? || t.authority.Some? {
      HeadRun(t);
    } else {
      NoHead(t);
    }
    ScanAppend(ScanStart(IsConnect(t)), PrintHead(t), PrintTail(t));
    TailRun(t, ScanAll(ScanStart(IsConnect(t)), PrintHead(t)));
  }

  // ---------- URLs that the first pass refuses

  lemma DeadEnd(u: Scan, a: Bytes, b: Bytes)
    requires ScanAll(u, a).s == Dead
    ensures ScanAll(u, a + b).s == Dead
  {
    hide ParseUrlChar;
    ScanAppend(u, a, b);
  }

  lemma SchemeChar(ch: Byte)
    requires IsSchemeChar(ch)
    ensures ParseUrlChar(ReqSchema, ch) == if IsAlpha(ch) then ReqSchema else Dead
  {
  }

  lemma {:induction false} SchemeDies(u: Scan, s: Bytes)
    requires u.s == ReqSchema && Every(IsSchemeChar, s) && !Every(IsAlpha, s)
    ensures ScanAll(u, s).s == Dead
    decreases |s|
  {
    hide ParseUrlChar, IsSchemeChar, IsAlpha;
    SchemeChar(s[0]);
    if IsAlpha(s[0]) {
      SchemeDies(ScanByte(u, s[0]), s[1..]);
    }
  }

  lemma FirstLetter(ch: Byte)
    requires IsAlpha(ch)
    ensures ParseUrlChar(ReqSpacesBeforeUrl, ch) == ReqSchema
  {
  }

  lemma DeadScheme(t: UrlText)
    requires TextOk(t) && t.schema.Some? && !Every(IsAlpha, t.schema.value)
    ensures ScanAll(ScanStart(IsConnect(t)), Print(t)).s == Dead
  {
    hide ParseUrlChar, IsSchemeChar, IsAlpha, TailOk, AuthorityOk, PrintAuthority, PrintTail, ScanAll;
    var s, u0 := t.schema.value, ScanStart(IsConnect(t));
    WholeSchemeDies(u0, s);
    SchemaText(t);
    var rest := Print(t)[|s|..];
    assert Print(t) == s + rest;
    DeadEnd(u0, s, rest);
  }

  lemma WholeSchemeDies(u: Scan, s: Bytes)
    requires u.s == ReqSpacesBeforeUrl && SchemeOk(s) && !Every(IsAlpha, s)
    ensures ScanAll(u, s).s == Dead
  {
    hide ParseUrlChar, IsSchemeChar, IsAlpha;
    FirstLetter(s[0]);
    SchemeDies(ScanByte(u, s[0]), s[1..]);
  }

  lemma NoHash(s: State)
    requires IsServerState(s)
    ensures ParseUrlChar(s, '#') == Dead
  {
  }

  lemma DeadFragment(t: UrlText)
    requires TextOk(t) && (t.schema.Some? ==> Every(IsAlpha, t.schema.value)) && !FragmentTaken(t)
    ensures ScanAll(ScanStart(IsConnect(t)), Print(t)).s == Dead
  {
    hide ParseUrlChar, TextOk, PrintHead, RoughParts, ExpectTail, ScanAll, Print;
    var u := HeadScan(t);
    FragmentText(t);
    HashDies(u, t.fragment.value);
    ScanAppend(ScanStart(IsConnect(t)), PrintHead(t), ['#'] + t.fragment.value);
  }

  lemma FragmentText(t: UrlText)
    requires !FragmentTaken(t)
    ensures Print(t) == PrintHead(t) + (['#'] + t.fragment.value)
  {
    hide PrintHead;
  }

  lemma HashDies(u: Scan, f: Bytes)
    requires IsServerState(u.s)
    ensures ScanAll(u, ['#'] + f).s == Dead
  {
    hide ParseUrlChar;
    NoHash(u.s);
    assert (['#'] + f)[0] == '#';
  }

  // ---------- the authority, second pass

  lemma {:induction false} UserRun(h: HostScan, xs: Bytes)
    requires Every(IsUserinfoChar, xs) && h.hs == UserinfoChars && h.userinfo.Some?
    ensures HostAll(h, xs) == h.(pos := h.pos + |xs|,
                                 userinfo := Some(Span(h.userinfo.value.off, h.userinfo.value.len + |xs|)))
    decreases |xs|
  {
    hide IsUserinfoChar;
    if xs != [] {
      UserChar(xs[0]);
      UserRun(HostByte(h, xs[0]), xs[1..]);
    }
  }

  lemma UserChar(ch: Byte)
    requires IsUserinfoChar(ch)
    ensures UserinfoChar(ch) == UserinfoChars
  {
  }

  lemma {:induction false} NameRun(h: HostScan, xs: Bytes)
    requires Every(IsHostChar, xs) && h.hs == HostChars
    ensures HostAll(h, xs) == h.(pos := h.pos + |xs|, host := Span(h.host.off, h.host.len + |xs|))
    decreases |xs|
  {
    hide IsHostChar;
    if xs != [] {
      NameRun(HostByte(h, xs[0]), xs[1..]);
    }
  }

  lemma V6Char(ch: Byte)
    ensures IsV6Char(ch) ==> ch != ']' && (IsHex(ch) || ch == ':' || ch == '.')
    ensures IsZoneChar(ch) ==> ch != ']'
    ensures IsHostChar(ch) ==> ch != '[' && ch != ':'
  {
  }

  lemma {:induction false} V6Run(h: HostScan, xs: Bytes)
    requires Every(IsV6Char, xs) && h.hs == V6
    ensures HostAll(h, xs) == h.(pos := h.pos + |xs|, host := Span(h.host.off, h.host.len + |xs|))
    decreases |xs|
  {
    hide IsHex;
    if xs != [] {
      V6Char(xs[0]);
      V6Run(HostByte(h, xs[0]), xs[1..]);
    }
  }

  lemma {:induction false} ZoneRun(h: HostScan, xs: Bytes)
    requires Every(IsZoneChar, xs) && (h.hs == Zone || (h.hs == ZoneStart && xs != []))
    ensures HostAll(h, xs) == h.(hs := Zone, pos := h.pos + |xs|, host := Span(h.host.off, h.host.len + |xs|))
    decreases |xs|
  {
    hide IsZoneChar;
    if xs != [] {
      V6Char(xs[0]);
      ZoneRun(HostByte(h, xs[0]), xs[1..]);
    }
  }

  lemma {:induction false} PortRun(h: HostScan, xs: Bytes)
    requires Every(IsNum, xs) && h.hs == PortDigits && h.port.Some?
    ensures HostAll(h, xs) == h.(pos := h.pos + |xs|, port := Some(Span(h.port.value.off, h.port.value.len + |xs|)))
    decreases |xs|
  {
    hide IsNum;
    if xs != [] {
      PortRun(HostByte(h, xs[0]), xs[1..]);
    }
  }

  lemma HostOne(h: HostScan, ch: Byte)
    requires h.hs != HostDead
    ensures HostAll(h, [ch]) == HostByte(h, ch)
  {
    hide ParseHostChar;
    assert [ch][1..] == [];
    assert HostAll(HostByte(h, ch), []) == HostByte(h, ch);
  }

  /** User information and its '@'. */
  lemma UserPart(off: nat, u: Option<Bytes>)
    requires u.Some? ==> Every(IsUserinfoChar, u.value)
    ensures HostAll(HostStartScan(off, u.Some?), PrintUser(u)) ==
            HostScan(HostStart, off + |PrintUser(u)|, Span(off, 0),
                     if u.Some? && u.value != [] then Some(Span(off, |u.value|)) else None, None)
  {
    hide IsUserinfoChar;
    var h0 := HostStartScan(off, u.Some?);
    if u.Some? {
      var x := u.value;
      HostAppend(h0, x, ['@']);
      if x != [] {
        UserChar(x[0]);
        UserRun(HostByte(h0, x[0]), x[1..]);
      }
      HostOne(HostAll(h0, x), '@');
    }
  }

  // The host text has been read from the start of `h`.
  function HostRead(h: HostScan, host: HostText): HostScan {
    h.(hs := if host.Name? then HostChars else V6End, pos := h.pos + |PrintHost(host)|, host := HostSpan(host, h.pos))
  }

  lemma NamePart(h: HostScan, t: Bytes)
    requires h.hs == HostStart && h.host.len == 0 && t != [] && Every(IsHostChar, t)
    ensures HostAll(h, t) == HostRead(h, Name(t))
  {
    hide IsHostChar;
    V6Char(t[0]);
    NameRun(HostByte(h, t[0]), t[1..]);
  }

  lemma AddrPart(h: HostScan, a: Bytes)
    requires h.hs == V6Start && h.host.len == 0 && a != [] && Every(IsV6Char, a)
    ensures HostAll(h, a) == h.(hs := V6, pos := h.pos + |a|, host := Span(h.pos, |a|))
  {
    hide IsHex;
    V6Char(a[0]);
    V6Run(HostByte(h, a[0]), a[1..]);
  }

  lemma ZonePart(h: HostScan, z: Option<Bytes>)
    requires h.hs == V6 && (z.Some? ==> z.value != [] && Every(IsZoneChar, z.value))
    ensures var text := if z.Some? then ['%'] + z.value else [];
            HostAll(h, text) == h.(hs := if z.Some? then Zone else V6, pos := h.pos + |text|,
                                   host := Span(h.host.off, h.host.len + |text|))
  {
    hide IsZoneChar;
    if z.Some? {
      assert !IsHex('%');
      HostAppend(h, ['%'], z.value);
      HostOne(h, '%');
      ZoneRun(HostByte(h, '%'), z.value);
    }
  }

  lemma Ipv6Part(h: HostScan, a: Bytes, z: Option<Bytes>)
    requires h.hs == HostStart && h.host.len == 0 && HostTextOk(Ipv6(a, z))
    ensures HostAll(h, PrintHost(Ipv6(a, z))) == HostRead(h, Ipv6(a, z))
  {
    hide HostAll, IsV6Char, IsZoneChar;
    var zone := if z.Some? then ['%'] + z.value else [];
    HostAppend(h, ['['] + (a + zone), [']']);
    HostAppend(h, ['['], a + zone);
    HostOne(h, '[');
    var h1 := HostByte(h, '[');
    HostAppend(h1, a, zone);
    AddrPart(h1, a);
    var h2 := HostAll(h1, a);
    ZonePart(h2, z);
    HostOne(HostAll(h2, zone), ']');
  }

  lemma PortPart(h: HostScan, p: Option<Bytes>)
    requires (h.hs == HostChars || h.hs == V6End) && h.port == None
    requires p.Some? ==> p.value != [] && Every(IsNum, p.value)
    ensures HostAll(h, PrintPort(p)) == h.(hs := if p.Some? then PortDigits else h.hs, pos := h.pos + |PrintPort(p)|,
                                           port := if p.Some? then Some(Span(h.pos + 1, |p.value|)) else None)
  {
    hide IsNum;
    if p.Some? {
      V6Char(':');
      HostAppend(h, [':'], p.value);
      HostOne(h, ':');
      var h1 := HostByte(h, ':');
      PortRun(HostByte(h1, p.value[0]), p.value[1..]);
    }
  }

  /** The second pass finds user information, host and port. */
  lemma SecondPass(a: Authority, off: nat)
    requires AuthorityOk(a) && AuthorityTaken(a)
    ensures var h := HostAll(HostStartScan(off, a.userinfo.Some?), PrintAuthority(a));
            && HostMayEnd(h.hs)
            && (h.port.Some? <==> a.port.Some?)
            && (a.port.Some? ==>
                h.port.value == Span(off + |PrintUser(a.userinfo)| + |PrintHost(a.host)| + 1, |a.port.value|))
            && forall parts: map<Field, Span> :: Userinfo !in parts && Port !in parts ==>
                 WithHost(parts, h) == ExpectAuthority(parts, a, off)
  {
    hide HostAll, PrintHost, PrintPort, PrintUser;
    var h0 := HostStartScan(off, a.userinfo.Some?);
    HostAppend(h0, PrintUser(a.userinfo), PrintHost(a.host) + PrintPort(a.port));
    UserPart(off, a.userinfo);
    var h1 := HostAll(h0, PrintUser(a.userinfo));
    HostAppend(h1, PrintHost(a.host), PrintPort(a.port));
    HostPart(h1, a.host);
    PortPart(HostAll(h1, PrintHost(a.host)), a.port);
  }

  lemma HostPart(h: HostScan, host: HostText)
    requires h.hs == HostStart && h.host.len == 0 && HostTextOk(host) && !host.Future?
    requires host.Name? ==> host.text != [] && Every(IsHostChar, host.text)
    ensures HostAll(h, PrintHost(host)) == HostRead(h, host)
  {
    hide HostAll;
    match host {
      case Name(t) => NamePart(h, t);
      case Ipv6(a, z) => Ipv6Part(h, a, z);
    }
  }

  // An address of a future version is refused at its first letter.
  lemma FutureDies(h: HostScan, t: Bytes)
    requires h.hs == HostStart && t != [] && (t[0] == 'v' || t[0] == 'V')
    ensures HostAll(h, PrintHost(Future(t))).hs == HostDead
  {
    hide HostAll;
    HostOne(h, '[');
    var h1 := HostByte(h, '[');
    HostOne(h1, t[0]);
    assert PrintHost(Future(t)) == ['['] + [t[0]] + (t[1..] + [']']);
    HostAppend(h, ['['], [t[0]]);
    HostEnds(h, ['['] + [t[0]], t[1..] + [']']);
  }

  // ---------- hosts that the second pass refuses

  lemma {:induction false} NameDies(h: HostScan, t: Bytes)
    requires (h.hs == HostStart || h.hs == HostChars) && Every(IsRegNameChar, t) && !Every(IsHostChar, t)
    ensures HostAll(h, t).hs == HostDead
    decreases |t|
  {
    hide IsHostChar, IsRegNameChar;
    NameChar(t[0]);
    if IsHostChar(t[0]) {
      NameDies(HostByte(h, t[0]), t[1..]);
    }
  }

  lemma NameChar(ch: Byte)
    requires IsRegNameChar(ch)
    ensures ch != ':' && ch != '['
  {
  }

  lemma HostEnds(h: HostScan, a: Bytes, b: Bytes)
    requires HostAll(h, a).hs == HostDead
    ensures HostAll(h, a + b).hs == HostDead
  {
    hide ParseHostChar;
    HostAppend(h, a, b);
  }

  // A colon with no digit behind it, or with no host in front of it.
  lemma BadPort(h: HostScan, p: Option<Bytes>)
    requires p.Some? && (h.hs == HostStart || ((h.hs == HostChars || h.hs == V6End) && p.value == []))
    ensures !HostMayEnd(HostAll(h, PrintPort(p)).hs)
  {
    V6Char(':');
    hide IsHostChar;
    HostOne(h, ':');
    if h.hs == HostStart {
      HostEnds(h, [':'], p.value);
    } else {
      assert PrintPort(p) == [':'];
    }
  }

  /** The second pass refuses a host that is empty or holds any other character, an address of a future version,
      and an empty port. */
  lemma SecondPassFails(a: Authority, off: nat)
    requires AuthorityOk(a) && !AuthorityTaken(a)
    ensures !HostMayEnd(HostAll(HostStartScan(off, a.userinfo.Some?), PrintAuthority(a)).hs)
  {
    hide HostAll, PrintUser, IsHostChar, IsRegNameChar, PrintPort;
    var h0 := HostStartScan(off, a.userinfo.Some?);
    HostAppend(h0, PrintUser(a.userinfo), PrintHost(a.host) + PrintPort(a.port));
    UserPart(off, a.userinfo);
    var h1 := HostAll(h0, PrintUser(a.userinfo));
    if a.host.Name? && !Every(IsHostChar, a.host.text) {
      NameDies(h1, a.host.text);
      HostEnds(h1, a.host.text, PrintPort(a.port));
    } else if a.host.Name? && a.host.text == [] {
      assert PrintHost(a.host) + PrintPort(a.port) == PrintPort(a.port);
      NoHost(h1, a.port);
    } else if a.host.Future? {
      FutureDies(h1, a.host.literal);
      HostEnds(h1, PrintHost(a.host), PrintPort(a.port));
    } else {
      HostAppend(h1, PrintHost(a.host), PrintPort(a.port));
      HostPart(h1, a.host);
      BadPort(HostAll(h1, PrintHost(a.host)), a.port);
    }
  }

  lemma NoHost(h: HostScan, p: Option<Bytes>)
    requires h.hs == HostStart
    ensures !HostMayEnd(HostAll(h, PrintPort(p)).hs)
  {
    if p.Some? {
      BadPort(h, p);
    }
  }

  // ---------- the port's value

  lemma {:induction false} DigitsAppend(ds: Bytes, rest: Bytes)
    requires Every(IsNum, ds)
    ensures LeadingDigits(ds + rest) == |ds| + LeadingDigits(rest)
    decreases |ds|
  {
    if ds == [] {
      assert ds + rest == rest;
    } else {
      assert (ds + rest)[1..] == ds[1..] + rest;
      DigitsAppend(ds[1..], rest);
    }
  }

  lemma {:induction false} NumberAppend(ds: Bytes, es: Bytes)
    requires Every(IsNum, ds) && Every(IsNum, es)
    ensures Every(IsNum, ds + es) && Number(ds + es) >= Number(ds)
    ensures Number(ds) == 0 ==> Number(ds + es) == Number(es)
    ensures Number(ds) > 0 && es != [] ==> Number(ds + es) > Number(ds)
    decreases |es|
  {
    EveryAppend(IsNum, ds, es);
    if es == [] {
      assert ds + es == ds;
    } else {
      var n := |es| - 1;
      NumberAppend(ds, es[..n]);
      assert (ds + es)[..|ds| + n] == ds + es[..n];
    }
  }

  /** The conversion of a port reads on past its last digit: it gives the port's value if and only if no
      digit follows in memory, leading zeros aside. */
  lemma PortValueExact(ds: Bytes, rest: Bytes)
    requires Every(IsNum, ds)
    ensures Strtoul(ds + rest) == Number(ds) <==> LeadingDigits(rest) == 0 || (Number(ds) == 0 && Strtoul(rest) == 0)
  {
    hide Number, LeadingDigits;
    var es := rest[..LeadingDigits(rest)];
    DigitsAppend(ds, rest);
    assert (ds + rest)[..|ds| + |es|] == ds + es;
    NumberAppend(ds, es);
    if es == [] {
      assert ds + es == ds;
    }
  }

  // ---------- the round trip

  lemma TailApart(parts: map<Field, Span>, rough: Span, t: UrlText, o: nat, a: Authority, off: nat)
    ensures ExpectAuthority(ExpectTail(parts[Host := rough], t, o), a, off)
            == ExpectTail(ExpectAuthority(parts, a, off), t, o)
  {
    hide ExpectAuthority;
    var p0 := parts[Host := rough];
    RoughHost(parts, rough, a, off);
    var p1 := Put(p0, Path, o, |t.path|);
    PutApart(p0, Path, o, |t.path|, a, off);
    var o2 := o + |t.path|;
    var p2 := if t.query.Some? then Put(p1, Query, o2 + 1, |t.query.value|) else p1;
    if t.query.Some? {
      PutApart(p1, Query, o2 + 1, |t.query.value|, a, off);
    }
    if t.fragment.Some? {
      PutApart(p2, Fragment, o2 + |PrintQuery(t.query)| + 1, |t.fragment.value|, a, off);
    }
  }

  lemma RoughHost(parts: map<Field, Span>, rough: Span, a: Authority, off: nat)
    ensures ExpectAuthority(parts[Host := rough], a, off) == ExpectAuthority(parts, a, off)
  {
    hide HostSpan, PrintUser, PrintHost;
    var sp := HostSpan(a.host, off + |PrintUser(a.userinfo)|);
    UpdateTwice(parts, Host, rough, sp);
  }

  lemma PutApart(parts: map<Field, Span>, f: Field, o: nat, n: nat, a: Authority, off: nat)
    requires f == Path || f == Query || f == Fragment
    ensures ExpectAuthority(Put(parts, f, o, n), a, off) == Put(ExpectAuthority(parts, a, off), f, o, n)
  {
    hide HostSpan, PrintUser, PrintHost;
  }

  lemma TailKeys(parts: map<Field, Span>, t: UrlText, o: nat)
    ensures forall f :: f != Path && f != Query && f != Fragment ==>
              (f in ExpectTail(parts, t, o) <==> f in parts) && (f in parts ==> ExpectTail(parts, t, o)[f] == parts[f])
    ensures t.path == [] && Empty(t.query) && Empty(t.fragment) ==> ExpectTail(parts, t, o) == parts
  {
  }

  // The port's digits and everything behind them.
  function FromPort(t: UrlText, after: Bytes): Bytes
    requires t.authority.Some? && t.authority.value.port.Some?
  {
    t.authority.value.port.value + (PrintTail(t) + after)
  }

  // What the parse of a printed URL gives.
  function Outcome(t: UrlText, after: Bytes): Option<Url> {
    if t.authority.Some? && t.authority.value.port.Some? then
      var v := Strtoul(FromPort(t, after));
      if v > 0xffff then None else Some(Url(Expected(t), v))
    else Some(Url(Expected(t), 0))
  }

  // The stretch the first pass takes for the host.
  function AreaOf(t: UrlText): Span
    requires t.authority.Some?
  {
    Span(|PrintSchema(t.schema)|, |PrintAuthority(t.authority.value)|)
  }

  lemma AreaText(t: UrlText)
    requires t.authority.Some?
    ensures End(AreaOf(t)) <= |Print(t)| && Print(t)[AreaOf(t).off..End(AreaOf(t))] == PrintAuthority(t.authority.value)
  {
    hide PrintSchema, PrintAuthority, PrintTail;
  }

  lemma RoughKeys(t: UrlText)
    requires t.authority.Some?
    ensures var p := RoughParts(t);
            Host in p && p[Host] == AreaOf(t) && Userinfo !in p && Port !in p
  {
    hide ExpectTail, PrintAuthority, PrintSchema, PrintTail;
    var p1: map<Field, Span> := if t.schema.Some? then map[Schema := Span(0, |t.schema.value|)] else map[];
    TailKeys(p1[Host := AreaOf(t)], t, |PrintHead(t)|);
  }

  lemma RefinedParts(t: UrlText)
    requires t.authority.Some?
    ensures ExpectAuthority(RoughParts(t), t.authority.value, |PrintSchema(t.schema)|) == Expected(t)
  {
    hide ExpectTail, ExpectAuthority, PrintAuthority, PrintSchema, PrintTail;
    var p1: map<Field, Span> := if t.schema.Some? then map[Schema := Span(0, |t.schema.value|)] else map[];
    TailApart(p1, AreaOf(t), t, |PrintHead(t)|, t.authority.value, |PrintSchema(t.schema)|);
  }

  lemma TailNew(parts: map<Field, Span>, t: UrlText, o: nat)
    requires Path !in parts && Query !in parts && Fragment !in parts
    ensures var q := ExpectTail(parts, t, o);
            && (Path in q <==> t.path != []) && (Query in q <==> !Empty(t.query))
            && (Fragment in q <==> !Empty(t.fragment))
  {
  }

  lemma ConnectKeys(t: UrlText)
    requires TextOk(t) && IsConnect(t)
    ensures Expected(t).Keys == {Host, Port} <==> HostAndPort(t)
  {
    hide ExpectTail, ExpectAuthority, PrintAuthority, PrintSchema, PrintTail, AuthorityOk;
    var a, off := t.authority.value, |PrintSchema(t.schema)|;
    AuthorityKeys(map[], a, off);
    TailKeys(ExpectAuthority(map[], a, off), t, |PrintHead(t)|);
    TailNew(ExpectAuthority(map[], a, off), t, |PrintHead(t)|);
    assert Userinfo in Expected(t) || Port !in Expected(t) || Path in Expected(t) || Query in Expected(t)
           || Fragment in Expected(t) || HostAndPort(t);
  }

  lemma WithAuthority(t: UrlText, after: Bytes)
    requires FirstOk(t) && t.authority.Some? && AuthorityTaken(t.authority.value)
    ensures ParseUrl(Print(t), IsConnect(t), after) == if Taken(t) then Outcome(t, after) else None
  {
    hide ScanAll, HostAll, TailOk, AuthorityOk, SchemeOk, PrintAuthority, Print, RoughParts, Expected, WithHost,
         Strtoul, ScanOk, HostOk, AreaOf, HostAndPort, AuthorityTaken;
    var a := t.authority.value;
    FirstPass(t);
    RoughKeys(t);
    AreaText(t);
    AreaStart(t);
    SecondPass(a, |PrintSchema(t.schema)|);
    RefinedParts(t);
    if IsConnect(t) {
      ConnectKeys(t);
    }
    if a.port.Some? {
      PortText(t, after);
    }
  }

  lemma BadAuthority(t: UrlText, after: Bytes)
    requires FirstOk(t) && t.authority.Some? && !AuthorityTaken(t.authority.value)
    ensures ParseUrl(Print(t), IsConnect(t), after) == None
  {
    hide ScanAll, HostAll, TailOk, AuthorityOk, SchemeOk, PrintAuthority, Print, RoughParts, WithHost, Strtoul,
         ScanOk, HostOk, AreaOf, AuthorityTaken;
    FirstPass(t);
    RoughKeys(t);
    AreaText(t);
    AreaStart(t);
    SecondPassFails(t.authority.value, |PrintSchema(t.schema)|);
  }

  lemma SchemeAlone(t: UrlText, after: Bytes)
    requires FirstOk(t) && t.schema.Some? && t.authority.None?
    ensures ParseUrl(Print(t), IsConnect(t), after) == None
  {
    hide ScanAll, HostAll, TailOk, SchemeOk, Print, ExpectTail, PrintHead, Strtoul, WithHost;
    FirstPass(t);
    TailKeys(map[Schema := Span(0, |t.schema.value|)], t, |PrintHead(t)|);
  }

  lemma AreaStart(t: UrlText)
    requires t.authority.Some?
    ensures AreaOf(t).off == |PrintSchema(t.schema)|
  {
  }

  lemma AuthorityKeys(parts: map<Field, Span>, a: Authority, off: nat)
    ensures ExpectAuthority(parts, a, off).Keys ==
            parts.Keys + {Host} + (if a.port.Some? then {Port} else {})
            + (if a.userinfo.Some? && a.userinfo.value != [] then {Userinfo} else {})
  {
  }

  lemma PortText(t: UrlText, after: Bytes)
    requires t.authority.Some? && t.authority.value.port.Some?
    ensures var a := t.authority.value;
            var o := |PrintSchema(t.schema)| + |PrintUser(a.userinfo)| + |PrintHost(a.host)| + 1;
            o <= |Print(t)| && (Print(t) + after)[o..] == FromPort(t, after)
  {
    hide PrintHost, PrintUser, PrintSchema, PrintTail;
    var a := t.authority.value;
    var before := PrintSchema(t.schema) + PrintUser(a.userinfo) + PrintHost(a.host) + [':'];
    assert Print(t) + after == before + FromPort(t, after);
  }

  /** A URL written from the parts of section 3 of RFC 3986 is taken if and only if its parts are of the kinds
      the parser takes and the value it reads for the port fits 16 bits; it then parses into exactly these
      parts, each at the place where it was written. The value read is that of the port's own digits unless
      digits follow the URL in memory. */
  lemma UrlRoundTrip(t: UrlText, after: Bytes)
    requires TextOk(t)
    ensures ParseUrl(Print(t), IsConnect(t), after) == if Taken(t) then Outcome(t, after) else None
    ensures t.authority.Some? && t.authority.value.port.Some? && LeadingDigits(PrintTail(t) + after) == 0 ==>
              Strtoul(FromPort(t, after)) == Number(t.authority.value.port.value)
    ensures PrintTail(t) != [] && t.authority.Some? ==> LeadingDigits(PrintTail(t) + after) == 0
  {
    hide ScanAll, ParseUrl, Print, Outcome, Strtoul, AuthorityTaken, TailOk, PrintTail, HostAndPort;
    if t.authority.Some? && t.authority.value.port.Some? {
      PortValueExact(t.authority.value.port.value, PrintTail(t) + after);
    }
    if t.authority.Some? && PrintTail(t) != [] {
      TailFirst(t, after);
    }
    if t.schema.Some? && !Every(IsAlpha, t.schema.value) {
      DeadScheme(t);
      DeadRefused(t, after);
    } else if !FragmentTaken(t) {
      DeadFragment(t);
      DeadRefused(t, after);
    } else if t.authority.None? {
      if t.schema.None? {
        PathAlone(t, after);
      } else {
        SchemeAlone(t, after);
      }
    } else if AuthorityTaken(t.authority.value) {
      WithAuthority(t, after);
    } else {
      BadAuthority(t, after);
    }
  }

  lemma DeadRefused(t: UrlText, after: Bytes)
    requires ScanAll(ScanStart(IsConnect(t)), Print(t)).s == Dead
    ensures ParseUrl(Print(t), IsConnect(t), after) == None
  {
    hide ScanAll, Print;
  }

  lemma TailFirst(t: UrlText, after: Bytes)
    requires TextOk(t) && t.authority.Some? && PrintTail(t) != []
    ensures LeadingDigits(PrintTail(t) + after) == 0
  {
  }

  lemma PathAlone(t: UrlText, after: Bytes)
    requires TextOk(t) && t.schema.None? && t.authority.None?
    ensures ParseUrl(Print(t), IsConnect(t), after) == Outcome(t, after)
  {
    hide ScanAll, HostAll, TailOk, ExpectTail, Strtoul;
    FirstPass(t);
    TailKeys(map[], t, |PrintHead(t)|);
  }

  // ---------- a scheme without an authority

  lemma NoSlash(ch: Byte)
    requires ch != '/'
    ensures ParseUrlChar(ReqSchemaSlash, ch) == Dead && ParseUrlChar(ReqSchemaSlashSlash, ch) == Dead
  {
  }

  // The scan behind a scheme and its colon, where no authority follows.
  lemma BareScan(u: Scan, rest: Bytes)
    requires u.s == ReqSchemaSlash && u.parts.Keys == {Schema} && !(|rest| >= 2 && rest[0] == rest[1] == '/')
    ensures var v := ScanAll(u, rest); v.s == Dead || v.parts.Keys == {Schema}
  {
    hide ParseUrlChar;
    SlashStates();
    if rest != [] {
      if rest[0] != '/' {
        NoSlash(rest[0]);
      } else if |rest| == 1 {
        assert rest == ['/'];
        Delimiter(u, '/');
      } else {
        NoSlash(rest[1]);
        assert rest == ['/'] + rest[1..];
        ScanAppend(u, ['/'], rest[1..]);
        Delimiter(u, '/');
      }
    }
  }

  lemma SchemaPart(s: Bytes)
    requires s != [] && Every(IsAlpha, s)
    ensures ScanAll(ScanStart(false), s + [':']) ==
            Scan(ReqSchemaSlash, |s| + 1, Some(Schema), false, map[Schema := Span(0, |s|)])
  {
    hide ParseUrlChar, ScanAll;
    SchemaChars(s);
    SlashStates();
    IntoState(ReqSpacesBeforeUrl, s, ReqSchema, Schema);
    PartRun(ScanStart(false), s, Schema);
    ScanAppend(ScanStart(false), s, [':']);
    Delimiter(ScanAll(ScanStart(false), s), ':');
  }

  /** A URL with a scheme but without an authority, as section 3 of RFC 3986 allows it (`mailto:x`), is refused
      whatever follows the colon. */
  lemma BareSchemeRefused(s: Bytes, rest: Bytes, after: Bytes)
    requires SchemeOk(s) && !(|rest| >= 2 && rest[0] == rest[1] == '/')
    ensures ParseUrl(s + [':'] + rest, false, after) == None
  {
    hide ScanAll, HostAll, Strtoul, WithHost, IsSchemeChar, IsAlpha;
    var u0 := ScanStart(false);
    if Every(IsAlpha, s) {
      SchemaPart(s);
      ScanAppend(u0, s + [':'], rest);
      BareScan(ScanAll(u0, s + [':']), rest);
    } else {
      WholeSchemeDies(u0, s);
      DeadEnd(u0, s, [':'] + rest);
      assert s + [':'] + rest == s + ([':'] + rest);
    }
  }

  // URLs of RFC 3986 that are refused: a fragment right behind the host, an empty port.
  const HTTP: Bytes := ['h', 't', 't', 'p']
  const NO_PATH := UrlText(Some(HTTP), Some(Authority(None, Name(['h']), None)), [], None, Some(['f']))
  const NO_DIGITS := UrlText(Some(HTTP), Some(Authority(None, Name(['h']), Some([]))), ['/', 'p'], None, None)

  /** The refusals are real: these two do not parse. */
  lemma RefusedUrls()
    ensures TextOk(NO_PATH) && Print(NO_PATH) == "http://h#f" && ParseUrl("http://h#f", false, []) == None
    ensures TextOk(NO_DIGITS) && Print(NO_DIGITS) == "http://h:/p" && ParseUrl("http://h:/p", false, []) == None
  {
    hide ParseUrl, Outcome;
    UrlRoundTrip(NO_PATH, []);
    UrlRoundTrip(NO_DIGITS, []);
  }

  // The text written for part f, and all that is written before it.
  function Written(t: UrlText, f: Field): Bytes {
    match f
    case Schema => if t.schema.Some? then t.schema.value else []
    case Path => t.path
    case Query => if t.query.Some? then t.query.value else []
    case Fragment => if t.fragment.Some? then t.fragment.value else []
    case _ => if t.authority.Some? then WrittenIn(t.authority.value, f) else []
  }

  function WrittenIn(a: Authority, f: Field): Bytes {
    match f
    case Userinfo => if a.userinfo.Some? then a.userinfo.value else []
    case Port => if a.port.Some? then a.port.value else []
    case _ =>
      match a.host
      case Name(text) => text
      case Ipv6(addr, z) => addr + if z.Some? then ['%'] + z.value else []
      case Future(literal) => literal
  }

  function WrittenBefore(t: UrlText, f: Field): Bytes {
    match f
    case Schema => []
    case Path => PrintHead(t)
    case Query => PrintHead(t) + t.path + ['?']
    case Fragment => PrintHead(t) + t.path + PrintQuery(t.query) + ['#']
    case _ => PrintSchema(t.schema) + if t.authority.Some? then BeforeIn(t.authority.value, f) else []
  }

  function BeforeIn(a: Authority, f: Field): Bytes {
    match f
    case Userinfo => []
    case Port => PrintUser(a.userinfo) + PrintHost(a.host) + [':']
    case _ => PrintUser(a.userinfo) + if a.host.Name? then [] else ['[']
  }

  /** Exactly the nonempty parts are reported, and each report is the place of the part's own text. */
  lemma PartsAreTexts(t: UrlText, f: Field)
    requires TextOk(t) && Taken(t)
    ensures f in Expected(t) <==> Written(t, f) != []
    ensures f in Expected(t) ==> Expected(t)[f] == Span(|WrittenBefore(t, f)|, |Written(t, f)|)
    ensures Written(t, f) != [] ==> WrittenBefore(t, f) + Written(t, f) <= Print(t)
  {
    hide Every, ExpectTail, ExpectAuthority, HostAndPort, FragmentTaken, TailOk, AuthorityOk, PrintHead, AuthorityTaken,
         PrintAuthority, WrittenIn;
    var p1: map<Field, Span> := if t.schema.Some? then map[Schema := Span(0, |t.schema.value|)] else map[];
    var p2 := if t.authority.Some? then ExpectAuthority(p1, t.authority.value, |PrintSchema(t.schema)|) else p1;
    TailKeys(p2, t, |PrintHead(t)|);
    if t.authority.Some? {
      AuthorityTexts(p1, t.authority.value, |PrintSchema(t.schema)|, f);
      AuthorityKeys(p1, t.authority.value, |PrintSchema(t.schema)|);
    }
    if f == Path || f == Query || f == Fragment {
      TailTexts(p2, t, |PrintHead(t)|, f);
    }
    if Written(t, f) != [] {
      PrintedTexts(t, f);
    }
  }

  lemma AuthorityTexts(parts: map<Field, Span>, a: Authority, off: nat, f: Field)
    requires AuthorityOk(a) && AuthorityTaken(a) && forall g :: g in parts ==> g == Schema
    ensures var q := ExpectAuthority(parts, a, off);
            if f == Userinfo || f == Host || f == Port then
              && (f in q <==> WrittenIn(a, f) != [])
              && (f in q ==> q[f] == Span(off + |BeforeIn(a, f)|, |WrittenIn(a, f)|))
            else (f in q <==> f in parts) && (f in q ==> q[f] == parts[f])
  {
    hide Every;
  }

  lemma TailTexts(parts: map<Field, Span>, t: UrlText, o: nat, f: Field)
    requires f == Path || f == Query || f == Fragment
    requires Path !in parts && Query !in parts && Fragment !in parts && o == |PrintHead(t)|
    ensures var q := ExpectTail(parts, t, o);
            (f in q <==> Written(t, f) != []) && (f in q ==> q[f] == Span(|WrittenBefore(t, f)|, |Written(t, f)|))
  {
    hide PrintHead;
  }

  lemma PrintedTexts(t: UrlText, f: Field)
    requires Written(t, f) != []
    ensures WrittenBefore(t, f) + Written(t, f) <= Print(t)
  {
    hide PrintSchema, PrintHost, PrintUser, PrintPort, PrintHead, PrintAuthority, BeforeIn, WrittenIn;
    match f {
      case Fragment => TailText(t, f);
      case Query => TailText(t, f);
      case Path => TailText(t, f);
      case Schema => SchemaText(t);
      case _ => AuthorityText(t, t.authority.value, f);
    }
  }

  lemma TailText(t: UrlText, f: Field)
    requires (f == Path || f == Query || f == Fragment) && Written(t, f) != []
    ensures WrittenBefore(t, f) + Written(t, f) <= Print(t)
  {
    hide PrintHead;
    var h, q, g := PrintHead(t), PrintQuery(t.query), PrintFragment(t.fragment);
    Regroup(h, t.path, q + g);
    Regroup(h + t.path, q, g);
    assert Print(t) == h + t.path + q + g;
    match f {
      case Fragment => Regroup(h + t.path + q, ['#'], t.fragment.value);
      case Query => Regroup(h + t.path, ['?'], t.query.value);
      case _ =>
    }
  }

  lemma SchemaText(t: UrlText)
    requires t.schema.Some?
    ensures t.schema.value <= Print(t)
  {
    hide PrintAuthority, PrintTail;
    assert Print(t) == t.schema.value
           + ([':', '/', '/'] + (if t.authority.Some? then PrintAuthority(t.authority.value) else []) + PrintTail(t));
  }

  lemma AuthorityText(t: UrlText, a: Authority, f: Field)
    requires t.authority == Some(a) && WrittenIn(a, f) != []
    ensures PrintSchema(t.schema) + BeforeIn(a, f) + WrittenIn(a, f) <= Print(t)
  {
    hide PrintSchema, PrintTail, PrintAuthority, BeforeIn, WrittenIn;
    InAuthority(a, f);
    PrefixInside(PrintSchema(t.schema), BeforeIn(a, f), WrittenIn(a, f), PrintAuthority(a), PrintTail(t));
  }

  lemma PrefixInside(s: Bytes, b: Bytes, w: Bytes, a: Bytes, t: Bytes)
    requires b + w <= a
    ensures s + b + w <= s + a + t
  {
    var rest := a[|b + w|..];
    assert s + a + t == s + b + w + (rest + t);
  }

  lemma InAuthority(a: Authority, f: Field)
    requires WrittenIn(a, f) != []
    ensures BeforeIn(a, f) + WrittenIn(a, f) <= PrintAuthority(a)
  {
    hide PrintHost;
    var rest := PrintHost(a.host) + PrintPort(a.port);
    match f {
      case Userinfo => Regroup(a.userinfo.value, ['@'], rest);
      case Port =>
        Regroup(PrintUser(a.userinfo), PrintHost(a.host), PrintPort(a.port));
        Regroup(PrintUser(a.userinfo) + PrintHost(a.host), [':'], a.port.value);
      case _ => HostTextWritten(a, f);
    }
  }

  lemma HostTextWritten(a: Authority, f: Field)
    requires f != Userinfo && f != Port
    ensures BeforeIn(a, f) + WrittenIn(a, f) <= PrintAuthority(a)
  {
    hide PrintUser, PrintPort;
    var x := WrittenIn(a, f);
    match a.host {
      case Name(_) => assert PrintAuthority(a) == PrintUser(a.userinfo) + x + PrintPort(a.port);
      case _ => assert PrintAuthority(a) == PrintUser(a.userinfo) + ['['] + x + ([']'] + PrintPort(a.port));
    }
  }
}
