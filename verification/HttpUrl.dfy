/** http_parser_parse_url: cutting a URL into its parts. */
module HttpUrl {
  import opened Common
  import opened HttpTypes
  import opened HttpDispatch

  datatype Field = Schema | Host | Port | Path | Query | Fragment | Userinfo

  datatype Span = Span(off: nat, len: nat)

  datatype HostState =
    | HostDead | UserinfoStart | UserinfoChars | HostStart | V6Start | HostChars | V6 | V6End | ZoneStart | Zone
    | PortStart | PortDigits

  function ParseHostChar(s: HostState, ch: Byte): HostState {
    match s
    case UserinfoChars => UserinfoChar(ch)
    case UserinfoStart => UserinfoChar(ch)
    case HostStart => if ch == '[' then V6Start else if IsHostChar(ch) then HostChars else HostDead
    case HostChars => if IsHostChar(ch) then HostChars else if ch == ':' then PortStart else HostDead
    case V6End => if ch == ':' then PortStart else HostDead
    case V6 =>
      if ch == ']' then V6End else if IsHex(ch) || ch == ':' || ch == '.' then V6
      else if ch == '%' then ZoneStart else HostDead
    case V6Start => if IsHex(ch) || ch == ':' || ch == '.' then V6 else HostDead
    case Zone => if ch == ']' then V6End else if IsZoneChar(ch) then Zone else HostDead
    case ZoneStart => if IsZoneChar(ch) then Zone else HostDead
    case PortDigits => if IsNum(ch) then PortDigits else HostDead
    case PortStart => if IsNum(ch) then PortDigits else HostDead
    case HostDead => HostDead
  }

  function UserinfoChar(ch: Byte): HostState {
    if ch == '@' then HostStart else if IsUserinfoChar(ch) then UserinfoChars else HostDead
  }

  predicate IsZoneChar(ch: Byte) {
    IsAlphaNum(ch) || ch == '%' || ch == '.' || ch == '-' || ch == '_' || ch == '~'
  }

  // ---------- the first pass: which part each byte belongs to

  // The part a byte belongs to when it takes the automaton to state s; none for a delimiter.
  function FieldOf(s: State): Option<Field> {
    match s
    case ReqSchema => Some(Schema)
    case ReqServerWithAt => Some(Host)
    case ReqServer => Some(Host)
    case ReqPath => Some(Path)
    case ReqQueryString => Some(Query)
    case ReqFragment => Some(Fragment)
    case _ => None
  }

  // After pos bytes: the state, the part last seen, whether there was an '@', and the parts found.
  datatype Scan = Scan(s: State, pos: nat, last: Option<Field>, foundAt: bool, parts: map<Field, Span>)

  // A byte that belongs to part f.
  function Extend(parts: map<Field, Span>, last: Option<Field>, f: Field, pos: nat): map<Field, Span> {
    if last == Some(f) && f in parts then parts[f := Span(parts[f].off, parts[f].len + 1)]
    else parts[f := Span(pos, 1)]
  }

  function ScanByte(u: Scan, ch: Byte): Scan {
    var s := ParseUrlChar(u.s, ch);
    var at := u.foundAt || s == ReqServerWithAt;
    match FieldOf(s)
    case None => Scan(s, u.pos + 1, u.last, at, u.parts)
    case Some(f) => Scan(s, u.pos + 1, Some(f), at, Extend(u.parts, u.last, f, u.pos))
  }

  function ScanAll(u: Scan, buf: Bytes): Scan
    decreases |buf|
  {
    if buf == [] || u.s == Dead then u else ScanAll(ScanByte(u, buf[0]), buf[1..])
  }

  function ScanStart(isConnect: bool): Scan {
    Scan(if isConnect then ReqServerStart else ReqSpacesBeforeUrl, 0, None, false, map[])
  }

  lemma {:induction false} ScanAppend(u: Scan, a: Bytes, b: Bytes)
    ensures ScanAll(u, a + b) == ScanAll(ScanAll(u, a), b)
    decreases |a|
  {
    if a == [] {
      assert a + b == b;
    } else if u.s != Dead {
      assert (a + b)[1..] == a[1..] + b;
      ScanAppend(ScanByte(u, a[0]), a[1..], b);
    }
  }

  // ---------- the second pass: user information, host and port

  datatype HostScan = HostScan(hs: HostState, pos: nat, host: Span, userinfo: Option<Span>, port: Option<Span>)

  function Longer(sp: Span): Span { Span(sp.off, sp.len + 1) }

  function LongerOr(sp: Option<Span>, same: bool, pos: nat): Option<Span> {
    if same && sp.Some? then Some(Longer(sp.value)) else Some(Span(pos, 1))
  }

  function HostByte(h: HostScan, ch: Byte): HostScan {
    var s := ParseHostChar(h.hs, ch);
    var h1 := h.(hs := s, pos := h.pos + 1);
    match s
    case HostChars => h1.(host := Longer(if h.hs != HostChars then Span(h.pos, h.host.len) else h.host))
    case V6 => h1.(host := Longer(if h.hs != V6 then Span(h.pos, h.host.len) else h.host))
    case ZoneStart => h1.(host := Longer(h.host))
    case Zone => h1.(host := Longer(h.host))
    case PortDigits => h1.(port := LongerOr(h.port, h.hs == PortDigits, h.pos))
    case UserinfoChars => h1.(userinfo := LongerOr(h.userinfo, h.hs == UserinfoChars, h.pos))
    case _ => h1
  }

  function HostAll(h: HostScan, buf: Bytes): HostScan
    decreases |buf|
  {
    if buf == [] || h.hs == HostDead then h else HostAll(HostByte(h, buf[0]), buf[1..])
  }

  lemma {:induction false} HostAppend(h: HostScan, a: Bytes, b: Bytes)
    ensures HostAll(h, a + b) == HostAll(HostAll(h, a), b)
    decreases |a|
  {
    if a == [] {
      assert a + b == b;
    } else if h.hs != HostDead {
      assert (a + b)[1..] == a[1..] + b;
      HostAppend(HostByte(h, a[0]), a[1..], b);
    }
  }

  function HostStartScan(off: nat, foundAt: bool): HostScan {
    HostScan(if foundAt then UserinfoStart else HostStart, off, Span(off, 0), None, None)
  }

  // The states in which the host part may end.
  predicate HostMayEnd(s: HostState) { s == HostChars || s == V6End || s == PortDigits }

  function WithHost(parts: map<Field, Span>, h: HostScan): map<Field, Span> {
    var p1 := parts[Host := h.host];
    var p2 := if h.port.Some? then p1[Port := h.port.value] else p1;
    if h.userinfo.Some? then p2[Userinfo := h.userinfo.value] else p2
  }

  // ---------- the parts lie one behind the other

  function Rank(f: Field): nat {
    match f
    case Schema => 0 case Userinfo => 1 case Host => 2 case Port => 3 case Path => 4 case Query => 5 case Fragment => 6
  }

  function End(sp: Span): nat { sp.off + sp.len }

  // The rank of the part the automaton is in or about to enter.
  function StateRank(s: State): nat {
    match s
    case ReqSchemaSlash => 1
    case ReqSchemaSlashSlash => 1
    case ReqServerStart => 1
    case ReqServer => 2
    case ReqServerWithAt => 2
    case ReqPath => 4
    case ReqQueryStringStart => 5
    case ReqQueryString => 5
    case ReqFragmentStart => 6
    case ReqFragment => 6
    case _ => 0
  }

  ghost predicate Ordered(parts: map<Field, Span>) {
    && (forall f :: f in parts ==> parts[f].len > 0)
    && (forall f, g :: f in parts && g in parts && Rank(f) < Rank(g) ==> End(parts[f]) <= parts[g].off)
  }

  ghost predicate ScanOk(u: Scan) {
    && u.s != Dead && Ordered(u.parts) && Userinfo !in u.parts && Port !in u.parts
    && (forall f :: f in u.parts ==> End(u.parts[f]) <= u.pos)
    && (if u.last.None? then u.parts == map[]
        else u.last.value in u.parts && forall f :: f in u.parts ==> Rank(f) <= Rank(u.last.value))
    && (match FieldOf(u.s)
        case Some(f) => u.last == Some(f) && End(u.parts[f]) == u.pos
        case None => u.last.Some? ==> Rank(u.last.value) < StateRank(u.s))
  }

  /** The automaton never goes back to an earlier part. */
  lemma StateRankGrows(s: State, ch: Byte)
    requires ParseUrlChar(s, ch) != Dead
    ensures var s' := ParseUrlChar(s, ch);
            && StateRank(s) <= StateRank(s')
            && (FieldOf(s).Some? && FieldOf(s').None? ==> StateRank(s) < StateRank(s'))
            && (FieldOf(s').Some? ==> StateRank(s') == Rank(FieldOf(s').value)
                                      && FieldOf(s').value != Userinfo && FieldOf(s').value != Port)
            && (FieldOf(s).Some? ==> StateRank(s) == Rank(FieldOf(s).value))
  {
    hide IsAlpha, IsUserinfoChar, IsUrlChar;
  }

  // The last part may be put in place, or made longer.
  lemma OrderedExtend(parts: map<Field, Span>, f: Field, sp: Span)
    requires Ordered(parts) && sp.len > 0
    requires forall g :: g in parts && g != f ==> Rank(g) < Rank(f) && End(parts[g]) <= sp.off
    ensures Ordered(parts[f := sp])
  {
  }

  // Everything before the part that the automaton is in, or comes to, is of a lower rank.
  lemma LastRank(u: Scan, f: Field)
    requires ScanOk(u) && (u.last.Some? ==> Rank(u.last.value) <= Rank(f))
    ensures forall g :: g in u.parts && g != f ==> Rank(g) < Rank(f)
    ensures u.last == Some(f) ==> forall g :: g in u.parts && g != f ==> End(u.parts[g]) <= u.parts[f].off
  {
    hide StateRank;
  }

  lemma ExtendOk(u: Scan, f: Field)
    requires ScanOk(u) && (u.last.Some? ==> Rank(u.last.value) <= Rank(f))
    requires u.last == Some(f) ==> FieldOf(u.s) == Some(f)
    ensures Ordered(Extend(u.parts, u.last, f, u.pos))
    ensures var q := Extend(u.parts, u.last, f, u.pos);
            && f in q && End(q[f]) == u.pos + 1
            && forall g :: g in q ==> (g == f || g in u.parts) && End(q[g]) <= u.pos + 1
  {
    hide StateRank, Ordered;
    LastRank(u, f);
    OrderedExtend(u.parts, f, if u.last == Some(f) then Span(u.parts[f].off, u.parts[f].len + 1) else Span(u.pos, 1));
  }

  lemma PartByteOk(u: Scan, ch: Byte, f: Field)
    requires ScanOk(u) && ScanByte(u, ch).s != Dead && FieldOf(ParseUrlChar(u.s, ch)) == Some(f)
    ensures ScanOk(ScanByte(u, ch))
  {
    hide ParseUrlChar, Ordered, Extend, StateRank, FieldOf, Rank;
    StateRankGrows(u.s, ch);
    ExtendOk(u, f);
    LastRank(u, f);
  }

  lemma ScanByteOk(u: Scan, ch: Byte)
    requires ScanOk(u) && ScanByte(u, ch).s != Dead
    ensures ScanOk(ScanByte(u, ch))
  {
    hide ParseUrlChar, Ordered, Extend, StateRank, FieldOf, Rank;
    match FieldOf(ParseUrlChar(u.s, ch)) {
      case None => StateRankGrows(u.s, ch);
      case Some(f) => PartByteOk(u, ch, f);
    }
  }

  lemma {:induction false} ScanAllOk(u: Scan, buf: Bytes)
    requires ScanOk(u)
    ensures ScanAll(u, buf).s != Dead ==> ScanOk(ScanAll(u, buf)) && ScanAll(u, buf).pos == u.pos + |buf|
    decreases |buf|
  {
    hide ScanOk, ParseUrlChar;
    if buf != [] && u.s != Dead {
      var u1 := ScanByte(u, buf[0]);
      if u1.s != Dead {
        ScanByteOk(u, buf[0]);
        ScanAllOk(u1, buf[1..]);
      }
    }
  }

  /** Every part the first pass finds lies within the URL. */
  lemma ScanInBounds(buf: Bytes, isConnect: bool)
    ensures var u := ScanAll(ScanStart(isConnect), buf);
            u.s != Dead ==> ScanOk(u) && forall f :: f in u.parts ==> End(u.parts[f]) <= |buf|
  {
    ScanAllOk(ScanStart(isConnect), buf);
  }

  ghost predicate Before(a: Option<Span>, b: nat) { a.Some? ==> End(a.value) <= b }

  ghost predicate HostOk(h: HostScan, start: nat) {
    && start <= h.pos && start <= h.host.off && End(h.host) <= h.pos
    && (h.userinfo.Some? ==> start <= h.userinfo.value.off && h.userinfo.value.len > 0) && Before(h.userinfo, h.pos)
    && (h.port.Some? ==> End(h.host) <= h.port.value.off && h.port.value.len > 0) && Before(h.port, h.pos)
    && (match h.hs
        case UserinfoStart => h.host.len == 0 && h.userinfo.None? && h.port.None?
        case UserinfoChars => h.host.len == 0 && h.userinfo.Some? && End(h.userinfo.value) == h.pos && h.port.None?
        case HostStart => h.host.len == 0 && h.port.None?
        case V6Start => h.host.len == 0 && h.port.None?
        case HostChars => HostGrows(h)
        case V6 => HostGrows(h)
        case ZoneStart => HostGrows(h)
        case Zone => HostGrows(h)
        case V6End => h.host.len > 0 && Before(h.userinfo, h.host.off) && h.port.None?
        case PortStart => h.host.len > 0 && Before(h.userinfo, h.host.off) && h.port.None?
        case PortDigits => h.host.len > 0 && Before(h.userinfo, h.host.off) && h.port.Some?
            && End(h.port.value) == h.pos
        case HostDead => false)
  }

  ghost predicate HostGrows(h: HostScan) {
    h.host.len > 0 && End(h.host) == h.pos && Before(h.userinfo, h.host.off) && h.port.None?
  }

  lemma HostByteOk(h: HostScan, ch: Byte, start: nat)
    requires HostOk(h, start) && HostByte(h, ch).hs != HostDead
    ensures HostOk(HostByte(h, ch), start)
  {
    hide IsHostChar, IsUserinfoChar, IsHex, IsZoneChar, IsNum;
  }

  lemma {:induction false} HostAllOk(h: HostScan, buf: Bytes, start: nat)
    requires HostOk(h, start)
    ensures HostAll(h, buf).hs != HostDead ==> HostOk(HostAll(h, buf), start) && HostAll(h, buf).pos == h.pos + |buf|
    decreases |buf|
  {
    hide HostOk, ParseHostChar;
    if buf != [] && h.hs != HostDead {
      var h1 := HostByte(h, buf[0]);
      if h1.hs != HostDead {
        HostByteOk(h, buf[0], start);
        HostAllOk(h1, buf[1..], start);
      }
    }
  }

  /** User information, host and port lie one behind the other within the area they are searched in. */
  lemma HostInBounds(off: nat, foundAt: bool, area: Bytes)
    ensures var h := HostAll(HostStartScan(off, foundAt), area);
            HostMayEnd(h.hs) ==> HostOk(h, off) && h.pos == off + |area|
                                 && (h.port.Some? ==> End(h.port.value) <= off + |area|)
  {
    HostAllOk(HostStartScan(off, foundAt), area, off);
  }

  // ---------- numbers

  function Number(ds: Bytes): nat
    requires forall i :: 0 <= i < |ds| ==> IsNum(ds[i])
  {
    if ds == [] then 0 else Number(ds[..|ds| - 1]) * 10 + Digit(ds[|ds| - 1])
  }

  function LeadingDigits(s: Bytes): (n: nat)
    ensures n <= |s| && (forall i :: 0 <= i < n ==> IsNum(s[i])) && (n < |s| ==> !IsNum(s[n]))
  {
    if s == [] || !IsNum(s[0]) then 0 else 1 + LeadingDigits(s[1..])
  }

  // strtoul: the value of the digits a string begins with.
  function Strtoul(s: Bytes): nat { Number(s[..LeadingDigits(s)]) }

  // ---------- the whole parse

  datatype Url = Url(parts: map<Field, Span>, port: nat)

  /** The parse of a URL, None for a rejected one. `after` is what follows the URL in memory: a port at
      the end of the URL is converted by a function that does not know where the URL ends. */
  function ParseUrl(buf: Bytes, isConnect: bool, after: Bytes): Option<Url> {
    var u := ScanAll(ScanStart(isConnect), buf);
    if u.s == Dead || (Schema in u.parts && Host !in u.parts) then None
    else if Host !in u.parts then (if isConnect then None else Some(Url(u.parts, 0)))
    else
      ScanInBounds(buf, isConnect);
      var area := u.parts[Host];
      var h := HostAll(HostStartScan(area.off, u.foundAt), buf[area.off..End(area)]);
      if !HostMayEnd(h.hs) then None else
      var parts := WithHost(u.parts, h);
      if isConnect && parts.Keys != {Host, Port} then None
      else if h.port.Some? then
        HostInBounds(area.off, u.foundAt, buf[area.off..End(area)]);
        var v := Strtoul((buf + after)[h.port.value.off..]);
        if v > 0xffff then None else Some(Url(parts, v))
      else Some(Url(parts, 0))
  }

  /** In an accepted URL the parts are nonempty, lie within the URL, and follow one another in the order
      scheme, user information, host, port, path, query, fragment. */
  lemma PartsInOrder(buf: Bytes, isConnect: bool, after: Bytes)
    requires ParseUrl(buf, isConnect, after).Some?
    ensures var parts := ParseUrl(buf, isConnect, after).value.parts;
            Ordered(parts) && forall f :: f in parts ==> End(parts[f]) <= |buf|
  {
    hide ScanAll, HostAll, Strtoul, Ordered, HostOk, WithHost;
    var u := ScanAll(ScanStart(isConnect), buf);
    ScanInBounds(buf, isConnect);
    if Host in u.parts {
      var area := u.parts[Host];
      var h := HostAll(HostStartScan(area.off, u.foundAt), buf[area.off..End(area)]);
      HostInBounds(area.off, u.foundAt, buf[area.off..End(area)]);
      WithHostOrdered(u.parts, h, |buf|);
    }
  }

  // The three parts of the area lie in it, in order.
  lemma AreaParts(area: Span, h: HostScan)
    requires HostMayEnd(h.hs) && HostOk(h, area.off) && h.pos == End(area)
    ensures area.off <= h.host.off && End(h.host) <= End(area) && h.host.len > 0
    ensures h.userinfo.Some? ==>
              h.userinfo.value.len > 0 && area.off <= h.userinfo.value.off && End(h.userinfo.value) <= h.host.off
    ensures h.port.Some? ==> h.port.value.len > 0 && End(h.host) <= h.port.value.off && End(h.port.value) <= End(area)
  {
  }

  predicate InArea(f: Field) { f == Userinfo || f == Host || f == Port }

  lemma WithHostParts(parts: map<Field, Span>, h: HostScan)
    requires Userinfo !in parts && Port !in parts
    ensures var q := WithHost(parts, h);
            && Host in q && q[Host] == h.host
            && (Userinfo in q <==> h.userinfo.Some?) && (Userinfo in q ==> q[Userinfo] == h.userinfo.value)
            && (Port in q <==> h.port.Some?) && (Port in q ==> q[Port] == h.port.value)
            && (forall f :: !InArea(f) ==> (f in q <==> f in parts))
            && (forall f :: f in q && !InArea(f) ==> q[f] == parts[f])
  {
  }

  lemma WithHostOrdered(parts: map<Field, Span>, h: HostScan, n: nat)
    requires Ordered(parts) && Host in parts && Userinfo !in parts && Port !in parts
    requires forall f :: f in parts ==> End(parts[f]) <= n
    requires HostMayEnd(h.hs) && HostOk(h, parts[Host].off) && h.pos == End(parts[Host])
    ensures Ordered(WithHost(parts, h)) && forall f :: f in WithHost(parts, h) ==> End(WithHost(parts, h)[f]) <= n
  {
    hide HostOk, WithHost;
    var area, q := parts[Host], WithHost(parts, h);
    AreaParts(area, h);
    WithHostParts(parts, h);
    forall f, g | f in q && g in q && Rank(f) < Rank(g)
      ensures End(q[f]) <= q[g].off
    {
      PairOrdered(parts, h, f, g);
    }
  }

  lemma PairOrdered(parts: map<Field, Span>, h: HostScan, f: Field, g: Field)
    requires Ordered(parts) && Host in parts && Userinfo !in parts && Port !in parts
    requires HostMayEnd(h.hs) && HostOk(h, parts[Host].off) && h.pos == End(parts[Host])
    requires f in WithHost(parts, h) && g in WithHost(parts, h) && Rank(f) < Rank(g)
    ensures End(WithHost(parts, h)[f]) <= WithHost(parts, h)[g].off
  {
    hide HostOk, WithHost;
    var area := parts[Host];
    AreaParts(area, h);
    WithHostParts(parts, h);
    if InArea(f) && !InArea(g) {
      assert End(area) <= parts[g].off;
    } else if !InArea(f) && InArea(g) {
      assert End(parts[f]) <= area.off;
    }
  }
}
