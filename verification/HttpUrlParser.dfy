/** The loops of http_parser_parse_url and http_parse_host, which fill in a result structure. */
module HttpUrlParser {
  import opened Common
  import opened HttpTypes
  import opened HttpDispatch
  import opened HttpUrl

  // Offsets and lengths are 16 bits wide.
  const MAX_URL: nat := 65535

  class HttpParserUrl {
    var fieldSet: set<Field>
    var port: nat
    var fieldData: map<Field, Span>   // entries count for the fields in fieldSet only

    ghost predicate Valid()
      reads this
    {
      fieldSet <= fieldData.Keys
    }

    // The fields that are set.
    ghost function Parts(): map<Field, Span>
      requires Valid()
      reads this
    {
      map f | f in fieldSet :: fieldData[f]
    }

    constructor ()
      ensures Valid()
    {
      fieldSet, port, fieldData := {}, 0, map[];
    }

    method SetField(f: Field, sp: Span)
      requires Valid()
      modifies this`fieldSet, this`fieldData
      ensures Valid() && Parts() == old(Parts())[f := sp]
      ensures fieldSet == old(fieldSet) + {f}
    {
      fieldData := fieldData[f := sp];
      fieldSet := fieldSet + {f};
    }

    // Counts byte p, which has led from state s to s', to the part it belongs to.
    method RecordHostByte(s: HostState, s': HostState, p: nat, ghost ch: Byte, ghost parts: map<Field, Span>,
        ghost h: HostScan, ghost off: nat)
      requires Valid() && Host in fieldSet && Parts() == WithHost(parts, h) && Userinfo !in parts && Port !in parts
      requires h.hs == s && s' == ParseHostChar(s, ch) != HostDead && h.pos == p && HostOk(h, off)
      modifies this`fieldSet, this`fieldData
      ensures Valid() && Host in fieldSet && Parts() == WithHost(parts, HostByte(h, ch))
    {
      hide ParseHostChar, WithHost, HostOk;
      WithHostByte(parts, h, ch, off);
      match s' {
        case HostChars =>
          SetField(Host, Span(if s != HostChars then p else fieldData[Host].off, fieldData[Host].len + 1));
        case V6 =>
          SetField(Host, Span(if s != V6 then p else fieldData[Host].off, fieldData[Host].len + 1));
        case ZoneStart => SetField(Host, Longer(fieldData[Host]));
        case Zone => SetField(Host, Longer(fieldData[Host]));
        case PortDigits => SetField(Port, if s != PortDigits then Span(p, 1) else Longer(fieldData[Port]));
        case UserinfoChars =>
          SetField(Userinfo, if s != UserinfoChars then Span(p, 1) else Longer(fieldData[Userinfo]));
        case _ =>
      }
    }

    // http_parse_host: cuts the area recorded as host into user information, host and port.
    method ParseHost(buf: Bytes, foundAt: bool) returns (rc: int)
      requires Valid() && Host in fieldSet && End(fieldData[Host]) <= |buf|
      requires Userinfo !in fieldSet && Port !in fieldSet
      modifies this`fieldSet, this`fieldData
      ensures Valid()
      ensures var area := old(fieldData[Host]);
              var h := HostAll(HostStartScan(area.off, foundAt), buf[area.off..End(area)]);
              && (rc == 0 <==> HostMayEnd(h.hs))
              && (rc == 0 ==> Parts() == WithHost(old(Parts()), h))
    {
      hide ParseHostChar, WithHost, HostOk, HostAll;
      ghost var area, parts := fieldData[Host], Parts();
      ghost var text := buf[area.off..End(area)];
      ghost var h0 := HostStartScan(area.off, foundAt);
      ghost var h := h0;
      var off, buflen := fieldData[Host].off, End(fieldData[Host]);
      SetField(Host, Span(off, 0));
      var s := if foundAt then UserinfoStart else HostStart;
      HostBegins(parts, h0, text);
      var p := off;
      while p < buflen
        invariant off <= p <= buflen && Valid()
        invariant h == HostAll(h0, text[..p - off]) && h.hs == s != HostDead && h.pos == p && HostOk(h, off)
        invariant Parts() == WithHost(parts, h) && Host in fieldSet
      {
        var ch := buf[p];
        var s' := ParseHostChar(s, ch);
        HostContinues(h0, text, p - off);
        if s' == HostDead {
          return 1;
        }
        HostByteOk(h, ch, off);
        RecordHostByte(s, s', p, ch, parts, h, off);
        h := HostByte(h, ch);
        s := s';
        p := p + 1;
      }
      assert text[..buflen - off] == text;
      rc := if HostMayEnd(s) then 0 else 1;
    }

    // Counts byte p to part uf, which it begins unless the byte before was of that part, too.
    method CountByte(uf: Field, last: Option<Field>, p: nat)
      requires Valid() && (last.Some? ==> last.value in fieldSet)
      modifies this`fieldSet, this`fieldData
      ensures Valid() && Parts() == Extend(old(Parts()), last, uf, p) && fieldSet == old(fieldSet) + {uf}
    {
      if last == Some(uf) {
        SetField(uf, Longer(fieldData[uf]));
      } else {
        SetField(uf, Span(p, 1));
      }
    }

    lemma NoParts()
      requires Valid() && fieldSet == {}
      ensures Parts() == map[]
    {
    }

    // The first loop of http_parser_parse_url: which part each byte belongs to.
    method ScanUrl(buf: Bytes, isConnect: bool) returns (ok: bool, foundAt: bool)
      modifies this
      ensures Valid() && port == 0
      ensures var u := ScanAll(ScanStart(isConnect), buf);
              (ok <==> u.s != Dead) && (ok ==> Parts() == u.parts && foundAt == u.foundAt)
    {
      hide ParseUrlChar, ScanAll, FieldOf, Extend, HttpParserUrl.Parts;
      port, fieldSet := 0, {};
      var s := if isConnect then ReqServerStart else ReqSpacesBeforeUrl;
      var last: Option<Field> := None;
      foundAt := false;
      ghost var u0 := ScanStart(isConnect);
      ScanBegins(u0, buf);
      NoParts();
      var p := 0;
      while p < |buf|
        invariant 0 <= p <= |buf| && Valid() && s != Dead && port == 0
        invariant last.Some? ==> last.value in fieldSet
        invariant ScanAll(u0, buf[..p]) == Scan(s, p, last, foundAt, Parts())
      {
        ScanContinues(u0, buf, p);
        s := ParseUrlChar(s, buf[p]);
        if s == Dead {
          return false, foundAt;
        }
        if s == ReqServerWithAt {
          foundAt := true;
        }
        var uf := FieldOf(s);
        if uf.Some? {
          CountByte(uf.value, last, p);
          last := uf;
        }
        p := p + 1;
      }
      assert buf[..p] == buf;
      ok := true;
    }

    /** http_parser_parse_url: 0 for an accepted URL, whose parts and port are then in the structure. */
    method Parse(buf: Bytes, isConnect: bool, after: Bytes) returns (rc: int)
      requires |buf| <= MAX_URL
      modifies this
      ensures rc == 0 <==> ParseUrl(buf, isConnect, after).Some?
      ensures rc == 0 ==> Valid() && Url(Parts(), port) == ParseUrl(buf, isConnect, after).value
    {
      hide ScanAll, HostAll, WithHost, HostOk, Strtoul;
      var ok, foundAt := ScanUrl(buf, isConnect);
      if !ok {
        return 1;
      }
      ScanInBounds(buf, isConnect);
      ghost var parts := Parts();
      assert Host in fieldSet <==> Host in parts;
      assert Schema in fieldSet <==> Schema in parts;
      assert Userinfo !in parts && Port !in parts;
      if Schema in fieldSet && Host !in fieldSet {
        return 1;
      }
      if Host in fieldSet {
        ghost var area := fieldData[Host];
        assert area == parts[Host];
        rc := ParseHost(buf, foundAt);
        if rc != 0 {
          return;
        }
        WithHostParts(parts, HostAll(HostStartScan(area.off, foundAt), buf[area.off..End(area)]));
        HostInBounds(area.off, foundAt, buf[area.off..End(area)]);
        assert fieldSet == Parts().Keys;
      }
      if isConnect && fieldSet != {Host, Port} {
        return 1;
      }
      if Port in fieldSet {
        assert Parts()[Port] == fieldData[Port];
        var v := Strtoul((buf + after)[fieldData[Port].off..]);
        if v > 0xffff {
          return 1;
        }
        port := v;
      }
      return 0;
    }
  }

  lemma ScanBegins(u: Scan, buf: Bytes)
    ensures ScanAll(u, buf[..0]) == u
  {
  }

  /** The scan one byte on; once dead it stays so. */
  lemma ScanContinues(u: Scan, buf: Bytes, p: nat)
    requires p < |buf| && ScanAll(u, buf[..p]).s != Dead
    ensures ScanAll(u, buf[..p + 1]) == ScanByte(ScanAll(u, buf[..p]), buf[p])
    ensures ScanAll(u, buf[..p + 1]).s == Dead ==> ScanAll(u, buf).s == Dead
  {
    hide ParseUrlChar;
    assert buf[..p + 1] == buf[..p] + [buf[p]];
    ScanAppend(u, buf[..p], [buf[p]]);
    var u1 := ScanAll(u, buf[..p]);
    assert [buf[p]][1..] == [];
    assert ScanAll(u1, [buf[p]]) == ScanAll(ScanByte(u1, buf[p]), []);
    assert buf == buf[..p + 1] + buf[p + 1..];
    ScanAppend(u, buf[..p + 1], buf[p + 1..]);
  }

  lemma HostBegins(parts: map<Field, Span>, h: HostScan, text: Bytes)
    requires h.userinfo.None? && h.port.None?
    ensures HostAll(h, text[..0]) == h && WithHost(parts, h) == parts[Host := h.host]
    ensures h.host == Span(h.pos, 0) && (h.hs == UserinfoStart || h.hs == HostStart) ==> HostOk(h, h.pos)
  {
  }

  lemma HostContinues(h: HostScan, text: Bytes, p: nat)
    requires p < |text| && HostAll(h, text[..p]).hs != HostDead
    ensures HostAll(h, text[..p + 1]) == HostByte(HostAll(h, text[..p]), text[p])
    ensures HostAll(h, text[..p + 1]).hs == HostDead ==> HostAll(h, text).hs == HostDead
  {
    hide ParseHostChar;
    assert text[..p + 1] == text[..p] + [text[p]];
    HostAppend(h, text[..p], [text[p]]);
    var h1 := HostAll(h, text[..p]);
    assert [text[p]][1..] == [];
    assert HostAll(h1, [text[p]]) == HostAll(HostByte(h1, text[p]), []);
    assert text == text[..p + 1] + text[p + 1..];
    HostAppend(h, text[..p + 1], text[p + 1..]);
  }

  /** What one more byte does to the recorded parts. */
  lemma WithHostByte(parts: map<Field, Span>, h: HostScan, ch: Byte, start: nat)
    requires HostOk(h, start) && Userinfo !in parts && Port !in parts
    ensures var h', q := HostByte(h, ch), WithHost(parts, h);
            WithHost(parts, h') ==
            match h'.hs
            case HostChars => q[Host := Span(if h.hs != HostChars then h.pos else q[Host].off, q[Host].len + 1)]
            case V6 => q[Host := Span(if h.hs != V6 then h.pos else q[Host].off, q[Host].len + 1)]
            case ZoneStart => q[Host := Longer(q[Host])]
            case Zone => q[Host := Longer(q[Host])]
            case PortDigits => q[Port := if h.hs != PortDigits then Span(h.pos, 1) else Longer(q[Port])]
            case UserinfoChars => q[Userinfo := if h.hs != UserinfoChars then Span(h.pos, 1) else Longer(q[Userinfo])]
            case _ => q
    ensures Host in WithHost(parts, h)
    ensures h.hs == PortDigits ==> Port in WithHost(parts, h)
    ensures h.hs == UserinfoChars ==> Userinfo in WithHost(parts, h)
  {
    hide ParseHostChar;
  }
}
