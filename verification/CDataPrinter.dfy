/** Printing arbitrary text as XML CDATA sections (gtest.cc), and reading it back. */
module CDataPrinter {
  import opened Common

  // ---------- reading (sections 2.4, 2.7 and 4.6 of XML 1.0)

  predicate StartsOpen(s: string) { |s| >= 9 && s[0] == '<' && s[..9] == "<![CDATA[" }

  predicate StartsClose(s: string) { |s| >= 3 && s[0] == ']' && s[1] == ']' && s[2] == '>' }

  predicate StartsGreater(s: string) { |s| >= 4 && s[0] == '&' && s[..4] == "&gt;" }

  // The text that element content stands for; None if it is not well-formed, or has other markup in it.
  function Content(s: string): Option<string>
    decreases |s|
  {
    if s == "" then Some("")
    else if StartsOpen(s) then Section(s[9..])
    else if StartsGreater(s) then Prepend(">", Content(s[4..]))
    else if s[0] == '<' || s[0] == '&' || StartsClose(s) then None
    else Prepend([s[0]], Content(s[1..]))
  }

  // The same from inside a CDATA section.
  function Section(s: string): Option<string>
    decreases |s|
  {
    if s == "" then None
    else if StartsClose(s) then Content(s[3..])
    else Prepend([s[0]], Section(s[1..]))
  }

  function Prepend(s: string, t: Option<string>): Option<string> {
    if t.Some? then Some(s + t.value) else None
  }

  lemma PrependTwice(a: string, b: string, t: Option<string>)
    ensures Prepend(a, Prepend(b, t)) == Prepend(a + b, t)
  {
    assert t.Some? ==> a + (b + t.value) == a + b + t.value;
  }

  lemma PrependNothing(t: Option<string>)
    ensures Prepend("", t) == t
  {
    assert t.Some? ==> "" + t.value == t.value;
  }

  lemma ContentChar(c: char, s: string)
    requires c != '<' && c != '&' && !StartsClose([c] + s)
    ensures Content([c] + s) == Prepend([c], Content(s))
  {
    var t := [c] + s;
    assert t[0] == c && t[1..] == s;
  }

  lemma ContentMarks(s: string)
    ensures Content("<![CDATA[" + s) == Section(s)
    ensures Content("&gt;" + s) == Prepend(">", Content(s))
    ensures Section("]]>" + s) == Content(s)
  {
    var t, u, v := "<![CDATA[" + s, "&gt;" + s, "]]>" + s;
    assert t[..9] == "<![CDATA[" && t[9..] == s;
    assert u[..4] == "&gt;" && u[4..] == s;
    assert v[0] == ']' && v[1] == ']' && v[2] == '>' && v[3..] == s;
  }

  // ---------- printing

  // No end mark begins between the two places.
  ghost predicate NoClose(s: string, from: nat, to: nat) {
    forall j :: from <= j < to && j <= |s| ==> !StartsClose(s[j..])
  }

  // The place of the first end mark, or the end.
  function CloseAt(s: string): (k: nat)
    ensures k <= |s| && (k < |s| ==> StartsClose(s[k..])) && NoClose(s, 0, k)
  {
    if s == "" || StartsClose(s) then 0 else
      assert s[0..] == s;
      assert forall j :: 1 <= j <= |s| ==> s[1..][j - 1..] == s[j..];
      1 + CloseAt(s[1..])
  }

  const SPELT_OUT := "]]>]]&gt;<![CDATA["

  // An end mark, the end mark in two halves, and an opening mark.
  lemma SpeltOut(rest: string)
    ensures SPELT_OUT + rest == "]]>" + ("]" + ("]" + ("&gt;" + ("<![CDATA[" + rest))))
  {
    assert SPELT_OUT == "]]>" + ("]" + ("]" + ("&gt;" + "<![CDATA[")));
    Regroup("]]>", "]", "&gt;", "<![CDATA[", rest);
  }

  lemma Regroup(a: string, b: string, c: string, d: string, rest: string)
    ensures a + (b + (b + (c + d))) + rest == a + (b + (b + (c + (d + rest))))
  {
  }

  // Every end mark closes the section, is spelt out in two halves, and another section is opened.
  function Escaped(s: string): string
    decreases |s|
  {
    var k := CloseAt(s);
    if k == |s| then s else s[..k] + SPELT_OUT + Escaped(s[k + 3..])
  }

  function Printed(data: string): string { "<![CDATA[" + Escaped(data) + "]]>" }

  // Up to its first end mark, a section stands for itself, also when it ends in brackets.
  lemma {:induction false} PlainReads(s: string, k: nat, tail: string)
    requires k <= CloseAt(s)
    ensures Section(s[..k] + ("]]>" + tail)) == Prepend(s[..k], Content(tail))
  {
    hide Content;
    var t := s[..k] + ("]]>" + tail);
    if k == 0 {
      assert t == "]]>" + tail && t[3..] == tail;
      assert s[..0] == "";
      PrependNothing(Content(tail));
    } else {
      PlainReads(s[1..], k - 1, tail);
      NoEarlyClose(s, k, tail);
      assert t[1..] == s[1..][..k - 1] + ("]]>" + tail);
      assert [s[0]] + s[1..][..k - 1] == s[..k];
      PrependTwice([s[0]], s[1..][..k - 1], Content(tail));
    }
  }

  lemma NoEarlyClose(s: string, k: nat, tail: string)
    requires 0 < k <= CloseAt(s)
    ensures !StartsClose(s[..k] + ("]]>" + tail))
  {
    var t := s[..k] + ("]]>" + tail);
    assert t[2] == if k > 2 then s[2] else if k == 2 then ']' else ']';
    assert k > 2 ==> t[0] == s[0] && t[1] == s[1];
  }

  lemma SpeltOutReads(rest: string)
    ensures Content("]" + ("]" + ("&gt;" + ("<![CDATA[" + rest)))) == Prepend("]]>", Section(rest))
  {
    hide Content, Section;
    var d := "<![CDATA[" + rest;
    var c := "&gt;" + d;
    var b := [']'] + c;
    assert c[0] == '&' && b[1] == '&' && ([']'] + b)[2] == '&';
    ContentChar(']', b);
    ContentChar(']', c);
    ContentMarks(d);
    ContentMarks(rest);
    PrependTwice("]", ">", Section(rest));
    PrependTwice("]", "]" + ">", Section(rest));
    assert "]" + ("]" + ">") == "]]>";
  }

  lemma EscapedSplit(s: string)
    ensures var k := CloseAt(s);
            if k == |s| then Escaped(s) == s
            else k + 3 <= |s| && Escaped(s) + "]]>" == s[..k] + (SPELT_OUT + (Escaped(s[k + 3..]) + "]]>"))
                 && s == s[..k] + "]]>" + s[k + 3..]
  {
    hide SPELT_OUT, CloseAt;
    var k := CloseAt(s);
    if k < |s| {
      CloseSplit(s, k);
      Join(s[..k], SPELT_OUT, Escaped(s[k + 3..]), "]]>");
    }
  }

  lemma CloseSplit(s: string, k: nat)
    requires k <= |s| && StartsClose(s[k..])
    ensures k + 3 <= |s| && s == s[..k] + "]]>" + s[k + 3..]
  {
    assert s[k..] == "]]>" + s[k + 3..];
  }

  lemma Join(a: string, b: string, c: string, d: string)
    ensures a + b + c + d == a + (b + (c + d))
  {
  }

  lemma {:induction false} EscapedReads(s: string)
    ensures Section(Escaped(s) + "]]>") == Some(s)
    decreases |s|
  {
    hide Content, Section, CloseAt, SPELT_OUT, Escaped;
    EscapedSplit(s);
    var k := CloseAt(s);
    if k == |s| {
      assert s[..k] == s && "]]>" + "" == "]]>";
      PlainReads(s, k, "");
      NothingReads();
      assert s + "" == s;
    } else {
      var rest := s[k + 3..];
      var after := Escaped(rest) + "]]>";
      EscapedReads(rest);
      SpeltOutReads(after);
      PlainReads(s, k, "]" + ("]" + ("&gt;" + ("<![CDATA[" + after))));
      SpeltOut(after);
      PrependTwice(s[..k], "]]>", Section(after));
    }
  }

  lemma NothingReads()
    ensures Content("") == Some("")
  {
  }

  /** What is printed is well-formed and reads back as the data. */
  lemma RoundTrip(data: string)
    ensures Content(Printed(data)) == Some(data)
  {
    hide Content, Section, Escaped;
    EscapedReads(data);
    ContentMarks(Escaped(data) + "]]>");
    assert Printed(data) == "<![CDATA[" + (Escaped(data) + "]]>");
  }

  lemma CloseAtStep(s: string, i: nat)
    requires i < |s|
    ensures CloseAt(s[i..]) == if i + 3 <= |s| && s[i] == ']' && s[i + 1] == ']' && s[i + 2] == '>' then 0
                               else 1 + CloseAt(s[i + 1..])
  {
    assert s[i..][1..] == s[i + 1..];
  }

  // No end mark begins in front of the first one.
  lemma FirstClose(s: string, from: nat)
    requires from <= |s|
    ensures var k := from + CloseAt(s[from..]);
            k <= |s| && (k < |s| ==> StartsClose(s[k..])) && NoClose(s, from, k)
  {
    hide CloseAt;
    assert forall j :: from <= j <= |s| ==> s[from..][j - from..] == s[j..];
  }

  // strstr(s + from, "]]>"): the first end mark.
  method FindClose(s: string, from: nat) returns (at: Option<nat>)
    requires from <= |s|
    ensures var k := from + CloseAt(s[from..]); at == if k == |s| then None else Some(k)
    ensures at.Some? ==> from <= at.value < |s| && StartsClose(s[at.value..])
    ensures NoClose(s, from, if at.Some? then at.value else |s|)
  {
    hide CloseAt, NoClose;
    FirstClose(s, from);
    var i := from;
    while i < |s|
      invariant from <= i <= |s| && CloseAt(s[from..]) == i - from + CloseAt(s[i..])
      decreases |s| - i
    {
      CloseAtStep(s, i);
      if i + 3 <= |s| && s[i] == ']' && s[i + 1] == ']' && s[i + 2] == '>' {
        return Some(i);
      }
      i := i + 1;
    }
    return None;
  }

  method OutputXmlCDataSection(data: string) returns (stream: string)
    ensures stream == Printed(data) && Content(stream) == Some(data)
  {
    hide Content, Section, CloseAt, NoClose, StartsClose;
    RoundTrip(data);
    var segment := 0;
    stream := "<![CDATA[";
    assert data[0..] == data;
    while true
      invariant 0 <= segment <= |data|
      invariant stream + Escaped(data[segment..]) == "<![CDATA[" + Escaped(data)
      decreases |data| - segment
    {
      var nextSegment := FindClose(data, segment);
      if nextSegment.Some? {
        EscapedStep(data, segment, nextSegment.value, stream);
        stream := stream + data[segment..nextSegment.value];
        stream := stream + "]]>]]&gt;<![CDATA[";
        segment := nextSegment.value + 3;
      } else {
        stream := stream + data[segment..];
        break;
      }
    }
    stream := stream + "]]>";
  }

  lemma EscapedStep(data: string, segment: nat, next: nat, stream: string)
    requires segment <= next < |data| && next == segment + CloseAt(data[segment..])
    ensures next + 3 <= |data|
    ensures stream + Escaped(data[segment..])
            == stream + data[segment..next] + "]]>]]&gt;<![CDATA[" + Escaped(data[next + 3..])
  {
    hide CloseAt, StartsClose;
    var rest, k := data[segment..], next - segment;
    CloseSplit(rest, k);
    assert rest[..k] == data[segment..next];
    assert rest[k + 3..] == data[next + 3..];
    JoinFour(stream, rest[..k], SPELT_OUT, Escaped(rest[k + 3..]));
  }

  lemma JoinFour(a: string, b: string, c: string, d: string)
    ensures a + (b + c + d) == a + b + c + d
  {
  }
}
