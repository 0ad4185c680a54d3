/** Google Test's own regular expressions: validation and matching (gtest-port.cc). */
module SimpleRegex {
  import opened Common

  // C strings: the terminating '\0' is not part of the sequence, and no character is '\0'.
  type CString = s: string | '\0' !in s

  const SIZE_MAX: nat := 0xFFFF_FFFF_FFFF_FFFF

  // A read through a C string: up to and including the terminator.
  function CharAt(s: string, i: nat): char
    requires i <= |s|
  {
    if i < |s| then s[i] else '\0'
  }

  // ---------- character classes

  predicate IsInSet(ch: char, str: string) { ch != '\0' && ch in str }

  predicate IsAsciiDigit(ch: char) { '0' <= ch <= '9' }

  predicate IsAsciiPunct(ch: char) { IsInSet(ch, "^-!\"#$%&'()*+,./:;<=>?@[\\]_`{|}~") }

  predicate IsRepeat(ch: char) { IsInSet(ch, "?*+") }

  predicate IsAsciiWhiteSpace(ch: char) { IsInSet(ch, " \U{0C}\n\r\t\U{0B}") }

  predicate IsAsciiWordChar(ch: char) { 'a' <= ch <= 'z' || 'A' <= ch <= 'Z' || '0' <= ch <= '9' || ch == '_' }

  predicate IsValidEscape(c: char) { IsAsciiPunct(c) || IsInSet(c, "dDfnrsStvwW") }

  predicate AtomMatchesChar(escaped: bool, patternChar: char, ch: char) {
    if !escaped then
      (patternChar == '.' && ch != '\n') || patternChar == ch
    else
      match patternChar
      case 'd' => IsAsciiDigit(ch)
      case 'D' => !IsAsciiDigit(ch)
      case 'f' => ch == '\U{0C}'
      case 'n' => ch == '\n'
      case 'r' => ch == '\r'
      case 's' => IsAsciiWhiteSpace(ch)
      case 'S' => !IsAsciiWhiteSpace(ch)
      case 't' => ch == '\t'
      case 'v' => ch == '\U{0B}'
      case 'w' => IsAsciiWordChar(ch)
      case 'W' => !IsAsciiWordChar(ch)
      case _ => IsAsciiPunct(patternChar) && patternChar == ch
  }

  // The escapes for form feed, line feed, carriage return and the two tabs.
  const CONTROLS: map<char, char> := map['f' := '\U{0C}', 'n' := '\n', 'r' := '\r', 't' := '\t', 'v' := '\U{0B}']

  /** What the atoms stand for: the upper-case escapes the opposite of the lower-case ones, a point every
      character but the line feed, every other atom itself. */
  lemma AtomClasses(c: char, ch: char)
    ensures AtomMatchesChar(true, 'd', ch) <==> ch in "0123456789"
    ensures AtomMatchesChar(true, 'D', ch) <==> !AtomMatchesChar(true, 'd', ch)
    ensures AtomMatchesChar(true, 'S', ch) <==> !AtomMatchesChar(true, 's', ch)
    ensures AtomMatchesChar(true, 'W', ch) <==> !AtomMatchesChar(true, 'w', ch)
    ensures AtomMatchesChar(true, 'w', ch) <==>
              ch == '_' || AtomMatchesChar(true, 'd', ch) || 'a' <= ch <= 'z' || 'A' <= ch <= 'Z'
    ensures AtomMatchesChar(true, 's', ch) <==> ch == ' ' || '\t' <= ch <= '\r'
    ensures forall e :: e in CONTROLS ==> (AtomMatchesChar(true, e, ch) <==> ch == CONTROLS[e])
    ensures AtomMatchesChar(false, '.', ch) <==> ch != '\n'
    ensures c != '.' ==> (AtomMatchesChar(false, c, ch) <==> ch == c)
    ensures IsAsciiPunct(c) ==> (AtomMatchesChar(true, c, ch) <==> ch == c)
  {
    PunctNoLetter(c);
    SpaceClass(ch);
    DigitClass(ch);
  }

  lemma PunctNoLetter(c: char)
    ensures IsAsciiPunct(c) ==> c !in {'d', 'D', 'f', 'n', 'r', 's', 'S', 't', 'v', 'w', 'W'}
  {
  }

  lemma SpaceClass(ch: char)
    ensures IsAsciiWhiteSpace(ch) <==> ch == ' ' || '\t' <= ch <= '\r'
  {
  }

  lemma DigitClass(ch: char)
    ensures IsAsciiDigit(ch) <==> ch in "0123456789"
  {
  }

  // ---------- what a regular expression is and means

  datatype Repeat = Once | Optional | Star | Plus

  // An atom and how often it may occur.
  datatype Item = Item(escaped: bool, c: char, repeat: Repeat) {
    predicate WellFormed() {
      c != '\0' && if escaped then IsValidEscape(c) else c != '\\' && !IsInSet(c, "^$()[]{}|?*+")
    }
  }

  datatype Regex = Regex(fromStart: bool, items: seq<Item>, toEnd: bool) {
    predicate WellFormed() { AllWellFormed(items) }
  }

  predicate AllWellFormed(items: seq<Item>) { forall k :: 0 <= k < |items| ==> items[k].WellFormed() }

  predicate Allows(repeat: Repeat, n: nat) {
    match repeat
    case Once => n == 1
    case Optional => n <= 1
    case Star => true
    case Plus => n >= 1
  }

  // The first n characters of s are an occurrence of the item.
  predicate Takes(item: Item, n: nat, s: string) {
    n <= |s| && Allows(item.repeat, n) && forall k :: 0 <= k < n ==> AtomMatchesChar(item.escaped, item.c, s[k])
  }

  ghost predicate InLanguage(items: seq<Item>, s: string) {
    if items == [] then s == [] else exists n: nat :: Takes(items[0], n, s) && InLanguage(items[1..], s[n..])
  }

  // Some substring is in the language, at the ends the regular expression asks for.
  ghost predicate Matches(r: Regex, s: string) {
    exists i, j :: 0 <= i <= j <= |s| && (r.fromStart ==> i == 0) && (r.toEnd ==> j == |s|)
        && InLanguage(r.items, s[i..j])
  }

  ghost predicate MatchesHead(items: seq<Item>, toEnd: bool, s: string) {
    exists j :: 0 <= j <= |s| && (toEnd ==> j == |s|) && InLanguage(items, s[..j])
  }

  // ---------- how it is written

  function RepeatText(repeat: Repeat): string {
    match repeat
    case Once => ""
    case Optional => "?"
    case Star => "*"
    case Plus => "+"
  }

  function RepeatOf(ch: char): Repeat { if ch == '?' then Optional else if ch == '*' then Star else Plus }

  function Text(items: seq<Item>, toEnd: bool): string {
    if items == [] then (if toEnd then "$" else "")
    else (if items[0].escaped then "\\" else "") + [items[0].c] + RepeatText(items[0].repeat) + Text(items[1..], toEnd)
  }

  function Print(r: Regex): string { (if r.fromStart then "^" else "") + Text(r.items, r.toEnd) }

  // A text of items starts with no repetition sign and no '^', and with '$' only at its end.
  lemma {:induction false} TextHead(items: seq<Item>, toEnd: bool)
    requires AllWellFormed(items)
    ensures var t := Text(items, toEnd);
            && '\0' !in t && !IsRepeat(CharAt(t, 0)) && CharAt(t, 0) != '^'
            && (t == "" <==> items == [] && !toEnd) && (CharAt(t, 0) == '$' <==> items == [] && toEnd)
            && (items != [] ==> (CharAt(t, 0) == '\\' <==> items[0].escaped))
  {
    if items != [] {
      TextHead(items[1..], toEnd);
    }
  }

  lemma TextSplit(items: seq<Item>, toEnd: bool)
    requires items != []
    ensures var t, k := Text(items, toEnd), if items[0].escaped then 2 else 1;
            && k <= |t| && t[k - 1] == items[0].c && t[k..] == RepeatText(items[0].repeat) + Text(items[1..], toEnd)
  {
    hide RepeatText;
    var pre, mid, tail := if items[0].escaped then "\\" else "", RepeatText(items[0].repeat), Text(items[1..], toEnd);
    Pieces(pre, items[0].c, mid, tail);
  }

  lemma Pieces(pre: string, c: char, mid: string, tail: string)
    ensures var t := pre + [c] + mid + tail; t[|pre|] == c && t[|pre| + 1..] == mid + tail
  {
  }

  lemma RepeatUnique(a: Repeat, t: string, b: Repeat, u: string)
    requires !IsRepeat(CharAt(t, 0)) && !IsRepeat(CharAt(u, 0)) && RepeatText(a) + t == RepeatText(b) + u
    ensures a == b && t == u
  {
    var s := RepeatText(a) + t;
    assert CharAt(s, 0) == if a == Once then CharAt(t, 0) else RepeatText(a)[0];
    assert CharAt(s, 0) == if b == Once then CharAt(u, 0) else RepeatText(b)[0];
    assert s[|RepeatText(a)|..] == t && s[|RepeatText(b)|..] == u;
  }

  // No text can be read in two ways.
  lemma {:induction false} TextUnique(a: seq<Item>, aEnd: bool, b: seq<Item>, bEnd: bool)
    requires AllWellFormed(a) && AllWellFormed(b) && Text(a, aEnd) == Text(b, bEnd)
    ensures a == b && aEnd == bEnd
  {
    hide IsRepeat, IsInSet, IsValidEscape, RepeatText, Text, Item.WellFormed;
    TextHead(a, aEnd);
    TextHead(b, bEnd);
    if a != [] {
      TextHead(a[1..], aEnd);
      TextHead(b[1..], bEnd);
      TextSplit(a, aEnd);
      TextSplit(b, bEnd);
      RepeatUnique(a[0].repeat, Text(a[1..], aEnd), b[0].repeat, Text(b[1..], bEnd));
      TextUnique(a[1..], aEnd, b[1..], bEnd);
      assert a == [a[0]] + a[1..] && b == [b[0]] + b[1..];
    }
  }

  lemma PrintUnique(q: Regex, r: Regex)
    requires q.WellFormed() && r.WellFormed() && Print(q) == Print(r)
    ensures q == r
  {
    TextHead(q.items, q.toEnd);
    TextHead(r.items, r.toEnd);
    assert CharAt(Print(q), 0) == '^' <==> q.fromStart;
    assert CharAt(Print(r), 0) == '^' <==> r.fromStart;
    var k := if q.fromStart then 1 else 0;
    assert Print(q)[k..] == Text(q.items, q.toEnd) && Print(r)[k..] == Text(r.items, r.toEnd);
    TextUnique(q.items, q.toEnd, r.items, r.toEnd);
  }

  // ---------- validation

  // What the checks say about the rest of a regular expression, read from left to right.
  predicate Accepts(s: string, first: bool, prevRepeatable: bool) {
    if s == "" then true
    else if s[0] == '\\' then |s| > 1 && IsValidEscape(s[1]) && Accepts(s[2..], false, true)
    else
      && !(s[0] == '^' && !first) && !(s[0] == '$' && |s| > 1) && !IsInSet(s[0], "()[]{}|")
      && (IsRepeat(s[0]) ==> prevRepeatable)
      && Accepts(s[1..], false, !IsInSet(s[0], "^$?*+"))
  }

  lemma Signs(ch: char)
    ensures IsRepeat(ch) <==> ch == '?' || ch == '*' || ch == '+'
    ensures IsInSet(ch, "^$?*+") <==> IsRepeat(ch) || ch == '^' || ch == '$'
    ensures IsInSet(ch, "^$()[]{}|?*+") <==> IsInSet(ch, "()[]{}|") || IsInSet(ch, "^$?*+")
    ensures IsInSet(ch, "()[]{}|") ==> !IsInSet(ch, "^$?*+") && ch != '\\'
  {
  }

  lemma AcceptsRepeat(ch: char, rest: string)
    requires IsRepeat(ch)
    ensures Accepts([ch] + rest, false, true) <==> Accepts(rest, false, false)
  {
    hide IsInSet, IsValidEscape, IsRepeat;
    Signs(ch);
    var s := [ch] + rest;
    assert s[0] == ch && s[1..] == rest;
  }

  lemma AcceptsAtom(item: Item, rest: string, first: bool, prevRepeatable: bool)
    requires item.WellFormed()
    ensures Accepts((if item.escaped then "\\" else "") + [item.c] + rest, first, prevRepeatable)
            <==> Accepts(rest, false, true)
  {
    hide IsInSet, IsValidEscape, IsRepeat;
    Signs(item.c);
    var s := (if item.escaped then "\\" else "") + [item.c] + rest;
    if item.escaped {
      assert s[0] == '\\' && s[1] == item.c && s[2..] == rest;
    } else {
      assert s[0] == item.c && s[1..] == rest;
    }
  }

  // The text after an atom (or, with repeat Once, any other text) is accepted.
  lemma {:induction false} AcceptsText(repeat: Repeat, items: seq<Item>, toEnd: bool, prevRepeatable: bool)
    requires AllWellFormed(items) && (repeat != Once ==> prevRepeatable)
    ensures Accepts(RepeatText(repeat) + Text(items, toEnd), false, prevRepeatable)
    decreases |items|, repeat != Once
  {
    hide IsInSet, IsValidEscape, IsRepeat, Item.WellFormed, Accepts;
    var s := RepeatText(repeat) + Text(items, toEnd);
    if repeat != Once {
      AcceptsText(Once, items, toEnd, false);
      Signs(RepeatText(repeat)[0]);
      assert RepeatText(Once) + Text(items, toEnd) == Text(items, toEnd);
      AcceptsRepeat(RepeatText(repeat)[0], Text(items, toEnd));
    } else if items != [] {
      var rest := RepeatText(items[0].repeat) + Text(items[1..], toEnd);
      AcceptsText(items[0].repeat, items[1..], toEnd, true);
      AcceptsAtom(items[0], rest, false, prevRepeatable);
      assert s == (if items[0].escaped then "\\" else "") + [items[0].c] + rest;
    } else {
      DollarAccepted(s, prevRepeatable);
    }
  }

  lemma DollarAccepted(s: string, prevRepeatable: bool)
    requires s == "" || s == "$"
    ensures Accepts(s, false, prevRepeatable)
  {
    Signs('$');
  }

  // The first character of an accepted text, and the rest.
  lemma AcceptedHead(s: CString, prevRepeatable: bool)
    requires Accepts(s, false, prevRepeatable) && s != "" && s != "$"
    ensures IsRepeat(s[0]) ==> prevRepeatable && Accepts(s[1..], false, false)
    ensures !IsRepeat(s[0]) ==>
              var k := if s[0] == '\\' then 1 else 0;
              k < |s| && Item(s[0] == '\\', s[k], Once).WellFormed() && Accepts(s[k + 1..], false, true)
  {
    hide IsInSet, IsValidEscape, IsRepeat;
    Signs(s[0]);
  }

  lemma EmptyText(toEnd: bool)
    ensures RepeatText(Once) + Text([], toEnd) == if toEnd then "$" else ""
  {
  }

  lemma SignText(ch: char, items: seq<Item>, toEnd: bool)
    requires IsRepeat(ch)
    ensures RepeatText(RepeatOf(ch)) + Text(items, toEnd) == [ch] + (RepeatText(Once) + Text(items, toEnd))
  {
  }

  lemma AtomText(item: Item, rest: seq<Item>, toEnd: bool)
    ensures RepeatText(Once) + Text([item] + rest, toEnd)
            == (if item.escaped then "\\" else "") + [item.c] + (RepeatText(item.repeat) + Text(rest, toEnd))
  {
    assert ([item] + rest)[1..] == rest;
  }

  lemma {:induction false} AcceptedText(s: CString, prevRepeatable: bool)
    returns (repeat: Repeat, items: seq<Item>, toEnd: bool)
    requires Accepts(s, false, prevRepeatable)
    ensures AllWellFormed(items) && (repeat != Once ==> prevRepeatable)
    ensures s == RepeatText(repeat) + Text(items, toEnd)
  {
    hide IsInSet, IsValidEscape, IsRepeat, Accepts, RepeatText, Text;
    repeat, items, toEnd := Once, [], false;
    if s == "" || s == "$" {
      toEnd := s == "$";
      EmptyText(toEnd);
    } else {
      AcceptedHead(s, prevRepeatable);
      Signs(s[0]);
      if IsRepeat(s[0]) {
        var r;
        r, items, toEnd := AcceptedText(s[1..], false);
        repeat := RepeatOf(s[0]);
        SignText(s[0], items, toEnd);
        assert s == [s[0]] + s[1..];
      } else {
        var k := if s[0] == '\\' then 1 else 0;
        var r, rest, e := AcceptedText(s[k + 1..], true);
        items, toEnd := [Item(s[0] == '\\', s[k], r)] + rest, e;
        AtomText(items[0], rest, e);
        assert s == s[..k + 1] + s[k + 1..];
      }
    }
  }

  lemma AcceptedIsPrinted(s: CString)
    ensures Accepts(s, true, false) <==> exists r: Regex :: r.WellFormed() && Print(r) == s
  {
    hide Accepts, Text;
    if Accepts(s, true, false) {
      var k := if s != "" && s[0] == '^' then 1 else 0;
      CaretAccepted(s);
      var repeat, items, toEnd := AcceptedText(s[k..], false);
      var r := Regex(k == 1, items, toEnd);
      assert s == s[..k] + s[k..];
      assert r.WellFormed() && Print(r) == s;
    }
    forall r: Regex | r.WellFormed() && Print(r) == s
      ensures Accepts(s, true, false)
    {
      PrintAccepted(r);
    }
  }

  lemma PrintAccepted(r: Regex)
    requires r.WellFormed() && '\0' !in Print(r)
    ensures Accepts(Print(r), true, false)
  {
    hide Accepts, Text;
    AcceptsText(Once, r.items, r.toEnd, false);
    TextHead(r.items, r.toEnd);
    assert RepeatText(Once) + Text(r.items, r.toEnd) == Text(r.items, r.toEnd);
    assert r.fromStart ==> Print(r)[1..] == Text(r.items, r.toEnd);
    CaretAccepted(Print(r));
  }

  // Apart from a '^' in front, the start makes no difference.
  lemma CaretAccepted(s: CString)
    ensures Accepts(s, true, false) <==> Accepts(s[if s != "" && s[0] == '^' then 1 else 0..], false, false)
  {
    hide IsInSet, IsValidEscape, IsRepeat;
    Signs('^');
  }

  /** Accepts exactly the texts of regular expressions. */
  method ValidateRegex(regex: Option<CString>) returns (valid: bool)
    ensures valid <==> regex.Some? && exists r: Regex :: r.WellFormed() && Print(r) == regex.value
  {
    hide IsInSet, IsValidEscape, IsRepeat, Print, Text, Regex.WellFormed;
    if regex.None? {
      return false;
    }
    var text := regex.value;
    AcceptedIsPrinted(text);
    valid := true;
    var prevRepeatable := false;
    var i := 0;
    while CharAt(text, i) != '\0'
      invariant 0 <= i <= |text|
      invariant Accepts(text, true, false) <==> valid && Accepts(text[i..], i == 0, prevRepeatable)
      decreases |text| - i
    {
      ghost var rest := text[i..];
      if text[i] == '\\' {
        i := i + 1;
        if CharAt(text, i) == '\0' {
          return false;
        }
        if !IsValidEscape(text[i]) {
          valid := false;
        }
        prevRepeatable := true;
        assert text[i + 1..] == rest[2..];
      } else {
        var ch := text[i];
        if ch == '^' && i > 0 {
          valid := false;
        } else if ch == '$' && CharAt(text, i + 1) != '\0' {
          valid := false;
        } else if IsInSet(ch, "()[]{}|") {
          valid := false;
        } else if IsRepeat(ch) && !prevRepeatable {
          valid := false;
        }
        prevRepeatable := !IsInSet(ch, "^$?*+");
        assert text[i + 1..] == rest[1..];
      }
      i := i + 1;
    }
  }

  // ---------- matching

  lemma RepeatSign(repeat: Repeat, t: string)
    requires !IsRepeat(CharAt(t, 0))
    ensures var s := RepeatText(repeat) + t;
            if IsRepeat(CharAt(s, 0)) then RepeatOf(s[0]) == repeat && s[1..] == t else repeat == Once && s == t
  {
  }

  lemma HeadSteps(items: seq<Item>, toEnd: bool, s: string, n: nat)
    requires items != [] && Takes(items[0], n, s) && MatchesHead(items[1..], toEnd, s[n..])
    ensures MatchesHead(items, toEnd, s)
  {
    var rest := s[n..];
    var j :| 0 <= j <= |rest| && (toEnd ==> j == |rest|) && InLanguage(items[1..], rest[..j]);
    var t := s[..n + j];
    assert t[n..] == rest[..j];
    assert Takes(items[0], n, t);
    assert InLanguage(items, t);
  }

  lemma HeadStepped(items: seq<Item>, toEnd: bool, s: string) returns (n: nat)
    requires items != [] && MatchesHead(items, toEnd, s)
    ensures Takes(items[0], n, s) && MatchesHead(items[1..], toEnd, s[n..])
  {
    var j :| 0 <= j <= |s| && (toEnd ==> j == |s|) && InLanguage(items, s[..j]);
    var t := s[..j];
    n :| Takes(items[0], n, t) && InLanguage(items[1..], t[n..]);
    SteppedHead(items, toEnd, s, j, n);
  }

  lemma SteppedHead(items: seq<Item>, toEnd: bool, s: string, j: nat, n: nat)
    requires items != [] && j <= |s| && (toEnd ==> j == |s|)
    requires Takes(items[0], n, s[..j]) && InLanguage(items[1..], s[..j][n..])
    ensures Takes(items[0], n, s) && MatchesHead(items[1..], toEnd, s[n..])
  {
    hide InLanguage;
    assert s[n..][..j - n] == s[..j][n..];
    assert forall i :: 0 <= i < n ==> s[..j][i] == s[i];
  }

  // A head match is a match of the first item followed by a head match of the others.
  lemma HeadStep(items: seq<Item>, toEnd: bool, s: string)
    requires items != []
    ensures MatchesHead(items, toEnd, s)
            <==> exists n: nat :: Takes(items[0], n, s) && MatchesHead(items[1..], toEnd, s[n..])
  {
    if n: nat :| Takes(items[0], n, s) && MatchesHead(items[1..], toEnd, s[n..]) {
      HeadSteps(items, toEnd, s, n);
    }
    if MatchesHead(items, toEnd, s) {
      var n := HeadStepped(items, toEnd, s);
    }
  }

  /** Tries every allowed number of occurrences of an atom before the rest of the regular expression. */
  method MatchRepetitionAndRegexAtHead(escaped: bool, c: char, repeat: char, regex: string, str: CString,
                                       ghost items: seq<Item>, ghost toEnd: bool)
    returns (matched: bool)
    requires IsRepeat(repeat) && AllWellFormed(items) && regex == Text(items, toEnd) && |str| < SIZE_MAX
    ensures matched <==> exists n: nat :: Takes(Item(escaped, c, RepeatOf(repeat)), n, str)
                                          && MatchesHead(items, toEnd, str[n..])
    decreases |regex|, 1
  {
    ghost var item := Item(escaped, c, RepeatOf(repeat));
    var minCount := if repeat == '+' then 1 else 0;
    var maxCount := if repeat == '?' then 1 else SIZE_MAX - 1;
    var i := 0;
    while i <= maxCount
      invariant 0 <= i <= |str| && forall k :: 0 <= k < i ==> AtomMatchesChar(escaped, c, str[k])
      invariant forall n: nat :: n < i && Takes(item, n, str) ==> !MatchesHead(items, toEnd, str[n..])
      decreases |str| - i
    {
      if i >= minCount {
        var tail := MatchRegexAtHead(regex, str[i..], items, toEnd);
        if tail {
          assert Takes(item, i, str);
          return true;
        }
      }
      if CharAt(str, i) == '\0' || !AtomMatchesChar(escaped, c, CharAt(str, i)) {
        return false;
      }
      i := i + 1;
    }
    return false;
  }

  lemma NothingLeft(toEnd: bool, s: string)
    ensures MatchesHead([], toEnd, s) <==> !toEnd || s == ""
  {
    if !toEnd || s == "" {
      assert InLanguage([], s[..0]);
    }
  }

  lemma TakesOnce(item: Item, s: string)
    requires item.repeat == Once
    ensures forall n :: Takes(item, n, s) <==> n == 1 && |s| > 0 && AtomMatchesChar(item.escaped, item.c, s[0])
  {
  }

  /** Whether the regular expression matches a prefix of the string. */
  method MatchRegexAtHead(regex: string, str: CString, ghost items: seq<Item>, ghost toEnd: bool)
    returns (matched: bool)
    requires AllWellFormed(items) && regex == Text(items, toEnd) && |str| < SIZE_MAX
    ensures matched <==> MatchesHead(items, toEnd, str)
    decreases |regex|, 0
  {
    hide IsRepeat, RepeatText, Text, InLanguage, Takes, AtomMatchesChar;
    TextHead(items, toEnd);
    if CharAt(regex, 0) == '\0' {
      NothingLeft(toEnd, str);
      return true;
    }
    if CharAt(regex, 0) == '$' {
      NothingLeft(toEnd, str);
      return CharAt(str, 0) == '\0';
    }
    HeadStep(items, toEnd, str);
    TextHead(items[1..], toEnd);
    TextSplit(items, toEnd);
    RepeatSign(items[0].repeat, Text(items[1..], toEnd));
    var escaped := regex[0] == '\\';
    var rest := if escaped then regex[1..] else regex;
    assert rest[1..] == RepeatText(items[0].repeat) + Text(items[1..], toEnd);
    if IsRepeat(CharAt(rest, 1)) {
      assert rest[2..] == rest[1..][1..];
      matched := MatchRepetitionAndRegexAtHead(escaped, rest[0], rest[1], rest[2..], str, items[1..], toEnd);
    } else {
      TakesOnce(items[0], str);
      matched := CharAt(str, 0) != '\0' && AtomMatchesChar(escaped, rest[0], CharAt(str, 0));
      if matched {
        matched := MatchRegexAtHead(rest[1..], str[1..], items[1..], toEnd);
      }
    }
  }

  /** Whether the regular expression matches anywhere in the string. */
  method MatchRegexAnywhere(regex: Option<CString>, str: Option<CString>) returns (matched: bool)
    requires regex.Some? ==> exists r: Regex :: r.WellFormed() && Print(r) == regex.value
    requires str.Some? ==> |str.value| < SIZE_MAX
    ensures matched ==> regex.Some? && str.Some?
    ensures regex.Some? && str.Some? ==>
              forall r: Regex :: r.WellFormed() && Print(r) == regex.value ==> (matched <==> Matches(r, str.value))
  {
    if regex.None? || str.None? {
      return false;
    }
    var text, s := regex.value, str.value;
    ghost var r: Regex :| r.WellFormed() && Print(r) == text;
    forall q: Regex | q.WellFormed() && Print(q) == text
      ensures q == r
    {
      PrintUnique(q, r);
    }
    TextHead(r.items, r.toEnd);
    if CharAt(text, 0) == '^' {
      assert text[1..] == Text(r.items, r.toEnd);
      matched := MatchRegexAtHead(text[1..], s, r.items, r.toEnd);
      AnywhereFromStart(r, s);
      return;
    }
    var k := 0;
    while true
      invariant 0 <= k <= |s| && forall i :: 0 <= i < k ==> !MatchesHead(r.items, r.toEnd, s[i..])
      decreases |s| - k
    {
      matched := MatchRegexAtHead(text, s[k..], r.items, r.toEnd);
      if matched || CharAt(s, k) == '\0' {
        break;
      }
      k := k + 1;
    }
    AnywhereIsHead(r, s);
  }

  lemma AnywhereFromStart(r: Regex, s: string)
    requires r.fromStart
    ensures Matches(r, s) <==> MatchesHead(r.items, r.toEnd, s)
  {
    assert forall j :: 0 <= j <= |s| ==> s[0..j] == s[..j];
  }

  lemma AnywhereIsHead(r: Regex, s: string)
    requires !r.fromStart
    ensures Matches(r, s) <==> exists i :: 0 <= i <= |s| && MatchesHead(r.items, r.toEnd, s[i..])
  {
    if i, j :| 0 <= i <= j <= |s| && (r.toEnd ==> j == |s|) && InLanguage(r.items, s[i..j]) {
      assert s[i..][..j - i] == s[i..j];
      assert MatchesHead(r.items, r.toEnd, s[i..]);
    }
    if i :| 0 <= i <= |s| && MatchesHead(r.items, r.toEnd, s[i..]) {
      var t := s[i..];
      var j :| 0 <= j <= |t| && (r.toEnd ==> j == |t|) && InLanguage(r.items, t[..j]);
      assert t[..j] == s[i..i + j];
    }
  }
}
