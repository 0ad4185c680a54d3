/** Reading a file line by line through a fixed buffer (StackPrinter.cpp). */
module LineReader {
  import opened Common

  // ---------- what is to be returned

  // The longest run of lines at the start of s that all end in '\n' and, with it, fit in `capacity`.
  function Lines(s: string, capacity: nat): seq<string> {
    var k := FeedAt(s);
    if k < |s| && k < capacity then [s[..k]] + Lines(s[k + 1..], capacity) else []
  }

  // The place of the first '\n', or the end.
  function FeedAt(s: string): (k: nat)
    ensures k <= |s| && (k < |s| ==> s[k] == '\n') && '\n' !in s[..k]
  {
    if s == "" || s[0] == '\n' then 0 else
      var k := 1 + FeedAt(s[1..]);
      assert s[..k] == [s[0]] + s[1..][..k - 1];
      k
  }

  function Joined(lines: seq<string>): string {
    if lines == [] then "" else lines[0] + "\n" + Joined(lines[1..])
  }

  predicate IsLine(line: string, capacity: nat) { '\n' !in line && |line| + 1 <= capacity }

  // No further line can be had from s.
  predicate Ends(s: string, capacity: nat) { '\n' !in s[..if |s| < capacity then |s| else capacity] }

  // A start of s is cut into lines, and nothing more can be cut off the rest.
  predicate Cuts(lines: seq<string>, rest: string, s: string, capacity: nat) {
    s == Joined(lines) + rest && (forall k :: 0 <= k < |lines| ==> IsLine(lines[k], capacity)) && Ends(rest, capacity)
  }

  lemma EndsAtFeed(s: string, capacity: nat)
    ensures Ends(s, capacity) <==> !(FeedAt(s) < |s| && FeedAt(s) < capacity)
  {
    var k := FeedAt(s);
    var m := if |s| < capacity then |s| else capacity;
    if k < m {
      assert s[..m][k] == '\n';
    } else {
      assert s[..m] == s[..k][..m];
    }
  }

  lemma {:induction false} FeedIs(s: string, k: nat)
    requires k < |s| && s[k] == '\n' && '\n' !in s[..k]
    ensures FeedAt(s) == k
  {
    if k > 0 {
      assert s[..k] == [s[0]] + s[1..][..k - 1];
      FeedIs(s[1..], k - 1);
    }
  }

  lemma {:induction false} LinesCut(s: string, capacity: nat) returns (rest: string)
    ensures Cuts(Lines(s, capacity), rest, s, capacity)
    decreases |s|
  {
    hide FeedAt, Ends;
    var k := FeedAt(s);
    EndsAtFeed(s, capacity);
    if k < |s| && k < capacity {
      rest := LinesCut(s[k + 1..], capacity);
      assert s == s[..k] + "\n" + s[k + 1..];
    } else {
      rest := s;
    }
  }

  lemma {:induction false} CutIsLines(lines: seq<string>, rest: string, s: string, capacity: nat)
    requires Cuts(lines, rest, s, capacity)
    ensures lines == Lines(s, capacity)
  {
    hide FeedAt, Ends;
    if lines == [] {
      assert s == rest;
      EndsAtFeed(s, capacity);
    } else {
      var k, tail := |lines[0]|, Joined(lines[1..]) + rest;
      assert s == lines[0] + "\n" + tail;
      assert s[..k] == lines[0] && s[k] == '\n' && s[k + 1..] == tail;
      FeedIs(s, k);
      CutIsLines(lines[1..], rest, tail, capacity);
    }
  }

  /** Lines is the one way to cut lines off the start of s after which no further line can be had. */
  lemma LinesExact(s: string, capacity: nat, lines: seq<string>)
    ensures lines == Lines(s, capacity) <==> exists rest :: Cuts(lines, rest, s, capacity)
  {
    if lines == Lines(s, capacity) {
      var rest := LinesCut(s, capacity);
    }
    if rest :| Cuts(lines, rest, s, capacity) {
      CutIsLines(lines, rest, s, capacity);
    }
  }

  // What the first n characters tell about the lines: the next one, or that there is none.
  lemma NextLine(s: string, n: nat, capacity: nat)
    requires n <= |s| && n <= capacity
    ensures var k := FeedAt(s[..n]); k < n ==> Lines(s, capacity) == [s[..k]] + Lines(s[k + 1..], capacity)
    ensures FeedAt(s[..n]) == n && (n == capacity || n == |s|) ==> Lines(s, capacity) == []
  {
    hide FeedAt;
    var k := FeedAt(s[..n]);
    assert s[..n][..k] == s[..k];
    if k < n {
      FeedIs(s, k);
    } else {
      EndsAtFeed(s, capacity);
    }
  }

  // ---------- the file

  // Reads may be short or fail, as the environment pleases; only the end of the file gives 0 bytes.
  class File {
    const content: string
    var pos: nat
    var failed: bool      // a read has failed

    constructor (content: string)
      ensures this.content == content && pos == 0 && !failed
    {
      this.content, pos, failed := content, 0, false;
    }

    method Read(buf: array<char>, at: nat, count: nat) returns (len: int)
      requires pos <= |content| && at + count <= buf.Length
      modifies this, buf
      ensures -1 <= len <= count && buf[..at] == old(buf[..at])
      ensures failed == (old(failed) || len == -1)
      ensures pos == old(pos) + (if len == -1 then 0 else len) <= |content|
      ensures len >= 0 ==> buf[at..at + len] == content[old(pos)..pos]
      ensures len == 0 ==> count == 0 || pos == |content|
    {
      if * {
        failed := true;
        return -1;
      }
      var left := |content| - pos;
      var most := if count < left then count else left;
      var some: nat :| some <= most && (some == 0 ==> most == 0);
      forall i | 0 <= i < some {
        buf[at + i] := content[pos + i];
      }
      pos := pos + some;
      len := some;
    }
  }

  /** Reads up to `count` bytes to buf[at..]; fewer only at the end of the file. */
  method ReadPersistent(fd: File, buf: array<char>, at: nat, count: nat) returns (numBytes: int)
    requires fd.pos <= |fd.content| && at + count <= buf.Length
    modifies fd, buf
    ensures -1 <= numBytes <= count && buf[..at] == old(buf[..at]) && old(fd.pos) <= fd.pos <= |fd.content|
    ensures fd.failed == (old(fd.failed) || numBytes == -1)
    ensures numBytes >= 0 ==>
              fd.pos == old(fd.pos) + numBytes && buf[at..at + numBytes] == fd.content[old(fd.pos)..fd.pos]
    ensures numBytes >= 0 ==> numBytes == count || fd.pos == |fd.content|
  {
    numBytes := 0;
    while numBytes < count
      invariant 0 <= numBytes <= count && buf[..at] == old(buf[..at]) && fd.failed == old(fd.failed)
      invariant fd.pos == old(fd.pos) + numBytes <= |fd.content|
      invariant buf[at..at + numBytes] == fd.content[old(fd.pos)..fd.pos]
    {
      ghost var had := buf[at..at + numBytes];
      ghost var below, was := buf[..at + numBytes], fd.pos;
      var len := fd.Read(buf, at + numBytes, count - numBytes);
      assert buf[..at + numBytes] == below;
      assert buf[..at] == below[..at] && buf[at..at + numBytes] == below[at..] && below[at..] == had;
      if len < 0 {
        return -1;
      }
      if len == 0 {
        break;
      }
      assert buf[at..at + numBytes + len] == had + buf[at + numBytes..at + numBytes + len];
      assert fd.content[old(fd.pos)..fd.pos] == fd.content[old(fd.pos)..was] + fd.content[was..fd.pos];
      numBytes := numBytes + len;
    }
  }

  // ---------- the reader

  class LineReader {
    const fd: File
    const buf: array<char>
    var bol: nat
    var eol: nat
    var eod: nat
    ghost var next: nat             // where in the file the line after the current one starts
    ghost var lines: seq<string>    // the lines returned so far

    // The bytes behind the current line are those of the file; the lines returned are the first lines.
    ghost predicate Valid()
      reads this, fd, buf
    {
      && next <= fd.pos <= |fd.content| && eod <= buf.Length
      && Lines(fd.content, buf.Length) == lines + Lines(fd.content[next..], buf.Length)
      && if eod == 0 then fd.pos == next else eol < eod && buf[eol + 1..eod] == fd.content[next..fd.pos]
    }

    constructor (fd: File, buf: array<char>)
      requires fd.pos == 0
      ensures Valid() && this.fd == fd && this.buf == buf && lines == []
    {
      this.fd, this.buf := fd, buf;
      bol, eol, eod, next, lines := 0, 0, 0, 0, [];
    }

    // memchr for '\n' between bol and eod.
    method FindLineFeed() returns (at: Option<nat>)
      requires bol <= eod <= buf.Length
      ensures var k := FeedAt(buf[bol..eod]); at == if k < eod - bol then Some(bol + k) else None
    {
      hide FeedAt;
      ghost var text := buf[bol..eod];
      var i := bol;
      while i < eod
        invariant bol <= i <= eod && '\n' !in text[..i - bol]
      {
        if buf[i] == '\n' {
          FeedIs(text, i - bol);
          return Some(i);
        }
        i := i + 1;
      }
      return None;
    }

    // memmove of buf[from..from + count] to the front.
    method MoveToFront(from: nat, count: nat)
      requires from + count <= buf.Length
      modifies buf
      ensures buf[..count] == old(buf[from..from + count])
    {
      forall i | 0 <= i < count {
        buf[i] := buf[from + i];
      }
    }

    // The first read.
    method FillFirst() returns (ok: bool)
      requires Valid() && eod == 0
      modifies this`bol, this`eod, buf, fd
      ensures next <= fd.pos <= |fd.content| && (fd.failed ==> old(fd.failed) || !ok)
      ensures ok ==> bol == 0 < eod <= buf.Length && buf[..eod] == fd.content[next..fd.pos]
      ensures ok ==> eod == buf.Length || fd.pos == |fd.content|
      ensures !ok && !fd.failed ==> Lines(fd.content[next..], buf.Length) == []
    {
      hide Lines, FeedAt, Ends;
      var numBytes := ReadPersistent(fd, buf, 0, buf.Length);
      if numBytes <= 0 {
        if numBytes == 0 {
          NextLine(fd.content[next..], 0, buf.Length);
          assert FeedAt(fd.content[next..][..0]) == 0;
        }
        return false;
      }
      eod, bol := numBytes, 0;
      ok := true;
    }

    // Moves an incomplete line to the front and reads on behind it.
    method FillBehind() returns (ok: bool)
      requires 0 < bol <= eod <= buf.Length && next <= fd.pos <= |fd.content|
      requires buf[bol..eod] == fd.content[next..fd.pos] && FeedAt(buf[bol..eod]) == eod - bol
      modifies this`bol, this`eod, buf, fd
      ensures next <= fd.pos <= |fd.content| && (fd.failed ==> old(fd.failed) || !ok)
      ensures ok ==> bol == 0 < eod <= buf.Length && buf[..eod] == fd.content[next..fd.pos]
      ensures ok ==> eod == buf.Length || fd.pos == |fd.content|
      ensures !ok && !fd.failed ==> Lines(fd.content[next..], buf.Length) == []
    {
      hide Lines, FeedAt, Ends;
      var incompleteLength := eod - bol;
      ghost var was, kept := fd.pos, buf[bol..eod];
      MoveToFront(bol, incompleteLength);
      var numBytes := ReadPersistent(fd, buf, incompleteLength, buf.Length - incompleteLength);
      assert buf[..incompleteLength] == kept;
      assert kept == fd.content[next..was];
      if numBytes <= 0 {
        if numBytes == 0 {
          assert fd.content[next..][..incompleteLength] == kept;
          NextLine(fd.content[next..], incompleteLength, buf.Length);
        }
        return false;
      }
      eod, bol := incompleteLength + numBytes, 0;
      ReadOn(buf[..eod], incompleteLength, fd.content, next, was, fd.pos);
      ok := true;
    }

    // Leaves the bytes of the file from `next` on in buf[bol..eod]: a whole line if there is one that fits.
    method Fill() returns (ok: bool)
      requires Valid()
      modifies this`bol, this`eod, buf, fd
      ensures next <= fd.pos <= |fd.content| && (fd.failed ==> old(fd.failed) || !ok)
      ensures ok ==> bol <= eod <= buf.Length && 0 < eod && buf[bol..eod] == fd.content[next..fd.pos]
      ensures ok ==> FeedAt(buf[bol..eod]) < eod - bol || eod - bol == buf.Length || fd.pos == |fd.content|
      ensures !ok && !fd.failed ==> Lines(fd.content[next..], buf.Length) == []
    {
      hide Lines, FeedAt, Ends;
      if eod == 0 {
        ok := FillFirst();
      } else {
        ok := true;
        bol := eol + 1;
        var feed := FindLineFeed();
        if feed.None? {
          NotMore(buf[bol..eod]);
          ok := FillBehind();
        }
      }
    }

    lemma NotMore(s: string)
      ensures FeedAt(s) <= |s|
    {
    }

    /** The next line of the file; or none if the file has no more, or it does not fit, or a read fails. */
    method ReadLine() returns (line: Option<string>)
      requires Valid()
      modifies this, buf, fd
      ensures line.Some? ==> Valid() && lines == old(lines) + [line.value]
      ensures line.Some? ==> bol <= eol < buf.Length && buf[bol..eol] == line.value && buf[eol] == '\0'
      ensures line.None? ==> lines == old(lines) && lines <= Lines(fd.content, buf.Length)
      ensures line.None? && !fd.failed ==> lines == Lines(fd.content, buf.Length)
      ensures fd.failed ==> old(fd.failed) || line.None?
    {
      hide Lines, FeedAt, Ends;
      var ok := Fill();
      if !ok {
        return None;
      }
      ghost var s, n := fd.content[next..], eod - bol;
      assert s[..n] == buf[bol..eod];
      NotMore(s[..n]);
      NextLine(s, n, buf.Length);
      var feed := FindLineFeed();
      if feed.None? {
        return None;
      }
      var text := TakeLine(feed.value);
      line := Some(text);
    }

    // Ends the current line with '\0' in the place of its '\n'.
    method TakeLine(at: nat) returns (line: string)
      requires bol <= at < eod <= buf.Length && next <= fd.pos <= |fd.content|
               && buf[bol..eod] == fd.content[next..fd.pos]
      requires at - bol == FeedAt(buf[bol..eod])
      requires Lines(fd.content, buf.Length) == lines + Lines(fd.content[next..], buf.Length)
      modifies this`eol, this`next, this`lines, buf
      ensures Valid() && eol == at && buf[eol] == '\0' && line == buf[bol..eol]
      ensures lines == old(lines) + [line]
    {
      hide Lines, FeedAt;
      ghost var s, n, k := fd.content[next..], eod - bol, at - bol;
      assert s[..n] == buf[bol..eod];
      NextLine(s, n, buf.Length);
      eol := at;
      line := buf[bol..eol];
      assert s[..n][..k] == line;
      assert s[..k] == line && s[k + 1..] == fd.content[next + k + 1..];
      assert s[..n][k + 1..] == fd.content[next + k + 1..fd.pos];
      buf[eol] := '\0';
      assert buf[eol + 1..eod] == s[..n][k + 1..];
      next, lines := next + k + 1, lines + [line];
    }
  }

  /** Reads lines until there are no more. */
  method ReadLines(fd: File, buf: array<char>) returns (lines: seq<string>)
    requires fd.pos == 0
    modifies fd, buf
    ensures lines <= Lines(fd.content, buf.Length)
    ensures !fd.failed ==> lines == Lines(fd.content, buf.Length)
  {
    var reader := new LineReader(fd, buf);
    lines := [];
    while true
      invariant reader.Valid() && reader.fd == fd && reader.buf == buf && lines == reader.lines && fresh(reader)
      decreases |Lines(fd.content, buf.Length)| - |lines|
    {
      var line := reader.ReadLine();
      if line.None? {
        return;
      }
      lines := lines + [line.value];
    }
  }

  // A stretch that agrees with the file up to n, and behind it, agrees with the file.
  lemma ReadOn(x: string, n: nat, content: string, a: nat, b: nat, c: nat)
    requires a <= b <= c <= |content| && n <= |x|
    requires x[..n] == content[a..b] && x[n..] == content[b..c]
    ensures x == content[a..c]
  {
    assert content[a..c] == content[a..b] + content[b..c];
    assert x == x[..n] + x[n..];
  }
}
