/** Fetching one range of an object with retries (HTTPFetcher.cpp). */
module RangeFetch {
  import opened Common

  const CURL_MAX_WRITE_SIZE: nat := 16384

  // ---------- ranges of an object

  function Slice(obj: seq<Octet>, from: nat, to: int): seq<Octet> {
    if from >= to || from >= |obj| then [] else if to <= |obj| then obj[from..to] else obj[from..]
  }

  // The bytes a fetcher is to get: `len` bytes from `offset`, or all from there when len is negative.
  function Wanted(obj: seq<Octet>, offset: nat, len: int): seq<Octet> {
    Slice(obj, offset, if len >= 0 then offset + len else |obj|)
  }

  // The Range header of a request.
  datatype Range = WholeObject | FromByte(first: nat) | Bytes(first: nat, last: int)

  // What a server sends for a range, an empty range meaning no bytes.
  function Served(obj: seq<Octet>, r: Range): seq<Octet> {
    match r
    case WholeObject => obj
    case FromByte(first) => Slice(obj, first, |obj|)
    case Bytes(first, last) => Slice(obj, first, last + 1)
  }

  // The range asked for when `done` bytes have been returned and `unread` more are buffered.
  function RequestedRange(offset: nat, len: int, unread: nat, done: nat): Range {
    if offset + done > 0 || len >= 0 then
      var o := offset + unread + done;
      var l := len - unread - done;
      if l >= 0 then Bytes(o, o + l - 1) else FromByte(o)
    else WholeObject
  }

  /** A (re)start asks for exactly the bytes not held yet, except that an open-ended fetch from the first
      byte, interrupted with bytes buffered of which none has been returned, starts over. */
  lemma RestartExact(obj: seq<Octet>, offset: nat, len: int, unread: nat, done: nat)
    requires unread + done <= |Wanted(obj, offset, len)|
    ensures Served(obj, RequestedRange(offset, len, unread, done)) == Wanted(obj, offset, len)[unread + done..]
            <==> len >= 0 || offset + done > 0 || unread == 0
  {
    var s := Served(obj, RequestedRange(offset, len, unread, done));
    var w := Wanted(obj, offset, len)[unread + done..];
    if !(len >= 0 || offset + done > 0) {
      assert w == obj[unread..];
      assert |s| == |w| + unread;
      assert obj[0..] == obj;
    }
  }

  // ---------- the fetcher

  datatype FetcherState = Init | Running | Failed | Done

  // What curl reports of a finished transfer.
  datatype CurlResult = Ok(response: int) | TimedOut | Error

  // What matters of a fetcher to its surroundings: `done` bytes have been returned, `held` bytes got.
  datatype View = View(target: seq<Octet>, state: FetcherState, curl: Option<nat>, paused: bool, done: nat, held: nat)

  ghost predicate ViewOk(v: View) {
    && v.done <= v.held <= |v.target|
    && (v.state == Running <==> v.curl.Some?)
    && (v.state == Done ==> v.held == |v.target|)
    && (v.state == Init ==> v.held == 0)
  }

  // curl has in store for a fetcher exactly the bytes it does not hold, and a paused transfer is one the
  // fetcher knows to be paused.
  ghost predicate Linked(f: HTTPFetcher, v: View, handles: map<nat, Transfer>)
    requires ViewOk(v)
  {
    v.curl.Some? ==>
      && v.curl.value in handles
      && (var t := handles[v.curl.value];
          t.owner == f && t.rest == v.target[v.held..] && t.refused <= |t.rest|
          && t.refused <= CURL_MAX_WRITE_SIZE && (t.refused > 0 ==> v.paused))
  }

  // A transfer in progress: the bytes the server has still to deliver, and the size of the block that was
  // refused last and waits at their front, 0 when the transfer is not paused.
  datatype Transfer = Transfer(owner: HTTPFetcher, rest: seq<Octet>, refused: nat)

  // The curl multi handle: the transfers in progress, by handle number.
  class CurlMulti {
    var handles: map<nat, Transfer>
    var nextHandle: nat

    ghost predicate Valid()
      reads this
    {
      forall h :: h in handles ==> h < nextHandle
    }

    constructor ()
      ensures Valid() && handles == map[]
    {
      handles, nextHandle := map[], 0;
    }

    method Add(owner: HTTPFetcher, rest: seq<Octet>) returns (h: nat)
      requires Valid()
      modifies this
      ensures Valid() && h !in old(handles) && handles == old(handles)[h := Transfer(owner, rest, 0)]
    {
      h := nextHandle;
      handles, nextHandle := handles[h := Transfer(owner, rest, 0)], nextHandle + 1;
    }
  }

  class HTTPFetcher {
    const mOffset: nat
    const mLen: int
    const remote: seq<Octet>              // the object behind the fetcher's URL
    const mReadBuff: array<Octet>

    var mState: FetcherState
    var mCurl: Option<nat>                // the curl handle
    var mPaused: bool
    var mBytesDone: nat                   // bytes returned to the caller
    var mNused: nat
    var mReadOff: nat
    ghost var target: seq<Octet>          // the bytes fetched so far and those under way

    // Every request for this transfer names a range.
    ghost predicate Ranged() { mLen >= 0 || mOffset > 0 }

    // The fetcher gets the bytes it is to get.
    ghost predicate Intact()
      reads this`target
    {
      target == Wanted(remote, mOffset, mLen)
    }

    // Everything buffered has been returned.
    ghost predicate Drained()
      reads this`mReadOff, this`mNused
    {
      mReadOff == mNused
    }

    ghost predicate Valid()
      reads this, mReadBuff
    {
      && (Ranged() || mState == Init ==> Intact())
      && CURL_MAX_WRITE_SIZE <= mReadBuff.Length
      && mReadOff <= mNused <= mReadBuff.Length
      && ViewOk(Now())
      && mReadBuff[mReadOff..mNused] == target[mBytesDone..Now().held]
    }

    ghost function Now(): View
      reads this
    {
      View(target, mState, mCurl, mPaused, mBytesDone, mBytesDone + if mReadOff <= mNused then mNused - mReadOff else 0)
    }

    // The buffered bytes not returned yet.
    ghost function Unread(): seq<Octet>
      requires Valid()
      reads this, mReadBuff
    {
      mReadBuff[mReadOff..mNused]
    }

    constructor (obj: seq<Octet>, buffsize: int, offset: nat, len: int)
      ensures Valid() && fresh(mReadBuff) && Intact()
      ensures mOffset == offset && mLen == len && remote == obj && target == Wanted(obj, offset, len)
      ensures Now() == View(target, Init, None, false, 0, 0)
    {
      mOffset, mLen, remote := offset, len, obj;
      target := Wanted(obj, offset, len);
      mState, mCurl, mPaused := Init, None, false;
      mBytesDone, mNused, mReadOff := 0, 0, 0;
      mReadBuff := new Octet[if CURL_MAX_WRITE_SIZE > buffsize then CURL_MAX_WRITE_SIZE else buffsize];
    }

    // Copies bytes from..to of the buffer to its beginning.
    method MoveToFront(from: nat, to: nat)
      requires from <= to <= mReadBuff.Length
      modifies mReadBuff
      ensures mReadBuff[..to - from] == old(mReadBuff[from..to])
    {
      var i := 0;
      while i < to - from
        invariant 0 <= i <= to - from
        invariant forall j :: 0 <= j < i ==> mReadBuff[j] == old(mReadBuff[from + j])
        invariant forall j :: i <= j < mReadBuff.Length ==> mReadBuff[j] == old(mReadBuff[j])
      {
        mReadBuff[i] := mReadBuff[from + i];
        i := i + 1;
      }
    }

    method Store(at: nat, contents: seq<Octet>)
      requires at + |contents| <= mReadBuff.Length
      modifies mReadBuff
      ensures mReadBuff[..at] == old(mReadBuff[..at])
      ensures mReadBuff[at..at + |contents|] == contents
    {
      var i := 0;
      while i < |contents|
        invariant 0 <= i <= |contents|
        invariant forall j :: 0 <= j < at ==> mReadBuff[j] == old(mReadBuff[j])
        invariant forall j :: 0 <= j < i ==> mReadBuff[at + j] == contents[j]
      {
        mReadBuff[at + i] := contents[i];
        i := i + 1;
      }
    }

    // Shifts the unread bytes to the front of the buffer.
    method Compact()
      requires Valid()
      modifies this`mNused, this`mReadOff, mReadBuff
      ensures Valid() && Now() == old(Now()) && Unread() == old(Unread()) && mReadOff == 0
    {
      hide Wanted, ViewOk;
      ghost var v := Now();
      MoveToFront(mReadOff, mNused);
      mNused := mNused - mReadOff;
      mReadOff := 0;
      assert Now() == v;
      assert mReadBuff[mReadOff..mNused] == mReadBuff[..mNused];
    }

    // Makes room for n bytes behind the unread ones, shifting these to the front if need be.
    method MakeRoom(n: nat) returns (fits: bool)
      requires Valid()
      modifies this`mNused, this`mReadOff, mReadBuff
      ensures Valid() && Now() == old(Now()) && Unread() == old(Unread())
      ensures fits <==> n <= mReadBuff.Length - |Unread()|
      ensures fits ==> n <= mReadBuff.Length - mNused
    {
      hide Wanted, ViewOk;
      ghost var v := Now();
      if mNused == mReadOff {
        assert mReadBuff[mReadOff..mNused] == [] == mReadBuff[0..0];
        mNused, mReadOff := 0, 0;
        assert Now() == v;
      }
      if n > mReadBuff.Length - mNused && mReadOff > 0 {
        Compact();
      }
      fits := n <= mReadBuff.Length - mNused;
    }

    /** curl hands over the next bytes of the range. They are taken if and only if they fit behind the
        unread bytes; in particular a block of at most CURL_MAX_WRITE_SIZE bytes is refused only while
        there are unread bytes. */
    method WriterCallback(contents: seq<Octet>) returns (accepted: bool)
      requires Valid() && mState == Running
      requires Now().held + |contents| <= |target| && contents == target[Now().held..Now().held + |contents|]
      modifies this`mNused, this`mReadOff, this`mPaused, mReadBuff
      ensures Valid()
      ensures accepted <==> |contents| <= mReadBuff.Length - |old(Unread())|
      ensures Unread() == old(Unread()) + if accepted then contents else []
      ensures Now() == old(Now()).(paused := old(mPaused) || !accepted,
                                   held := old(Now()).held + if accepted then |contents| else 0)
    {
      hide Wanted;
      accepted := MakeRoom(|contents|);
      if accepted {
        Append(contents);
      } else {
        mPaused := true;
      }
    }

    // Puts bytes behind the unread ones.
    method Append(contents: seq<Octet>)
      requires Valid() && mState == Running && |contents| <= mReadBuff.Length - mNused
      requires Now().held + |contents| <= |target| && contents == target[Now().held..Now().held + |contents|]
      modifies this`mNused, mReadBuff
      ensures Valid() && Unread() == old(Unread()) + contents
      ensures Now() == old(Now()).(held := old(Now()).held + |contents|)
    {
      hide Wanted, ViewOk;
      ghost var was, v := mReadBuff[..], Now();
      Holds(v, |contents|);
      JoinSlices(target, v.done, v.held, v.held + |contents|);
      Store(mNused, contents);
      Appended(was, mReadBuff[..], mReadOff, mNused, contents);
      mNused := mNused + |contents|;
      assert Now() == v.(held := v.held + |contents|);
    }

    /** Starts or restarts the transfer. What the fetcher will have got in the end is what it holds and what the
        server sends for the range it asks for. A fetcher that is intact remains so if and only if it has a length,
        does not begin at byte 0, has returned something, or has nothing buffered. */
    method Start(multi: CurlMulti) returns (h: nat)
      requires Valid() && multi.Valid()
      requires mState == Init || mState == Failed
      modifies this`mState, this`mCurl, this`target, multi
      ensures Valid() && multi.Valid() && h !in old(multi.handles)
      ensures Now() == old(Now()).(state := Running, curl := Some(h), target := target)
      ensures multi.handles == old(multi.handles)[h := Transfer(this, target[Now().held..], 0)]
      ensures target == old(target)[..Now().held]
                        + Served(remote, RequestedRange(mOffset, mLen, mNused - mReadOff, mBytesDone))
      ensures old(Intact()) ==> (Intact() <==> Ranged() || mBytesDone > 0 || Drained())
      ensures Ranged() || old(mState) == Init ==> target == old(target)
    {
      hide Wanted, Served, RequestedRange, HTTPFetcher.Ranged;
      var range := RequestedRange(mOffset, mLen, mNused - mReadOff, mBytesDone);
      ghost var was, held := target, Now().held;
      ViewBounds(Now());
      if Intact() {
        RestartExact(remote, mOffset, mLen, mNused - mReadOff, mBytesDone);
      }
      h := multi.Add(this, Served(remote, range));
      mCurl := Some(h);
      mState := Running;
      target := was[..held] + Served(remote, range);
      Rejoined(was, held, Served(remote, range), mBytesDone);
      RangedIs();
    }

    lemma RangedIs()
      ensures Ranged() <==> mLen >= 0 || mOffset > 0
    {
    }

    // Fail and done both release the curl handle.
    method Cleanup(multi: CurlMulti)
      requires multi.Valid() && mCurl.Some?
      modifies this`mCurl, multi
      ensures multi.Valid() && mCurl == None && multi.handles == old(multi.handles) - {old(mCurl).value}
    {
      multi.handles := multi.handles - {mCurl.value};
      mCurl := None;
    }

    /** curl reports the end of the transfer. The only failure raised is a response code of 0. */
    method HandleResult(res: CurlResult, multi: CurlMulti) returns (thrown: bool)
      requires Valid() && multi.Valid() && mCurl.Some?
      requires IsSuccess(res) ==> Now().held == |target|
      modifies this`mState, this`mCurl, multi
      ensures Valid() && multi.Valid()
      ensures thrown <==> res == Ok(0)
      ensures thrown ==> Now() == old(Now()) && multi.handles == old(multi.handles)
      ensures !thrown ==>
                && Now() == old(Now()).(state := if IsSuccess(res) then Done else Failed, curl := None)
                && multi.handles == old(multi.handles) - {old(mCurl).value}
    {
      hide Wanted;
      thrown := false;
      if res.Ok? && res.response == 0 {
        thrown := true;
      } else {
        Cleanup(multi);
        mState := if IsSuccess(res) then Done else Failed;
      }
    }

    // curl_easy_pause(CURLPAUSE_CONT): a paused transfer goes on, offering the refused block again at once
    // if curl is eager, else later.
    method Unpause(multi: CurlMulti, eager: bool)
      requires Valid() && multi.Valid() && Linked(this, Now(), multi.handles) && Unread() == []
      modifies this`mNused, this`mReadOff, this`mPaused, mReadBuff, multi
      ensures Valid() && multi.Valid() && Linked(this, Now(), multi.handles)
      ensures Now() == old(Now()).(paused := false, held := Now().held)
      ensures Now().curl == None ==> Unread() == []
      ensures OthersKept(mCurl, old(multi.handles), multi.handles)
      ensures mCurl.Some? && old(multi.handles)[mCurl.value].refused > 0 ==>
                multi.handles[mCurl.value].refused == 0 && (eager ==> Unread() != [])
    {
      hide Wanted, HTTPFetcher.Intact, HTTPFetcher.Ranged;
      mPaused := false;
      if mCurl.Some? {
        var t := multi.handles[mCurl.value];
        if t.refused > 0 {
          var rest := t.rest;
          if eager {
            ghost var held := Now().held;
            FrontSlice(target, held, t.refused);
            var accepted := WriterCallback(rest[..t.refused]);
            assert accepted && Now().held == held + t.refused;
            rest := rest[t.refused..];
          }
          multi.handles := multi.handles[mCurl.value := Transfer(this, rest, 0)];
        }
      }
    }

    // Hands out the first buffered bytes.
    method Take(bufflen: nat) returns (data: seq<Octet>)
      requires Valid()
      modifies this`mReadOff, this`mBytesDone
      ensures Valid() && Now() == old(Now()).(done := mBytesDone)
      ensures |data| <= bufflen && mBytesDone == old(mBytesDone) + |data|
      ensures data == target[old(mBytesDone)..mBytesDone] && old(Unread()) == data + Unread()
      ensures bufflen > 0 && old(Unread()) != [] ==> data != []
    {
      hide Wanted, ViewOk, HTTPFetcher.Intact, HTTPFetcher.Ranged;
      ghost var v := Now();
      ViewBounds(v);
      var avail := mNused - mReadOff;
      if avail > bufflen {
        avail := bufflen;
      }
      data := mReadBuff[mReadOff..mReadOff + avail];
      CutUnread(avail);
      Returned(v, avail);
      mReadOff := mReadOff + avail;
      mBytesDone := mBytesDone + avail;
      assert Now() == v.(done := v.done + avail);
    }

    // The first n unread bytes, and the others.
    lemma CutUnread(n: nat)
      requires Valid() && n <= mNused - mReadOff
      ensures mBytesDone + n <= Now().held <= |target| && Now().held == mBytesDone + (mNused - mReadOff)
      ensures mReadBuff[mReadOff..mReadOff + n] == target[mBytesDone..mBytesDone + n]
      ensures mReadBuff[mReadOff + n..mNused] == target[mBytesDone + n..Now().held]
      ensures Unread() == mReadBuff[mReadOff..mReadOff + n] + mReadBuff[mReadOff + n..mNused]
    {
      hide Wanted, HTTPFetcher.Intact, HTTPFetcher.Ranged;
      ghost var buf := mReadBuff[..];
      assert mReadBuff[mReadOff..mNused] == buf[mReadOff..mNused];
      assert mReadBuff[mReadOff..mReadOff + n] == buf[mReadOff..mReadOff + n];
      assert mReadBuff[mReadOff + n..mNused] == buf[mReadOff + n..mNused];
      Taken(buf, mReadOff, mNused, n, target, mBytesDone, Now().held);
    }

    /** Returns up to `bufflen` bytes. Reports the end only when all bytes of the range have been returned.
        A transfer that stands still because a block was refused is set going again once everything
        buffered has been returned, and the block is then taken. */
    method Get(bufflen: nat, multi: CurlMulti, eager: bool) returns (data: seq<Octet>, eof: bool)
      requires Valid() && multi.Valid() && Linked(this, Now(), multi.handles)
      modifies this`mNused, this`mReadOff, this`mPaused, this`mBytesDone, mReadBuff, multi
      ensures Valid() && multi.Valid() && Linked(this, Now(), multi.handles)
      ensures Now() == old(Now()).(paused := mPaused, done := old(Now()).done + |data|, held := Now().held)
      ensures |data| <= bufflen && data == target[old(Now()).done..Now().done]
      ensures eof <==> old(mState) == Done && old(Unread()) == []
      ensures eof ==> data == [] && Now().done == |target|
      ensures bufflen > 0 && data == [] ==> Drained()
      ensures mCurl == None || old(Unread()) != [] ==> Now().held == old(Now()).held
      ensures OthersKept(mCurl, old(multi.handles), multi.handles)
      ensures old(Unread()) == [] && mCurl.Some? && old(multi.handles)[mCurl.value].refused > 0 ==>
                multi.handles[mCurl.value].refused == 0 && (eager && bufflen > 0 ==> data != [])
    {
      hide Wanted;
      data, eof := [], false;
      if mNused == mReadOff && mPaused {
        Unpause(multi, eager);
      }
      if mNused > mReadOff {
        data := Take(bufflen);
      } else {
        eof := mState == Done;
      }
    }
  }

  lemma Rejoined(s: seq<Octet>, n: nat, t: seq<Octet>, k: nat)
    requires k <= n <= |s|
    ensures s[..n] + t == s <==> t == s[n..]
    ensures (s[..n] + t)[n..] == t && (s[..n] + t)[k..n] == s[k..n]
  {
    assert s[..n] + s[n..] == s;
    if s[..n] + t == s {
      assert s[n..] == (s[..n] + t)[n..] == t;
    }
  }

  /** The failure that `Start` leaves open: an open-ended transfer from byte 0 takes n bytes and fails, an empty buffer
      is offered to it, and it is started again. It then gets these n bytes twice. */
  method StartsOver(obj: seq<Octet>, n: nat) returns (f: HTTPFetcher)
    requires 0 < n <= |obj| && n <= CURL_MAX_WRITE_SIZE
    ensures fresh(f) && f.Valid() && !f.Intact() && f.target == obj[..n] + obj
  {
    hide Wanted, Served;
    var multi := new CurlMulti();
    f := new HTTPFetcher(obj, -1, 0, -1);
    OpenEnded(obj);
    var _ := f.Start(multi);
    var accepted := f.WriterCallback(obj[..n]);
    var thrown := f.HandleResult(TimedOut, multi);
    var data, eof := f.Get(0, multi, false);
    assert accepted && f.Now().held == n && f.target == obj;
    assert obj[..n] + obj != obj;
    var _ := f.Start(multi);
  }

  lemma FrontSlice(s: seq<Octet>, i: nat, n: nat)
    requires i <= |s| && n <= |s[i..]|
    ensures i + n <= |s| && s[i..][..n] == s[i..i + n] && s[i..][n..] == s[i + n..]
  {
  }

  lemma OpenEnded(obj: seq<Octet>)
    ensures Wanted(obj, 0, -1) == obj && Served(obj, WholeObject) == obj
  {
    assert obj[0..] == obj;
  }

  predicate IsSuccess(res: CurlResult) { res == Ok(200) || res == Ok(206) }

  lemma ViewBounds(v: View)
    requires ViewOk(v)
    ensures v.done <= v.held <= |v.target|
  {
  }

  lemma Returned(v: View, n: nat)
    requires ViewOk(v) && v.done + n <= v.held
    ensures ViewOk(v.(done := v.done + n))
  {
  }

  // A stretch of the buffer that agrees with one of s, cut in two.
  lemma Taken(buf: seq<Octet>, from: nat, to: nat, n: nat, s: seq<Octet>, i: nat, j: nat)
    requires from + n <= to <= |buf| && i <= j <= |s| && buf[from..to] == s[i..j]
    ensures i + n <= j && to - from == j - i && buf[from..from + n] == s[i..i + n] && buf[from + n..to] == s[i + n..j]
    ensures buf[from..to] == buf[from..from + n] + buf[from + n..to]
  {
    CutSlice(buf, from, to, n);
    CutSlice(s, i, j, n);
  }

  lemma CutSlice(s: seq<Octet>, i: nat, j: nat, n: nat)
    requires i + n <= j <= |s|
    ensures s[i..j][..n] == s[i..i + n] && s[i..j][n..] == s[i + n..j]
    ensures s[i..j] == s[i..i + n] + s[i + n..j]
  {
    assert forall k :: 0 <= k < j - i ==> s[i..j][k] == s[i + k];
  }

  lemma Holds(v: View, n: nat)
    requires ViewOk(v) && v.state == Running && v.held + n <= |v.target|
    ensures v.done <= v.held && ViewOk(v.(held := v.held + n))
  {
  }

  lemma JoinSlices(s: seq<Octet>, i: nat, j: nat, k: nat)
    requires i <= j <= k <= |s|
    ensures s[i..j] + s[j..k] == s[i..k]
  {
  }

  lemma Appended(was: seq<Octet>, now: seq<Octet>, from: nat, to: nat, contents: seq<Octet>)
    requires from <= to && to + |contents| <= |now| && |was| == |now|
    requires now[..to] == was[..to] && now[to..to + |contents|] == contents
    ensures now[from..to + |contents|] == was[from..to] + contents
  {
    assert now[from..to] == now[..to][from..] && was[from..to] == was[..to][from..];
    JoinSlices(now, from, to, to + |contents|);
  }

  // No transfer but that of handle h has changed.
  ghost predicate OthersKept(h: Option<nat>, before: map<nat, Transfer>, after: map<nat, Transfer>) {
    before.Keys == after.Keys && forall k :: k in after && h != Some(k) ==> after[k] == before[k]
  }
}
