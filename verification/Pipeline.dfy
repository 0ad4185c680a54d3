/** Reading an object through several pre-fetching transfers (DownloadPipeline.cpp). */
module Pipeline {
  import opened Common
  import opened RangeFetch

  // What happens while the pipeline waits: curl offers bytes of some transfers, then reports the end of
  // some. Handles are named by number; numbers of no transfer in progress are passed over.
  datatype Round = Round(offers: seq<(nat, nat)>, results: seq<(nat, CurlResult)>)

  // Bytes, the end of the data, nothing until more rounds come, or a response code of 0.
  datatype ReadResult = Data(bytes: seq<Octet>) | Eof | Blocked | Thrown

  // ---------- the state of all fetchers, as values

  // The bytes a list of fetchers is to get.
  ghost function Targets(vs: seq<View>): seq<Octet> {
    if vs == [] then [] else vs[0].target + Targets(vs[1..])
  }

  lemma {:induction false} TargetsSnoc(vs: seq<View>, v: View)
    ensures Targets(vs + [v]) == Targets(vs) + v.target
  {
    if vs == [] {
      assert vs + [v] == [v] && [v][1..] == [];
      assert Targets([v]) == v.target + Targets([]);
    } else {
      TargetsSnoc(vs[1..], v);
      assert (vs + [v])[1..] == vs[1..] + [v];
    }
  }

  lemma {:induction false} TargetsDependOnTargets(vs: seq<View>, ws: seq<View>)
    requires |vs| == |ws| && forall i :: 0 <= i < |vs| ==> vs[i].target == ws[i].target
    ensures Targets(vs) == Targets(ws)
  {
    if vs != [] {
      TargetsDependOnTargets(vs[1..], ws[1..]);
    }
  }

  // What has been read and what is still to be read make up the whole; only the first fetcher has been
  // read from.
  ghost predicate InOrder(vs: seq<View>, total: seq<Octet>, returned: seq<Octet>) {
    && (forall i :: 1 <= i < |vs| ==> vs[i].done == 0)
    && (if vs == [] then returned == total
        else vs[0].done <= |vs[0].target|
             && returned + (vs[0].target[vs[0].done..] + Targets(vs[1..])) == total)
  }

  // The first n fetchers have been started and agree with curl, the others have not; every transfer in
  // progress is that of a started one.
  ghost predicate Agree(fs: seq<HTTPFetcher>, n: nat, vs: seq<View>, handles: map<nat, Transfer>) {
    && |vs| == |fs| && n <= |fs|
    && (forall i :: 0 <= i < |vs| ==> ViewOk(vs[i]))
    && (forall i :: 0 <= i < n ==> vs[i].state != Init && Linked(fs[i], vs[i], handles))
    && (forall i :: n <= i < |vs| ==> vs[i].state == Init)
    && (forall h :: h in handles ==> Owned(fs, n, vs, handles[h].owner, h))
  }

  ghost predicate Owned(fs: seq<HTTPFetcher>, n: nat, vs: seq<View>, owner: HTTPFetcher, h: nat)
    requires n <= |fs| == |vs|
  {
    exists i :: 0 <= i < n && fs[i] == owner && vs[i].curl == Some(h)
  }

  ghost predicate Separate(fs: seq<HTTPFetcher>) {
    forall i, j :: 0 <= i < j < |fs| ==> fs[i] != fs[j] && fs[i].mReadBuff != fs[j].mReadBuff
  }

  // Of the transfers only those of fetcher f, which had handle h and now has h', have changed.
  ghost predicate OnlyChanged(f: HTTPFetcher, h: Option<nat>, before: map<nat, Transfer>, h': Option<nat>,
      after: map<nat, Transfer>)
  {
    && (forall k :: k in before && h != Some(k) ==> k in after && after[k] == before[k])
    && (forall k :: k in after && h' != Some(k) ==> h != Some(k) && k in before && after[k] == before[k])
    && (forall k :: k in after && h' == Some(k) ==> after[k].owner == f)
  }

  /** A started fetcher may change together with its own transfer. */
  lemma AgreeAfter(fs: seq<HTTPFetcher>, n: nat, vs: seq<View>, handles: map<nat, Transfer>,
                   k: nat, n': nat, v: View, handles': map<nat, Transfer>)
    requires Separate(fs) && Agree(fs, n, vs, handles)
    requires k < n' <= |fs| && (n' == n || (k == n && n' == n + 1))
    requires ViewOk(v) && v.state != Init && Linked(fs[k], v, handles')
    requires OnlyChanged(fs[k], vs[k].curl, handles, v.curl, handles')
    requires v.curl.Some? && vs[k].curl != v.curl ==> v.curl.value !in handles
    ensures Agree(fs, n', vs[k := v], handles')
  {
    hide Linked, Owned, OnlyChanged, ViewOk;
    var ws := vs[k := v];
    IdleIsLinked(fs[k], vs[k], handles);
    forall i | 0 <= i < n' && i != k
      ensures Linked(fs[i], ws[i], handles')
    {
      LinkedAfter(fs[i], vs[i], fs[k], vs[k], handles, v.curl, handles');
    }
    forall h | h in handles'
      ensures Owned(fs, n', ws, handles'[h].owner, h)
    {
      OwnedAfter(fs, n, vs, handles, k, n', v, handles', h);
    }
  }

  lemma IdleIsLinked(f: HTTPFetcher, v: View, handles: map<nat, Transfer>)
    requires ViewOk(v)
    ensures v.state == Init ==> Linked(f, v, handles)
  {
  }

  lemma LinkedAfter(f: HTTPFetcher, w: View, g: HTTPFetcher, was: View, handles: map<nat, Transfer>,
                    curl: Option<nat>, handles': map<nat, Transfer>)
    requires f != g && ViewOk(w) && ViewOk(was) && Linked(f, w, handles) && Linked(g, was, handles)
    requires OnlyChanged(g, was.curl, handles, curl, handles')
    ensures Linked(f, w, handles')
  {
  }

  lemma OwnedAfter(fs: seq<HTTPFetcher>, n: nat, vs: seq<View>, handles: map<nat, Transfer>,
                   k: nat, n': nat, v: View, handles': map<nat, Transfer>, h: nat)
    requires n <= |fs| == |vs| && k < n' <= |fs| && (n' == n || (k == n && n' == n + 1)) && h in handles'
    requires forall h :: h in handles ==> Owned(fs, n, vs, handles[h].owner, h)
    requires OnlyChanged(fs[k], vs[k].curl, handles, v.curl, handles')
    ensures Owned(fs, n', vs[k := v], handles'[h].owner, h)
  {
    var ws := vs[k := v];
    if v.curl == Some(h) {
      assert ws[k].curl == Some(h);
    } else {
      assert Owned(fs, n, vs, handles[h].owner, h);
      var i :| 0 <= i < n && fs[i] == handles[h].owner && vs[i].curl == Some(h);
      assert i != k && ws[i].curl == Some(h);
    }
  }

  /** Reading from the first fetcher moves bytes from what is to be read to what has been read. */
  lemma InOrderAfter(vs: seq<View>, k: nat, v: View, total: seq<Octet>, returned: seq<Octet>, data: seq<Octet>)
    requires InOrder(vs, total, returned) && k < |vs| && v.target == vs[k].target
    requires vs[k].done <= v.done <= |v.target| && data == v.target[vs[k].done..v.done] && (k == 0 || data == [])
    ensures InOrder(vs[k := v], total, returned + data)
  {
    var ws := vs[k := v];
    TargetsDependOnTargets(ws[1..], vs[1..]);
    if k == 0 {
      assert vs[0].target[vs[0].done..] == data + v.target[v.done..];
    }
    assert returned + data + (ws[0].target[ws[0].done..] + Targets(ws[1..]))
        == returned + (data + ws[0].target[ws[0].done..] + Targets(ws[1..]));
  }

  /** When the first fetcher is to get other bytes than before, so is the pipeline. */
  lemma Retargeted(vs: seq<View>, v: View, total: seq<Octet>, returned: seq<Octet>)
    requires InOrder(vs, total, returned) && vs != [] && v.done == vs[0].done <= |v.target|
    ensures InOrder(vs[0 := v], returned + (v.target[v.done..] + Targets(vs[1..])), returned)
    ensures v.target == vs[0].target ==> returned + (v.target[v.done..] + Targets(vs[1..])) == total
  {
    assert vs[0 := v][1..] == vs[1..];
  }

  /** A fetcher all of whose bytes have been read can be dropped. */
  lemma DropFirst(fs: seq<HTTPFetcher>, n: nat, vs: seq<View>, handles: map<nat, Transfer>,
                  total: seq<Octet>, returned: seq<Octet>)
    requires Agree(fs, n, vs, handles) && InOrder(vs, total, returned) && n > 0
    requires vs[0].state == Done && vs[0].done == |vs[0].target|
    ensures Agree(fs[1..], n - 1, vs[1..], handles) && InOrder(vs[1..], total, returned)
  {
    forall h | h in handles
      ensures Owned(fs[1..], n - 1, vs[1..], handles[h].owner, h)
    {
      assert Owned(fs, n, vs, handles[h].owner, h);
      var i :| 0 <= i < n && fs[i] == handles[h].owner && vs[i].curl == Some(h);
      assert fs[1..][i - 1] == fs[i] && vs[1..][i - 1] == vs[i];
    }
    if vs[1..] != [] {
      assert vs[1].target[0..] == vs[1].target;
    }
  }

  lemma AppendPending(fs: seq<HTTPFetcher>, n: nat, vs: seq<View>, handles: map<nat, Transfer>,
                      total: seq<Octet>, returned: seq<Octet>, f: HTTPFetcher, v: View)
    requires Agree(fs, n, vs, handles) && InOrder(vs, total, returned) && ViewOk(v) && v.state == Init
    ensures Agree(fs + [f], n, vs + [v], handles) && InOrder(vs + [v], total + v.target, returned)
  {
    hide InOrder;
    forall h | h in handles
      ensures Owned(fs + [f], n, vs + [v], handles[h].owner, h)
    {
      assert Owned(fs, n, vs, handles[h].owner, h);
      var i :| 0 <= i < n && fs[i] == handles[h].owner && vs[i].curl == Some(h);
      assert (fs + [f])[i] == fs[i] && (vs + [v])[i] == vs[i];
    }
    AppendInOrder(vs, total, returned, v);
  }

  lemma AppendInOrder(vs: seq<View>, total: seq<Octet>, returned: seq<Octet>, v: View)
    requires InOrder(vs, total, returned) && ViewOk(v) && v.state == Init
    ensures InOrder(vs + [v], total + v.target, returned)
  {
    if vs != [] {
      TargetsSnoc(vs[1..], v);
      assert (vs + [v])[1..] == vs[1..] + [v];
    } else {
      assert (vs + [v])[1..] == [];
      assert v.target[0..] == v.target;
    }
  }

  lemma StateOf(fs: seq<HTTPFetcher>, n: nat, vs: seq<View>, handles: map<nat, Transfer>, k: nat)
    requires Agree(fs, n, vs, handles) && k < |fs|
    ensures ViewOk(vs[k]) && (k < n ==> vs[k].state != Init && Linked(fs[k], vs[k], handles))
    ensures n <= k ==> vs[k].state == Init && vs[k].done == vs[k].held == 0 && vs[k].curl == None
  {
  }

  lemma StartedIsLinked(f: HTTPFetcher, v: View, before: map<nat, Transfer>, after: map<nat, Transfer>, h: nat)
    requires ViewOk(v) && v.curl == Some(h) && h !in before
    requires after == before[h := Transfer(f, v.target[v.held..], 0)]
    ensures Linked(f, v, after) && OnlyChanged(f, None, before, v.curl, after)
  {
  }

  // ---------- the pipeline object

  ghost function Views(fs: seq<HTTPFetcher>): seq<View>
    reads fs
  {
    seq(|fs|, i requires 0 <= i < |fs| reads fs => fs[i].Now())
  }

  // Every request of these fetchers names a range.
  ghost predicate AllRanged(fs: seq<HTTPFetcher>) { forall f :: f in fs ==> f.Ranged() }

  // These fetchers get the bytes they are to get.
  ghost predicate AllIntact(fs: seq<HTTPFetcher>)
    reads fs`target
  {
    forall f :: f in fs ==> f.Intact()
  }

  ghost function Objects(fs: seq<HTTPFetcher>): set<object> {
    (set f: HTTPFetcher | f in fs :: f as object) + (set f: HTTPFetcher | f in fs :: f.mReadBuff as object)
  }

  class DownloadPipeline {
    const mNConnections: int
    const multi: CurlMulti
    var mActiveFetchers: seq<HTTPFetcher>
    var mPendingFetchers: seq<HTTPFetcher>
    ghost var total: seq<Octet>       // all bytes the fetchers get, in order
    ghost var returned: seq<Octet>    // all bytes read so far

    ghost function Fetchers(): seq<HTTPFetcher>
      reads this
    {
      mActiveFetchers + mPendingFetchers
    }

    ghost predicate Valid()
      reads this, multi, Fetchers(), Objects(Fetchers())
    {
      && multi.Valid() && Separate(Fetchers())
      && (forall f :: f in Fetchers() ==> f.Valid())
      && Agree(Fetchers(), |mActiveFetchers|, Views(Fetchers()), multi.handles)
      && InOrder(Views(Fetchers()), total, returned)
      && (mActiveFetchers == [] || |mActiveFetchers| <= mNConnections)
    }

    constructor (nconnections: int)
      ensures Valid() && fresh(multi) && mNConnections == nconnections
      ensures Fetchers() == [] && total == [] && returned == []
    {
      mNConnections := nconnections;
      multi := new CurlMulti();
      mActiveFetchers, mPendingFetchers := [], [];
      total, returned := [], [];
    }

    method Add(fetcher: HTTPFetcher)
      requires Valid() && fetcher.Valid() && fetcher.mState == Init
      requires fetcher !in Fetchers() && forall f :: f in Fetchers() ==> f.mReadBuff != fetcher.mReadBuff
      modifies this`mPendingFetchers, this`total
      ensures Valid() && mPendingFetchers == old(mPendingFetchers) + [fetcher]
      ensures mActiveFetchers == old(mActiveFetchers) && total == old(total) + fetcher.target
    {
      hide HTTPFetcher.Valid, Agree, InOrder;
      ghost var fs, vs := Fetchers(), Views(Fetchers());
      NowOk(fetcher);
      AppendPending(fs, |mActiveFetchers|, vs, multi.handles, total, returned, fetcher, fetcher.Now());
      mPendingFetchers := mPendingFetchers + [fetcher];
      total := total + fetcher.target;
      assert Fetchers() == fs + [fetcher];
      assert Views(Fetchers()) == vs + [fetcher.Now()];
    }

    // Starts pending fetchers while there are connections left.
    method Launch()
      requires Valid()
      modifies this`mActiveFetchers, this`mPendingFetchers, multi, Objects(Fetchers())
      ensures Valid() && Fetchers() == old(Fetchers())
      ensures old(AllIntact(Fetchers())) ==> AllIntact(Fetchers())
      ensures |mActiveFetchers| >= mNConnections || mPendingFetchers == []
    {
      hide HTTPFetcher.Valid, Agree, InOrder, Separate, Views, AllIntact;
      while |mActiveFetchers| < mNConnections
        invariant Valid() && Fetchers() == old(Fetchers())
        invariant old(AllIntact(Fetchers())) ==> AllIntact(Fetchers())
        decreases |mPendingFetchers|
      {
        if mPendingFetchers == [] {
          break;
        }
        LaunchNext();
      }
    }

    // Moves the next fetcher to the active list and starts it.
    method LaunchNext()
      requires Valid() && mPendingFetchers != [] && |mActiveFetchers| < mNConnections
      modifies this`mActiveFetchers, this`mPendingFetchers, multi, Objects(Fetchers())
      ensures Valid() && Fetchers() == old(Fetchers()) && |mPendingFetchers| < old(|mPendingFetchers|)
      ensures old(AllIntact(Fetchers())) ==> AllIntact(Fetchers())
    {
      hide HTTPFetcher.Valid, Agree, InOrder, Linked, ViewOk, OnlyChanged, Served, RequestedRange, Wanted;
      ghost var fs, vs, handles, n := Fetchers(), Views(Fetchers()), multi.handles, |mActiveFetchers|;
      var fetcher := mPendingFetchers[0];
      assert fetcher == fs[n];
      StateOf(fs, n, vs, handles, n);
      mPendingFetchers := mPendingFetchers[1..];
      mActiveFetchers := mActiveFetchers + [fetcher];
      assert Fetchers() == fs;
      var h := fetcher.Start(multi);
      NowOk(fetcher);
      StartedIsLinked(fetcher, fetcher.Now(), handles, multi.handles, h);
      AgreeAfter(fs, n, vs, handles, n, n + 1, fetcher.Now(), multi.handles);
      InOrderAfter(vs, n, fetcher.Now(), total, returned, []);
      assert Views(fs) == vs[n := fetcher.Now()];
      assert returned + [] == returned;
    }

    // Reads from the first active fetcher.
    method GetFirst(bufflen: nat, eager: bool) returns (data: seq<Octet>, eof: bool)
      requires Valid() && mActiveFetchers != []
      modifies this`returned, multi, Objects(Fetchers())
      ensures Valid() && |data| <= bufflen && returned == old(returned) + data
      ensures old(AllIntact(Fetchers())) ==> AllIntact(Fetchers())
      ensures bufflen > 0 && data == [] ==> mActiveFetchers[0].Drained()
      ensures eof ==> data == [] && mActiveFetchers[0].mState == Done
                      && mActiveFetchers[0].mBytesDone == |mActiveFetchers[0].target|
    {
      hide HTTPFetcher.Valid, Agree, InOrder, Linked, ViewOk;
      ghost var fs, vs, handles, n := Fetchers(), Views(Fetchers()), multi.handles, |mActiveFetchers|;
      var f := mActiveFetchers[0];
      assert f == fs[0];
      StateOf(fs, n, vs, handles, 0);
      NowOk(f);
      data, eof := f.Get(bufflen, multi, eager);
      NowOk(f);
      KeysAreOwned(f, vs[0], handles, f.Now(), multi.handles);
      AgreeAfter(fs, n, vs, handles, 0, n, f.Now(), multi.handles);
      DoneInRange(f.Now());
      InOrderAfter(vs, 0, f.Now(), total, returned, data);
      returned := returned + data;
      assert Views(fs) == vs[0 := f.Now()];
    }

    // No restart of the first fetcher starts over.
    ghost predicate Safe()
      requires mActiveFetchers != []
      reads this, mActiveFetchers, Fetchers()
    {
      AllIntact(Fetchers()) && (AllRanged(Fetchers()) || mActiveFetchers[0].Drained())
    }

    // Starts the failed first fetcher again, after which it may get other bytes than before.
    method RestartFirst()
      requires Valid() && mActiveFetchers != [] && mActiveFetchers[0].mState == Failed
      modifies this`total, multi, Objects(Fetchers())
      ensures Valid() && (old(Safe()) ==> AllIntact(Fetchers()) && total == old(total))
    {
      hide HTTPFetcher.Valid, Agree, InOrder, Linked, ViewOk, OnlyChanged, Served, RequestedRange, Wanted,
           HTTPFetcher.Ranged;
      ghost var fs, vs, handles, n := Fetchers(), Views(Fetchers()), multi.handles, |mActiveFetchers|;
      var f := mActiveFetchers[0];
      assert f == fs[0];
      StateOf(fs, n, vs, handles, 0);
      NoHandle(f.Now());
      assert f in fs;
      var h := f.Start(multi);
      NowOk(f);
      StartedIsLinked(f, f.Now(), handles, multi.handles, h);
      AgreeAfter(fs, n, vs, handles, 0, n, f.Now(), multi.handles);
      DoneInRange(f.Now());
      Retargeted(vs, f.Now(), total, returned);
      total := returned + (f.target[f.mBytesDone..] + Targets(vs[1..]));
      assert Views(fs) == vs[0 := f.Now()];
    }

    method RestartFailed()
      requires Valid() && mActiveFetchers != []
      modifies this`total, multi, Objects(Fetchers())
      ensures Valid() && returned <= total
      ensures old(Safe()) ==> AllIntact(Fetchers()) && total == old(total)
    {
      hide HTTPFetcher.Valid, Agree, InOrder, Separate, Views, AllRanged;
      if mActiveFetchers[0].mState == Failed {
        RestartFirst();
      }
      PrefixRead(Views(Fetchers()), total, returned);
    }

    // Drops the first fetcher, which has returned everything.
    method PopFirst()
      requires Valid() && mActiveFetchers != []
      requires mActiveFetchers[0].mState == Done && mActiveFetchers[0].mBytesDone == |mActiveFetchers[0].target|
      modifies this`mActiveFetchers
      ensures Valid() && Fetchers() == old(Fetchers())[1..] && Objects(Fetchers()) <= old(Objects(Fetchers()))
      ensures AllRanged(old(Fetchers())) ==> AllRanged(Fetchers())
      ensures old(AllIntact(Fetchers())) ==> AllIntact(Fetchers())
    {
      hide HTTPFetcher.Valid, Agree, InOrder, Linked, ViewOk, Separate, Objects;
      ghost var fs, vs := Fetchers(), Views(Fetchers());
      DropFirst(fs, |mActiveFetchers|, vs, multi.handles, total, returned);
      TailApart(fs);
      mActiveFetchers := mActiveFetchers[1..];
      assert Fetchers() == fs[1..];
      assert Views(fs[1..]) == vs[1..];
    }

    // curl offers up to `size` bytes of transfer h, a block at a time, unless the transfer is paused.
    method Offer(h: nat, size: nat)
      requires Valid()
      modifies multi, Objects(Fetchers())
      ensures Valid()
      ensures old(AllIntact(Fetchers())) ==> AllIntact(Fetchers())
    {
      hide HTTPFetcher.Valid, Agree, InOrder, Linked, ViewOk;
      if h in multi.handles && multi.handles[h].refused == 0 {
        var rest := |multi.handles[h].rest|;
        var block := if size < CURL_MAX_WRITE_SIZE then size else CURL_MAX_WRITE_SIZE;
        block := if block < rest then block else rest;
        if block > 0 {
          OfferBlock(h, block);
        }
      }
    }

    // A block that is refused stays at the front of what is to be delivered, and the transfer pauses.
    method OfferBlock(h: nat, block: nat)
      requires Valid() && h in multi.handles && 0 < block <= |multi.handles[h].rest| && block <= CURL_MAX_WRITE_SIZE
      modifies multi, Objects(Fetchers())
      ensures Valid()
      ensures old(AllIntact(Fetchers())) ==> AllIntact(Fetchers())
    {
      hide HTTPFetcher.Valid, Agree, InOrder, Linked, ViewOk, OnlyChanged, Separate;
      ghost var fs, vs, handles, n := Fetchers(), Views(Fetchers()), multi.handles, |mActiveFetchers|;
      ghost var k := OwnerIndex(fs, n, vs, handles, h);
      var t := multi.handles[h];
      var f := t.owner;
      assert f == fs[k] && f in fs;
      NowOk(f);
      LinkedRest(f, vs[k], handles, h);
      var accepted := f.WriterCallback(t.rest[..block]);
      multi.handles := multi.handles[h := if accepted then Transfer(f, t.rest[block..], 0)
          else Transfer(f, t.rest, block)];
      NowOk(f);
      OfferedIsLinked(f, vs[k], f.Now(), handles, multi.handles, h, block, accepted);
      AgreeAfter(fs, n, vs, handles, k, n, f.Now(), multi.handles);
      DoneInRange(f.Now());
      InOrderAfter(vs, k, f.Now(), total, returned, []);
      assert returned + [] == returned;
      OthersNow(fs, k);
      assert Views(fs) == vs[k := f.Now()];
    }

    // curl reports the end of transfer h, success only when it has delivered everything. The fetcher it
    // belongs to is always found among the active ones.
    method Finish(h: nat, res: CurlResult) returns (thrown: bool)
      requires Valid()
      modifies multi, Objects(Fetchers())
      ensures Valid() && (thrown ==> res == Ok(0))
      ensures old(AllIntact(Fetchers())) ==> AllIntact(Fetchers())
    {
      hide HTTPFetcher.Valid, Agree, InOrder, Linked, ViewOk;
      thrown := false;
      if h !in multi.handles || (IsSuccess(res) && multi.handles[h].rest != []) {
        return;
      }
      ghost var fs, vs, handles, n := Fetchers(), Views(Fetchers()), multi.handles, |mActiveFetchers|;
      ghost var k := OwnerIndex(fs, n, vs, handles, h);
      assert mActiveFetchers[k] == fs[k];
      var i := 0;
      while i < |mActiveFetchers| && mActiveFetchers[i].mCurl != Some(h)
        invariant 0 <= i <= k
      {
        i := i + 1;
      }
      var found := i < |mActiveFetchers|;
      assert found;
      var f := mActiveFetchers[i];
      assert f == fs[i] && f in fs && vs[i].curl == Some(h);
      StateOf(fs, n, vs, handles, i);
      NowOk(f);
      LinkedRest(f, vs[i], handles, h);
      thrown := f.HandleResult(res, multi);
      if !thrown {
        NowOk(f);
        EndedIsLinked(f, vs[i], f.Now(), handles, multi.handles, h);
        AgreeAfter(fs, n, vs, handles, i, n, f.Now(), multi.handles);
        DoneInRange(f.Now());
        InOrderAfter(vs, i, f.Now(), total, returned, []);
        assert returned + [] == returned;
        assert Views(fs) == vs[i := f.Now()];
      } else {
        assert Views(fs) == vs;
      }
    }

    // Something happens on the network.
    method Perform(round: Round) returns (thrown: bool)
      requires Valid()
      modifies multi, Objects(Fetchers())
      ensures Valid()
      ensures old(AllIntact(Fetchers())) ==> AllIntact(Fetchers())
    {
      hide HTTPFetcher.Valid, Agree, InOrder, Separate, Views;
      thrown := false;
      for i := 0 to |round.offers|
        invariant Valid() && (old(AllIntact(Fetchers())) ==> AllIntact(Fetchers()))
      {
        Offer(round.offers[i].0, round.offers[i].1);
      }
      for i := 0 to |round.results|
        invariant Valid() && (old(AllIntact(Fetchers())) ==> AllIntact(Fetchers()))
      {
        thrown := Finish(round.results[i].0, round.results[i].1);
        if thrown {
          return;
        }
      }
    }

    /** Reads up to `bufflen` bytes, waiting for the network for as many rounds as are given. Whatever
        happens meanwhile, the bytes read so far are the beginning of the bytes to be read, and all of
        them once the end is reported. These do not change unless the buffer is empty, as a fetcher is started
        again only when nothing could be read from it; with an empty buffer they do not if every request names a
        range. `eager` tells, for each look at the first fetcher, whether curl offers a refused block at once. */
    method Read(bufflen: nat, rounds: seq<Round>, eager: nat -> bool) returns (r: ReadResult)
      requires Valid()
      modifies this`mActiveFetchers, this`mPendingFetchers, this`returned, this`total, multi, Objects(Fetchers())
      ensures old(AllIntact(Fetchers())) && (bufflen > 0 || AllRanged(old(Fetchers()))) ==>
                AllIntact(Fetchers()) && total == old(total)
      ensures AllRanged(old(Fetchers())) ==> AllRanged(Fetchers())
      ensures Valid() && Objects(Fetchers()) <= old(Objects(Fetchers()))
      ensures returned == old(returned) + if r.Data? then r.bytes else []
      ensures r.Data? ==> 0 < |r.bytes| <= bufflen
      ensures returned <= total
      ensures r == Eof && mNConnections > 0 ==> returned == total
    {
      hide HTTPFetcher.Valid, Agree, InOrder, Separate, Views, AllRanged, AllIntact;
      var k, looks := 0, 0;
      ghost var keeps := AllIntact(Fetchers()) && (bufflen > 0 || AllRanged(Fetchers()));
      while true
        invariant 0 <= k <= |rounds| && Valid() && returned == old(returned)
        invariant Objects(Fetchers()) <= old(Objects(Fetchers()))
        invariant AllRanged(old(Fetchers())) ==> AllRanged(Fetchers())
        invariant keeps ==> AllIntact(Fetchers()) && total == old(total)
        decreases |rounds| - k, |Fetchers()|
      {
        PrefixRead(Views(Fetchers()), total, returned);
        ViewsSize(Fetchers());
        Launch();
        if mActiveFetchers == [] {
          return Eof;
        }
        var data, eof := GetFirst(bufflen, eager(looks));
        looks := looks + 1;
        if eof {
          PopFirst();
          continue;
        }
        if data != [] {
          PrefixRead(Views(Fetchers()), total, returned);
          return Data(data);
        }
        RestartFailed();
        if k == |rounds| {
          return Blocked;
        }
        var thrown := Perform(rounds[k]);
        k := k + 1;
        if thrown {
          return Thrown;
        }
      }
    }
  }

  /** What has been read is a prefix of the whole, and is the whole when no fetcher is left. */
  lemma PrefixRead(vs: seq<View>, total: seq<Octet>, returned: seq<Octet>)
    requires InOrder(vs, total, returned)
    ensures returned <= total && (vs == [] ==> returned == total)
  {
  }

  lemma TailApart(fs: seq<HTTPFetcher>)
    requires Separate(fs) && fs != []
    ensures Separate(fs[1..]) && Objects(fs[1..]) <= Objects(fs) && forall f :: f in fs[1..] ==> f in fs
  {
  }

  lemma ViewsSize(fs: seq<HTTPFetcher>)
    ensures |Views(fs)| == |fs|
  {
  }

  lemma OthersNow(fs: seq<HTTPFetcher>, k: nat)
    requires Separate(fs) && k < |fs|
    ensures forall i :: 0 <= i < |fs| && i != k ==> fs[i] != fs[k] && fs[i].mReadBuff != fs[k].mReadBuff
  {
  }

  lemma NoHandle(v: View)
    requires ViewOk(v) && v.state == Failed
    ensures v.curl == None
  {
  }

  lemma DoneInRange(v: View)
    requires ViewOk(v)
    ensures v.done <= |v.target|
  {
  }

  lemma OwnerIndex(fs: seq<HTTPFetcher>, n: nat, vs: seq<View>, handles: map<nat, Transfer>, h: nat) returns (k: nat)
    requires Agree(fs, n, vs, handles) && h in handles
    ensures k < n && fs[k] == handles[h].owner && vs[k].curl == Some(h) && ViewOk(vs[k])
    ensures vs[k].state == Running && Linked(fs[k], vs[k], handles)
  {
    assert Owned(fs, n, vs, handles[h].owner, h);
    k :| 0 <= k < n && fs[k] == handles[h].owner && vs[k].curl == Some(h);
  }

  lemma LinkedRest(f: HTTPFetcher, v: View, handles: map<nat, Transfer>, h: nat)
    requires ViewOk(v) && Linked(f, v, handles) && v.curl == Some(h)
    ensures h in handles && v.held <= |v.target| && handles[h].rest == v.target[v.held..]
    ensures handles[h].rest == [] ==> v.held == |v.target|
  {
  }

  lemma KeysAreOwned(f: HTTPFetcher, v: View, before: map<nat, Transfer>, v': View, after: map<nat, Transfer>)
    requires ViewOk(v) && ViewOk(v') && Linked(f, v, before) && Linked(f, v', after) && v'.curl == v.curl
    requires OthersKept(v.curl, before, after)
    ensures OnlyChanged(f, v.curl, before, v'.curl, after)
  {
  }

  lemma OfferedIsLinked(f: HTTPFetcher, v: View, v': View, before: map<nat, Transfer>, after: map<nat, Transfer>,
                        h: nat, block: nat, accepted: bool)
    requires ViewOk(v) && ViewOk(v') && Linked(f, v, before) && v.curl == Some(h)
    requires 0 < block <= |before[h].rest| && block <= CURL_MAX_WRITE_SIZE
    requires v' == v.(paused := v.paused || !accepted, held := v.held + if accepted then block else 0)
    requires after == before[h := if accepted then Transfer(f, before[h].rest[block..], 0)
                                  else Transfer(f, before[h].rest, block)]
    ensures Linked(f, v', after) && OnlyChanged(f, v.curl, before, v'.curl, after)
  {
  }

  lemma EndedIsLinked(f: HTTPFetcher, v: View, v': View, before: map<nat, Transfer>, after: map<nat, Transfer>, h: nat)
    requires ViewOk(v) && ViewOk(v') && Linked(f, v, before) && v.curl == Some(h) && v'.curl == None
    requires after == before - {h}
    ensures Linked(f, v', after) && OnlyChanged(f, v.curl, before, v'.curl, after)
  {
  }

  lemma NowOk(f: HTTPFetcher)
    requires f.Valid()
    ensures ViewOk(f.Now()) && f.Now().target == f.target && f.Now().state == f.mState && f.Now().curl == f.mCurl
  {
    hide ViewOk;
  }
}
