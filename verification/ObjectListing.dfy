/** Listing the objects of a bucket page by page (Context.cpp). */
module ObjectListing {

  // Object keys are nonempty strings of bytes other than NUL, ordered as strcmp does.
  type Key = seq<int>

  datatype ObjectInfo = ObjectInfo(key: Key, size: int)

  predicate Less(a: Key, b: Key) {
    if b == [] then false
    else if a == [] then true
    else if a[0] != b[0] then a[0] < b[0]
    else Less(a[1..], b[1..])
  }

  lemma {:induction false} LessTransitive(a: Key, b: Key, c: Key)
    requires Less(a, b) && Less(b, c)
    ensures Less(a, c)
  {
    if a != [] && a[0] == b[0] && b[0] == c[0] {
      LessTransitive(a[1..], b[1..], c[1..]);
    }
  }

  lemma {:induction false} LessTotal(a: Key, b: Key)
    ensures (Less(a, b) || Less(b, a)) <==> a != b
    ensures !(Less(a, b) && Less(b, a))
  {
    if a != [] && b != [] && a[0] == b[0] {
      LessTotal(a[1..], b[1..]);
      assert a == [a[0]] + a[1..] && b == [b[0]] + b[1..];
    }
  }

  // Strictly ascending keys; ascending keys.
  ghost predicate Ascending(s: seq<ObjectInfo>) { forall i, j :: 0 <= i < j < |s| ==> Less(s[i].key, s[j].key) }

  ghost predicate Sorted(s: seq<ObjectInfo>) { forall i, j :: 0 <= i < j < |s| ==> !Less(s[j].key, s[i].key) }

  // ---------- the server

  // A bucket holds objects with different keys and answers with at most `limit` of them at a time.
  datatype Bucket = Bucket(objects: seq<ObjectInfo>, limit: nat)

  ghost predicate BucketOk(b: Bucket) {
    b.limit > 0 && Ascending(b.objects) && forall i :: 0 <= i < |b.objects| ==> b.objects[i].key != []
  }

  // What the service answers: a page of the listing, or an error.
  datatype Response = Page(limit: nat, keys: seq<ObjectInfo>) | Error(code: string)

  function Matching(s: seq<ObjectInfo>, prefix: Key): seq<ObjectInfo> {
    if s == [] then [] else (if prefix <= s[0].key then [s[0]] else []) + Matching(s[1..], prefix)
  }

  function After(s: seq<ObjectInfo>, marker: Key): seq<ObjectInfo> {
    if s == [] then [] else (if Less(marker, s[0].key) then [s[0]] else []) + After(s[1..], marker)
  }

  function Take(s: seq<ObjectInfo>, n: nat): seq<ObjectInfo> { if n < |s| then s[..n] else s }

  // The matching objects behind the marker, from the beginning without one; at most `limit` of them.
  function Answer(b: Bucket, prefix: Key, marker: Key): Response {
    Page(b.limit, Take(After(Matching(b.objects, prefix), marker), b.limit))
  }

  lemma {:induction false} MatchingIs(s: seq<ObjectInfo>, prefix: Key)
    requires Ascending(s)
    ensures Ascending(Matching(s, prefix))
    ensures forall o :: o in Matching(s, prefix) <==> o in s && prefix <= o.key
  {
    if s != [] {
      MatchingIs(s[1..], prefix);
      var m := Matching(s[1..], prefix);
      forall o | o in m
        ensures Less(s[0].key, o.key)
      {
        var i :| 0 <= i < |s[1..]| && s[1..][i] == o;
        assert s[i + 1] == o;
      }
    }
  }

  /** Behind the n-th key of an ascending list come exactly the keys that follow it. */
  lemma {:induction false} AfterIs(s: seq<ObjectInfo>, n: nat, marker: Key)
    requires Ascending(s) && n <= |s|
    requires if n == 0 then forall i :: 0 <= i < |s| ==> Less(marker, s[i].key) else marker == s[n - 1].key
    ensures After(s, marker) == s[n..]
  {
    if s != [] {
      if n == 0 {
        AfterIs(s[1..], 0, marker);
        assert s[0..] == [s[0]] + s[1..];
      } else if n == 1 {
        LessTotal(marker, s[0].key);
        AfterIs(s[1..], 0, marker);
      } else {
        LessTotal(s[0].key, marker);
        AfterIs(s[1..], n - 1, marker);
        assert s[1..][n - 1..] == s[n..];
      }
    }
  }

  lemma EmptyMarker(k: Key)
    requires k != []
    ensures Less([], k)
  {
  }

  // ---------- sorting the result

  // qsort with ObjectContentComp, of which only this is used: the result is sorted and a permutation.
  method SortObjects(s: seq<ObjectInfo>) returns (r: seq<ObjectInfo>)
    ensures Sorted(r) && multiset(r) == multiset(s)
  {
    r := [];
    for i := 0 to |s|
      invariant Sorted(r) && multiset(r) == multiset(s[..i])
    {
      assert s[..i + 1] == s[..i] + [s[i]];
      r := Insert(r, s[i]);
    }
    assert s[..|s|] == s;
  }

  method Insert(s: seq<ObjectInfo>, x: ObjectInfo) returns (r: seq<ObjectInfo>)
    requires Sorted(s)
    ensures Sorted(r) && multiset(r) == multiset(s) + multiset{x}
  {
    hide Less;
    var i := |s|;
    while i > 0 && Less(x.key, s[i - 1].key)
      invariant 0 <= i <= |s|
      invariant forall j :: i <= j < |s| ==> Less(x.key, s[j].key)
    {
      i := i - 1;
    }
    r := s[..i] + [x] + s[i..];
    assert s == s[..i] + s[i..];
    InPlace(s, x, i);
  }

  // The place behind the last object that is not greater keeps the list sorted.
  lemma InPlace(s: seq<ObjectInfo>, x: ObjectInfo, i: nat)
    requires Sorted(s) && i <= |s| && (i > 0 ==> !Less(x.key, s[i - 1].key))
    requires forall j :: i <= j < |s| ==> Less(x.key, s[j].key)
    ensures Sorted(s[..i] + [x] + s[i..])
  {
    hide Less;
    forall j | 0 <= j < i
      ensures !Less(x.key, s[j].key)
    {
      if j < i - 1 && Less(x.key, s[j].key) {
        LessTotal(s[j].key, s[i - 1].key);
        if s[j].key != s[i - 1].key {
          LessTransitive(x.key, s[j].key, s[i - 1].key);
        }
      }
    }
    forall j | i <= j < |s|
      ensures !Less(s[j].key, x.key)
    {
      LessTotal(s[j].key, x.key);
    }
  }

  lemma SmallestFirst(s: seq<ObjectInfo>, r: seq<ObjectInfo>)
    requires Ascending(s) && Sorted(r) && multiset(r) == multiset(s) && s != [] && r != []
    ensures r[0] == s[0]
  {
    assert s[0] in multiset(r) && r[0] in multiset(s);
    var i :| 0 <= i < |s| && s[i] == r[0];
    var j :| 0 <= j < |r| && r[j] == s[0];
    LessTotal(s[0].key, r[0].key);
  }

  /** A strictly ascending list is its only sorted permutation. */
  lemma {:induction false} SortedUnique(s: seq<ObjectInfo>, r: seq<ObjectInfo>)
    requires Ascending(s) && Sorted(r) && multiset(r) == multiset(s)
    ensures r == s
    decreases |s|
  {
    assert |r| == |multiset(r)| == |multiset(s)| == |s|;
    if s != [] {
      SmallestFirst(s, r);
      Rest(s);
      Rest(r);
      SortedUnique(s[1..], r[1..]);
      assert s == [s[0]] + s[1..] && r == [s[0]] + r[1..];
    }
  }

  lemma Rest(s: seq<ObjectInfo>)
    requires s != []
    ensures multiset(s[1..]) == multiset(s) - multiset{s[0]}
    ensures (Ascending(s) ==> Ascending(s[1..])) && (Sorted(s) ==> Sorted(s[1..]))
  {
    hide Less;
    assert s == [s[0]] + s[1..];
  }

  // ---------- the client

  class ListObjectResult {
    var limit: nat
    var objects: seq<ObjectInfo>

    constructor ()
      ensures objects == [] && limit == 0
    {
      limit, objects := 0, [];
    }
  }

  // extractListObjectContent: adds a page to the result and keeps it sorted.
  method ExtractPage(result: ListObjectResult, response: Response, marker: Key, eof: bool)
    returns (ok: bool, marker': Key, eof': bool)
    modifies result
    ensures ok <==> response.Page?
    ensures ok ==>
              && result.limit == response.limit
              && Sorted(result.objects) && multiset(result.objects) == multiset(old(result.objects) + response.keys)
              && (eof' <==> eof || |response.keys| == 0 || |response.keys| < response.limit)
              && marker' == if response.keys == [] then marker else response.keys[|response.keys| - 1].key
    ensures !ok ==> result.objects == old(result.objects)
  {
    ok, marker', eof' := response.Page?, marker, eof;
    if !ok {
      return;
    }
    result.limit := response.limit;
    var keys := response.keys;
    if |keys| == 0 || |keys| < result.limit {
      eof' := true;
    }
    for i := 0 to |keys|
      invariant result.limit == response.limit
      invariant result.objects == old(result.objects) + keys[..i]
      invariant marker' == if i == |keys| && keys != [] then keys[|keys| - 1].key else marker
    {
      result.objects := result.objects + [keys[i]];
      if i == |keys| - 1 {
        marker' := keys[i].key;
      }
      assert keys[..i + 1] == keys[..i] + [keys[i]];
    }
    assert keys[..|keys|] == keys;
    var sorted := SortObjects(result.objects);
    result.objects := sorted;
  }

  // How the listing of a bucket goes: the request of a page either fails or gets the bucket's answer.
  function Request(b: Bucket, prefix: Key, marker: Key, number: nat, faults: set<nat>): Response {
    if number in faults then Error("request failed") else Answer(b, prefix, marker)
  }

  // The first n objects of the listing are there, on full pages, and the marker is the key of the last.
  ghost predicate Listed(all: seq<ObjectInfo>, n: nat, number: nat, limit: nat, marker: Key) {
    n <= |all| && n == OnPages(number, limit) && marker == if n == 0 then [] else all[n - 1].key
  }

  // Asks for one more page.
  method AddPage(result: ListObjectResult, b: Bucket, prefix: Key, marker: Key, number: nat, faults: set<nat>,
        ghost n: nat)
    returns (ok: bool, marker': Key, eof: bool, ghost n': nat)
    requires BucketOk(b) && Listed(Matching(b.objects, prefix), n, number, b.limit, marker)
    requires result.objects == Matching(b.objects, prefix)[..n]
    modifies result
    ensures ok <==> number !in faults
    ensures number <= LastPage(|Matching(b.objects, prefix)|, b.limit)
    ensures ok ==> n' <= |Matching(b.objects, prefix)| && result.objects == Matching(b.objects, prefix)[..n']
    ensures ok && eof ==> n' == |Matching(b.objects, prefix)| && number == LastPage(n', b.limit)
    ensures ok && !eof ==> n' > n && Listed(Matching(b.objects, prefix), n', number + 1, b.limit, marker')
  {
    hide Answer, Take, Matching, Ascending, Sorted, LastPage, OnPages;
    ghost var all := Matching(b.objects, prefix);
    ghost var page := Take(all[n..], b.limit);
    NextPage(b, prefix, all, n, marker);
    Pages(|all|, b.limit, number, n);
    var response := Request(b, prefix, marker, number, faults);
    n' := n;
    ok, marker', eof := ExtractPage(result, response, marker, false);
    if ok {
      PageTaken(all, n, b.limit, result.objects);
      n' := n + |page|;
    }
  }

  /** Asks for page after page until one is not full. Against any bucket this ends; it succeeds if and only if
      none of the pages' requests fails, and then it yields the objects with the prefix, each exactly once and
      in order. */
  method ListObjects(b: Bucket, prefix: Key, faults: set<nat>) returns (result: ListObjectResult, ok: bool)
    requires BucketOk(b)
    ensures fresh(result)
    ensures ok ==> result.objects == Matching(b.objects, prefix)
    ensures ok <==> forall k :: 0 <= k <= LastPage(|Matching(b.objects, prefix)|, b.limit) ==> k !in faults
  {
    hide Matching, LastPage, OnPages;
    NoPages(b.limit);
    result := new ListObjectResult();
    ok := true;
    var marker: Key := [];
    var eof := false;
    var number := 0;
    ghost var all := Matching(b.objects, prefix);
    ghost var n: nat := 0;
    while !eof
      invariant n <= |all| && result.objects == all[..n] && fresh(result) && ok
      invariant forall k :: 0 <= k < number ==> k !in faults
      invariant eof ==> n == |all| && number == LastPage(n, b.limit) + 1
      invariant !eof ==> Listed(all, n, number, b.limit, marker)
      decreases !eof, |all| - n
    {
      ok, marker, eof, n := AddPage(result, b, prefix, marker, number, faults, n);
      if !ok {
        return;
      }
      number := number + 1;
    }
    assert all[..n] == all;
  }

  lemma MulOrder(a: nat, b: nat, c: nat)
    ensures (a + 1) * c == a * c + c && (a <= b ==> a * c <= b * c)
  {
    if a < b {
      MulOrder(a, b - 1, c);
    }
  }

  lemma PagesOf(all: nat, limit: nat, quotient: nat, rest: nat, number: nat, n: nat)
    requires all == quotient * limit + rest && rest < limit && n == number * limit <= all
    ensures number <= quotient && (all - n < limit ==> number == quotient)
  {
    MulOrder(quotient, number, limit);
    MulOrder(number, quotient, limit);
    if quotient + 1 <= number {
      MulOrder(quotient + 1, number, limit);
    } else if number + 1 <= quotient {
      MulOrder(number + 1, quotient, limit);
    }
  }

  // How many pages there are, the last of them not full.
  function LastPage(all: nat, limit: nat): nat
    requires limit > 0
  {
    all / limit
  }

  // The number of objects on so many full pages.
  function OnPages(number: nat, limit: nat): nat { number * limit }

  lemma NoPages(limit: nat)
    ensures OnPages(0, limit) == 0
  {
  }

  // Behind full pages only, there are no more than these pages, and the one that is not full is the last.
  lemma Pages(all: nat, limit: nat, number: nat, n: nat)
    requires limit > 0 && n == OnPages(number, limit) <= all
    ensures number <= LastPage(all, limit) && (all - n < limit ==> number == LastPage(all, limit))
    ensures n + limit == OnPages(number + 1, limit)
  {
    var quotient, rest := all / limit, all % limit;
    MulOrder(number, number, limit);
    PagesOf(all, limit, quotient, rest, number, n);
  }

  lemma PageTaken(all: seq<ObjectInfo>, n: nat, limit: nat, objects: seq<ObjectInfo>)
    requires Ascending(all) && n <= |all| && Sorted(objects)
    requires multiset(objects) == multiset(all[..n] + Take(all[n..], limit))
    ensures var page := Take(all[n..], limit);
            && n + |page| <= |all| && |page| <= limit && objects == all[..n + |page|]
            && (page != [] ==> page[|page| - 1] == all[n + |page| - 1])
            && (page == [] || |page| < limit ==> limit == 0 || n + |page| == |all|)
  {
    var page := Take(all[n..], limit);
    assert all[..n] + page == all[..n + |page|];
    SortedUnique(all[..n + |page|], objects);
  }

  lemma NextPage(b: Bucket, prefix: Key, all: seq<ObjectInfo>, n: nat, marker: Key)
    requires BucketOk(b) && all == Matching(b.objects, prefix) && n <= |all|
    requires marker == if n == 0 then [] else all[n - 1].key
    ensures Ascending(all) && Answer(b, prefix, marker) == Page(b.limit, Take(all[n..], b.limit))
  {
    MatchingIs(b.objects, prefix);
    if n == 0 {
      forall i | 0 <= i < |all|
        ensures Less(marker, all[i].key)
      {
        assert all[i] in b.objects;
        EmptyMarker(all[i].key);
      }
    }
    AfterIs(all, n, marker);
  }
}
