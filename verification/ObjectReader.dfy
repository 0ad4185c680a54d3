/** Reading a byte range of an object in chunks (QingStorReader.cpp). */
module ObjectReader {
  import opened Common
  import opened RangeFetch
  import opened Pipeline

  const MAX_BUFFER: int := 128 * 1024 * 1024

  // ---------- lengths

  const TWO_31: int := 0x8000_0000
  const TWO_32: int := 0x1_0000_0000

  // What a fetcher makes of a length: it keeps an int, of 32 bits.
  function ToInt(n: int): int { (n + TWO_31) % TWO_32 - TWO_31 }

  // The length of the piece that begins at `offset`, a chunk size of -1 meaning a single piece.
  function PieceLength(offset: int, end: int, chunk: int): int {
    if chunk == -1 || offset + chunk > end then end - offset + 1 else chunk
  }

  // The loop over the pieces ends.
  predicate Ends(offset: int, end: int, chunk: int) { chunk == -1 || chunk > 0 || offset + chunk > end }

  // One piece: the loop gets nearer to its end, or goes on as before.
  lemma EndsStep(offset: int, end: int, chunk: int)
    ensures !Ends(offset, end, chunk) ==>
              var next := offset + PieceLength(offset, end, chunk); next <= end && !Ends(next, end, chunk)
    ensures Ends(offset, end, chunk) ==>
              var next := offset + PieceLength(offset, end, chunk);
              next <= end ==> Ends(next, end, chunk) && end - next < end - offset
  {
  }

  // Where the loop is after n pieces, if it has not ended before.
  function PiecesEnd(offset: int, end: int, chunk: int, n: nat): int
    decreases n
  {
    if n == 0 then offset else PiecesEnd(offset + PieceLength(offset, end, chunk), end, chunk, n - 1)
  }

  // The loop, which looks at its condition behind each piece, ends with the n-th.
  predicate EndsAt(offset: int, end: int, chunk: int, n: nat) {
    n > 0 && PiecesEnd(offset, end, chunk, n) > end && forall k :: 0 < k < n ==> PiecesEnd(offset, end, chunk, k) <= end
  }

  lemma {:induction false} EndsSome(offset: int, end: int, chunk: int) returns (n: nat)
    requires Ends(offset, end, chunk)
    ensures EndsAt(offset, end, chunk, n)
    decreases end - offset
  {
    hide PieceLength, Ends;
    EndsStep(offset, end, chunk);
    var next := offset + PieceLength(offset, end, chunk);
    n := 1;
    if next <= end {
      var m := EndsSome(next, end, chunk);
      n := m + 1;
      forall k | 0 < k < n ensures PiecesEnd(offset, end, chunk, k) <= end {
        assert PiecesEnd(offset, end, chunk, k) == PiecesEnd(next, end, chunk, k - 1);
      }
    } else {
      assert PiecesEnd(next, end, chunk, 0) == next;
    }
  }

  lemma {:induction false} EndsNever(offset: int, end: int, chunk: int, n: nat)
    requires !Ends(offset, end, chunk) && n > 0
    ensures PiecesEnd(offset, end, chunk, n) <= end
    decreases n
  {
    hide PieceLength, Ends;
    EndsStep(offset, end, chunk);
    var next := offset + PieceLength(offset, end, chunk);
    if n > 1 {
      EndsNever(next, end, chunk, n - 1);
    } else {
      assert PiecesEnd(next, end, chunk, 0) == next;
    }
  }

  /** The loop over the pieces ends if and only if the chunk size is positive or means a single piece, or the first
      piece is the last. */
  lemma EndsExact(offset: int, end: int, chunk: int)
    ensures Ends(offset, end, chunk) <==> exists n: nat :: EndsAt(offset, end, chunk, n)
  {
    hide Ends;
    if Ends(offset, end, chunk) {
      var n := EndsSome(offset, end, chunk);
    } else if n: nat :| EndsAt(offset, end, chunk, n) {
      EndsNever(offset, end, chunk, n);
    }
  }

  // Of a piece of `len` bytes of an object that has `left` bytes from there on, all that is wanted comes: the
  // length is one an int can hold, or the object is too short for the difference to show.
  predicate LengthKept(left: nat, len: int) {
    var n := ToInt(len);
    if len < 0 then left == 0 || n == 0 else n == len || left <= if n < 0 then len else n
  }

  function Left(obj: seq<Octet>, offset: nat): nat { if offset < |obj| then |obj| - offset else 0 }

  /** A fetcher gets the bytes of its piece if and only if the length survives as an int, or does not matter. */
  lemma LengthKeptExact(obj: seq<Octet>, offset: nat, len: int)
    ensures Wanted(obj, offset, ToInt(len)) == Slice(obj, offset, offset + len) <==> LengthKept(Left(obj, offset), len)
    ensures |Wanted(obj, offset, ToInt(len))| == |Slice(obj, offset, offset + len)| <==>
              LengthKept(Left(obj, offset), len)
  {
    var w, t := Wanted(obj, offset, ToInt(len)), Slice(obj, offset, offset + len);
    if |w| == |t| {
      assert w == t;
    }
  }

  // ---------- the bytes of the pieces

  // The object behind a key, and the first and last byte wanted of it.
  datatype ObjectInfo = ObjectInfo(content: seq<Octet>, start: nat, end: int)

  function Requested(o: ObjectInfo): seq<Octet> { Slice(o.content, o.start, o.end + 1) }

  // What the fetchers for the pieces from `offset` on get.
  function Delivered(obj: seq<Octet>, offset: nat, end: int, chunk: int): seq<Octet>
    requires Ends(offset, end, chunk)
    decreases end - offset
  {
    EndsStep(offset, end, chunk);
    var len := PieceLength(offset, end, chunk);
    Wanted(obj, offset, ToInt(len)) + if offset + len <= end then Delivered(obj, offset + len, end, chunk) else []
  }

  // Every piece is got as it should be.
  predicate PiecesKept(obj: seq<Octet>, offset: nat, end: int, chunk: int)
    requires Ends(offset, end, chunk)
    decreases end - offset
  {
    EndsStep(offset, end, chunk);
    var len := PieceLength(offset, end, chunk);
    && LengthKept(Left(obj, offset), len)
    && (offset + len <= end ==> PiecesKept(obj, offset + len, end, chunk))
  }

  lemma SliceJoin(obj: seq<Octet>, a: nat, b: nat, c: int)
    requires a <= b <= c
    ensures Slice(obj, a, b) + Slice(obj, b, c) == Slice(obj, a, c)
  {
  }

  /** The pieces together are the range asked for if every piece is got as it should be. */
  lemma {:induction false} DeliveredKept(obj: seq<Octet>, offset: nat, end: int, chunk: int)
    requires Ends(offset, end, chunk) && PiecesKept(obj, offset, end, chunk)
    ensures Delivered(obj, offset, end, chunk) == Slice(obj, offset, end + 1)
    decreases end - offset
  {
    hide Wanted, LengthKept, ToInt, Left;
    EndsStep(offset, end, chunk);
    var len := PieceLength(offset, end, chunk);
    LengthKeptExact(obj, offset, len);
    if offset + len <= end {
      DeliveredKept(obj, offset + len, end, chunk);
      SliceJoin(obj, offset, offset + len, end + 1);
    }
  }

  // With a chunk size below 2^32 no piece gets less than it should.
  lemma NoneShort(obj: seq<Octet>, offset: nat, end: int, chunk: int)
    requires 0 < chunk < TWO_32
    ensures |Wanted(obj, offset, ToInt(PieceLength(offset, end, chunk)))|
            >= |Slice(obj, offset, offset + PieceLength(offset, end, chunk))|
  {
  }

  lemma {:induction false} DeliveredLonger(obj: seq<Octet>, offset: nat, end: int, chunk: int)
    requires 0 < chunk < TWO_32
    ensures |Delivered(obj, offset, end, chunk)| >= |Slice(obj, offset, end + 1)|
    ensures !PiecesKept(obj, offset, end, chunk) ==>
              |Delivered(obj, offset, end, chunk)| > |Slice(obj, offset, end + 1)|
    decreases end - offset
  {
    hide Wanted, LengthKept, ToInt, Left, Slice;
    EndsStep(offset, end, chunk);
    var len := PieceLength(offset, end, chunk);
    LengthKeptExact(obj, offset, len);
    NoneShort(obj, offset, end, chunk);
    if offset + len <= end {
      DeliveredLonger(obj, offset + len, end, chunk);
      SliceJoin(obj, offset, offset + len, end + 1);
    }
  }

  /** They are that range, with one connection or a chunk size below 2^32, only if every piece is. */
  lemma DeliveredExact(obj: seq<Octet>, offset: nat, end: int, chunk: int)
    requires chunk == -1 || 0 < chunk < TWO_32
    ensures Delivered(obj, offset, end, chunk) == Slice(obj, offset, end + 1) <==> PiecesKept(obj, offset, end, chunk)
  {
    hide Wanted, LengthKept, ToInt, Left, Slice;
    if PiecesKept(obj, offset, end, chunk) {
      DeliveredKept(obj, offset, end, chunk);
    } else if chunk == -1 {
      LengthKeptExact(obj, offset, end - offset + 1);
    } else {
      DeliveredLonger(obj, offset, end, chunk);
    }
  }

  /** With larger chunks wrong pieces can make up for each other: of an object of more than one chunk, the first piece
      of 6 GiB brings everything and a second of 4 GiB nothing. */
  lemma BigChunksCoincide(obj: seq<Octet>)
    requires TWO_32 + TWO_31 < |obj| <= 2 * TWO_32 + TWO_31
    ensures var chunk, end := TWO_32 + TWO_31, 2 * TWO_32 + TWO_31 - 1;
            Delivered(obj, 0, end, chunk) == Slice(obj, 0, end + 1) && !PiecesKept(obj, 0, end, chunk)
  {
    var chunk, end := TWO_32 + TWO_31, 2 * TWO_32 + TWO_31 - 1;
    assert PieceLength(0, end, chunk) == chunk && ToInt(chunk) == -TWO_31;
    assert PieceLength(chunk, end, chunk) == TWO_32 && ToInt(TWO_32) == 0;
    assert Delivered(obj, chunk, end, chunk) == [];
    assert obj[0..] == obj;
  }

  /** With chunks of less than 2^31 bytes every piece is got as it should be. */
  lemma {:induction false} SmallChunksKept(obj: seq<Octet>, offset: nat, end: int, chunk: int)
    requires 0 < chunk < TWO_31 && offset <= end + 1
    ensures PiecesKept(obj, offset, end, chunk)
    decreases end - offset
  {
    hide Left;
    EndsStep(offset, end, chunk);
    var len := PieceLength(offset, end, chunk);
    if offset + len <= end {
      SmallChunksKept(obj, offset + len, end, chunk);
    }
  }

  /** With one connection a range of 2^32 + 5 bytes comes out as its first 5. */
  lemma LongRangeCut(obj: seq<Octet>)
    requires |obj| >= 5
    ensures Delivered(obj, 0, TWO_32 + 4, -1) == obj[..5]
  {
    assert obj[0..5] == obj[..5];
  }

  /** With one connection a range of 2 to 4 GiB comes out right if it goes to the end of the object. */
  lemma LongTailKept(obj: seq<Octet>, offset: nat, end: int)
    requires TWO_31 <= end - offset + 1 < TWO_32 && end + 1 >= |obj|
    ensures Delivered(obj, offset, end, -1) == Slice(obj, offset, end + 1)
  {
    DeliveredKept(obj, offset, end, -1);
  }

  // The request for the first piece names a range.
  predicate StartsRanged(o: ObjectInfo, chunk: int) {
    o.start > 0 || ToInt(PieceLength(o.start, o.end, chunk)) >= 0
  }

  function DeliveredOf(objects: seq<ObjectInfo>, chunk: int): seq<Octet>
    requires forall o :: o in objects ==> Ends(o.start, o.end, chunk)
  {
    if objects == [] then []
    else Delivered(objects[0].content, objects[0].start, objects[0].end, chunk) + DeliveredOf(objects[1..], chunk)
  }

  lemma {:induction false} DeliveredSnoc(objects: seq<ObjectInfo>, o: ObjectInfo, chunk: int)
    requires forall o' :: o' in objects + [o] ==> Ends(o'.start, o'.end, chunk)
    ensures DeliveredOf(objects + [o], chunk)
            == DeliveredOf(objects, chunk) + Delivered(o.content, o.start, o.end, chunk)
  {
    hide Delivered, Ends;
    if objects == [] {
      assert objects + [o] == [o] && [o][1..] == [];
      assert DeliveredOf([o], chunk) == Delivered(o.content, o.start, o.end, chunk) + DeliveredOf([], chunk);
    } else {
      DeliveredSnoc(objects[1..], o, chunk);
      assert (objects + [o])[1..] == objects[1..] + [o];
    }
  }

  // ---------- the fetchers of the pieces

  // Where the fetcher after fetcher i begins, or `end` behind the last one.
  ghost function Next(fs: seq<HTTPFetcher>, i: nat, end: int): int {
    if i + 1 < |fs| then fs[i + 1].mOffset else end
  }

  // A piece of `len` bytes.
  predicate PieceOk(f: HTTPFetcher, len: int, start: int, end: int, chunk: int) {
    f.mLen == ToInt(len) && (start <= end ==> 0 <= len) && (chunk > 0 ==> len <= chunk)
  }

  // The fetchers cover the bytes from `start` up to `end` one after the other, each of at most `chunk`
  // bytes when a chunk size is set; their lengths are what an int makes of these.
  ghost predicate Partition(fs: seq<HTTPFetcher>, start: nat, end: int, chunk: int) {
    && (forall i :: 0 <= i < |fs| ==> PieceOk(fs[i], Next(fs, i, end) - fs[i].mOffset, start, end, chunk))
    && (if fs == [] then start == end else fs[0].mOffset == start)
  }

  lemma PartitionEmpty(start: nat, chunk: int)
    ensures Partition([], start, start, chunk)
  {
  }

  lemma NextSnoc(fs: seq<HTTPFetcher>, f: HTTPFetcher, i: nat, end: int)
    requires i <= |fs|
    ensures Next(fs + [f], i, end) == if i == |fs| then end else Next(fs, i, f.mOffset)
  {
  }

  lemma PieceStays(f: HTTPFetcher, len: int, start: int, end: int, end': int, chunk: int)
    requires PieceOk(f, len, start, end, chunk) && start <= end
    ensures PieceOk(f, len, start, end', chunk)
  {
  }

  lemma PartitionSnoc(fs: seq<HTTPFetcher>, start: nat, end: nat, chunk: int, f: HTTPFetcher, len: int)
    requires Partition(fs, start, end, chunk) && f.mOffset == end && PieceOk(f, len, start, end + len, chunk)
    requires start <= end
    ensures Partition(fs + [f], start, end + len, chunk)
  {
    hide PieceOk, Next;
    var gs := fs + [f];
    forall i | 0 <= i < |gs|
      ensures PieceOk(gs[i], Next(gs, i, end + len) - gs[i].mOffset, start, end + len, chunk)
    {
      NextSnoc(fs, f, i, end + len);
      if i < |fs| {
        assert PieceOk(fs[i], Next(fs, i, end) - fs[i].mOffset, start, end, chunk);
        PieceStays(fs[i], Next(fs, i, end) - fs[i].mOffset, start, end, end + len, chunk);
      }
    }
  }

  lemma ObjectsJoin(a: seq<HTTPFetcher>, b: seq<HTTPFetcher>)
    ensures Objects(a + b) == Objects(a) + Objects(b)
  {
  }

  lemma NoObjects()
    ensures Objects([]) == {}
  {
  }

  lemma ObjectsOne(f: HTTPFetcher)
    ensures Objects([f]) == {f, f.mReadBuff}
  {
  }

  method AddChunk(pipeline: DownloadPipeline, info: ObjectInfo, offset: nat, len: int, buffSize: int)
    returns (fetcher: HTTPFetcher)
    requires pipeline.Valid() && pipeline.mActiveFetchers == []
    modifies pipeline`mPendingFetchers, pipeline`total
    ensures pipeline.Valid() && pipeline.mActiveFetchers == []
    ensures fresh(fetcher) && fresh(fetcher.mReadBuff) && fetcher.mOffset == offset && fetcher.mLen == ToInt(len)
    ensures fetcher.Intact()
    ensures pipeline.mPendingFetchers == old(pipeline.mPendingFetchers) + [fetcher]
    ensures pipeline.total == old(pipeline.total) + Wanted(info.content, offset, ToInt(len))
  {
    hide HTTPFetcher.Valid, Agree, InOrder, Wanted, Slice, Views, Separate, ToInt;
    fetcher := new HTTPFetcher(info.content, buffSize, offset, ToInt(len));
    pipeline.Add(fetcher);
  }

  // What has been added for the pieces before `offset`, and what will be for those from there on.
  lemma DeliveredStep(t: seq<Octet>, obj: seq<Octet>, offset: nat, end: int, chunk: int)
    requires Ends(offset, end, chunk)
    ensures var len := PieceLength(offset, end, chunk);
            && (offset + len <= end ==>
                  Ends(offset + len, end, chunk) && len > 0 &&
                  t + Delivered(obj, offset, end, chunk)
                  == t + Wanted(obj, offset, ToInt(len)) + Delivered(obj, offset + len, end, chunk))
            && (offset + len > end ==>
                  t + Delivered(obj, offset, end, chunk) == t + Wanted(obj, offset, ToInt(len)))
  {
    hide Wanted, ToInt;
    EndsStep(offset, end, chunk);
  }

  // Adds the fetchers for one object to the pipeline.
  method AddChunks(pipeline: DownloadPipeline, info: ObjectInfo, chunkSize: int, buffSize: int)
    requires pipeline.Valid() && pipeline.mActiveFetchers == []
    requires Ends(info.start, info.end, chunkSize)
    modifies pipeline`mPendingFetchers, pipeline`total
    ensures pipeline.Valid()
    ensures pipeline.total == old(pipeline.total) + Delivered(info.content, info.start, info.end, chunkSize)
    ensures old(pipeline.mPendingFetchers) <= pipeline.mPendingFetchers
    ensures var added := pipeline.mPendingFetchers[|old(pipeline.mPendingFetchers)|..];
            && added != [] && Partition(added, info.start, info.end + 1, chunkSize)
            && (StartsRanged(info, chunkSize) ==> AllRanged(added))
    ensures old(AllIntact(pipeline.Fetchers())) ==> AllIntact(pipeline.Fetchers())
    ensures pipeline.mActiveFetchers == [] && fresh(Objects(pipeline.Fetchers()) - old(Objects(pipeline.Fetchers())))
  {
    hide HTTPFetcher.Valid, DownloadPipeline.Valid, Wanted, Slice, Partition, Objects, ToInt, Delivered;
    ghost var before := pipeline.mPendingFetchers;
    ghost var added: seq<HTTPFetcher> := [];
    var offset: int := info.start;
    var len: int;
    var first := true;
    PartitionEmpty(info.start, chunkSize);
    assert fresh(Objects(added)) by { NoObjects(); }
    ghost var all := pipeline.total + Delivered(info.content, info.start, info.end, chunkSize);
    while first || offset <= info.end
      invariant first ==> offset == info.start
      invariant !first && offset <= info.end ==> offset > info.start
      invariant !first && offset > info.end ==> offset == info.end + 1
      invariant pipeline.Valid() && pipeline.mActiveFetchers == []
      invariant pipeline.mPendingFetchers == before + added && (first <==> added == [])
      invariant fresh(Objects(added))
      invariant AllIntact(added) && (old(AllIntact(pipeline.Fetchers())) ==> AllIntact(before))
      invariant Partition(added, info.start, offset, chunkSize)
      invariant StartsRanged(info, chunkSize) ==> AllRanged(added)
      invariant first || offset <= info.end ==>
                  Ends(offset, info.end, chunkSize)
                  && all == pipeline.total + Delivered(info.content, offset, info.end, chunkSize)
      invariant !first && offset > info.end ==> all == pipeline.total
      decreases first, info.end - offset
    {
      if chunkSize == -1 || offset + chunkSize > info.end {
        len := info.end - offset + 1;
      } else {
        len := chunkSize;
      }
      DeliveredStep(pipeline.total, info.content, offset, info.end, chunkSize);
      var fetcher := AddChunk(pipeline, info, offset, len, buffSize);
      PartitionSnoc(added, info.start, offset, chunkSize, fetcher, len);
      ObjectsJoin(added, [fetcher]);
      ObjectsOne(fetcher);
      added := added + [fetcher];
      offset := offset + len;
      first := false;
    }
    assert pipeline.Fetchers() == before + added && old(pipeline.Fetchers()) == before;
    ObjectsJoin(before, added);
  }

  // The chunk size in use: with one connection the whole range is one piece.
  function ChunkSize(nConnections: int, confChunkSize: int): int { if nConnections > 1 then confChunkSize else -1 }

  /** Divides the ranges of the objects into chunks, when there is more than one connection to use. */
  method SetupPipeline(objects: seq<ObjectInfo>, nConnections: int, confChunkSize: int) returns (p: DownloadPipeline)
    requires forall o :: o in objects ==> Ends(o.start, o.end, ChunkSize(nConnections, confChunkSize))
    ensures p.Valid() && fresh(p) && fresh(p.multi) && fresh(Objects(p.Fetchers()))
    ensures p.total == DeliveredOf(objects, ChunkSize(nConnections, confChunkSize))
    ensures p.returned == [] && p.mNConnections == nConnections && AllIntact(p.Fetchers())
    ensures (forall o :: o in objects ==> StartsRanged(o, ChunkSize(nConnections, confChunkSize))) ==>
              AllRanged(p.Fetchers())
  {
    hide HTTPFetcher.Valid, DownloadPipeline.Valid, Partition, Delivered, Ends, StartsRanged, ToInt;
    p := new DownloadPipeline(nConnections);
    var chunkSize, buffSize := -1, -1;
    if nConnections > 1 {
      chunkSize := confChunkSize;
      buffSize := if chunkSize > MAX_BUFFER then MAX_BUFFER else ToInt(chunkSize);
    }
    assert objects[..0] == [];
    for i := 0 to |objects|
      invariant p.Valid() && p.mActiveFetchers == [] && p.returned == []
      invariant p.total == DeliveredOf(objects[..i], chunkSize)
      invariant fresh(Objects(p.Fetchers())) && AllIntact(p.Fetchers())
      invariant (forall o :: o in objects ==> StartsRanged(o, chunkSize)) ==> AllRanged(p.Fetchers())
    {
      ghost var before := p.mPendingFetchers;
      AddChunks(p, objects[i], chunkSize, buffSize);
      DeliveredSnoc(objects[..i], objects[i], chunkSize);
      assert objects[..i + 1] == objects[..i] + [objects[i]];
      assert p.Fetchers() == before + p.mPendingFetchers[|before|..];
    }
    assert objects[..|objects|] == objects;
  }

  class QingStorReader {
    const pipeline: DownloadPipeline

    ghost predicate Valid()
      reads this, pipeline, pipeline.multi, pipeline.Fetchers(), Objects(pipeline.Fetchers())
    {
      pipeline.Valid()
    }

    constructor (objects: seq<ObjectInfo>, nConnections: int, confChunkSize: int)
      requires forall o :: o in objects ==> Ends(o.start, o.end, ChunkSize(nConnections, confChunkSize))
      ensures Valid() && fresh(pipeline) && fresh(pipeline.multi) && fresh(Objects(pipeline.Fetchers()))
      ensures pipeline.total == DeliveredOf(objects, ChunkSize(nConnections, confChunkSize)) && pipeline.returned == []
      ensures pipeline.mNConnections == nConnections && AllIntact(pipeline.Fetchers())
      ensures (forall o :: o in objects ==> StartsRanged(o, ChunkSize(nConnections, confChunkSize))) ==>
                AllRanged(pipeline.Fetchers())
    {
      hide DownloadPipeline.Valid, HTTPFetcher.Valid;
      var p := SetupPipeline(objects, nConnections, confChunkSize);
      pipeline := p;
    }

    /** Reads the next bytes; the end of the data is the source's end-of-stream exception. */
    method TransferData(buffsize: nat, rounds: seq<Round>, eager: nat -> bool) returns (r: ReadResult)
      requires Valid()
      modifies pipeline`mActiveFetchers, pipeline`mPendingFetchers, pipeline`returned, pipeline`total, pipeline.multi,
               Objects(pipeline.Fetchers())
      ensures old(AllIntact(pipeline.Fetchers())) && (buffsize > 0 || AllRanged(old(pipeline.Fetchers()))) ==>
                AllIntact(pipeline.Fetchers()) && pipeline.total == old(pipeline.total)
      ensures AllRanged(old(pipeline.Fetchers())) ==> AllRanged(pipeline.Fetchers())
      ensures Valid() && Objects(pipeline.Fetchers()) <= old(Objects(pipeline.Fetchers()))
      ensures pipeline.returned == old(pipeline.returned) + if r.Data? then r.bytes else []
      ensures pipeline.returned <= pipeline.total
      ensures r == Eof && pipeline.mNConnections > 0 ==> pipeline.returned == pipeline.total
    {
      hide HTTPFetcher.Valid, DownloadPipeline.Valid;
      r := pipeline.Read(buffsize, rounds, eager);
    }
  }

  // One call of transferData: the size of the buffer, and what happens on the network meanwhile.
  datatype Call = Call(buffsize: nat, rounds: seq<Round>, eager: nat -> bool)

  /** Any sequence of reads into buffers that are not empty, with any interleaving of arriving data, pauses, failures
      and restarts: what has been read is the beginning of what the fetchers get, and all of it once the end is
      reported; and what they get is the range asked for if its pieces are not too long. With empty buffers this
      holds if every request names a range. */
  method Download(info: ObjectInfo, nConnections: int, confChunkSize: int, calls: seq<Call>)
    returns (bytes: seq<Octet>, ended: bool)
    requires nConnections > 0 && Ends(info.start, info.end, ChunkSize(nConnections, confChunkSize))
    ensures var chunk := ChunkSize(nConnections, confChunkSize);
            (forall i :: 0 <= i < |calls| ==> calls[i].buffsize > 0) || StartsRanged(info, chunk) ==>
              && bytes <= Delivered(info.content, info.start, info.end, chunk)
              && (ended ==> bytes == Delivered(info.content, info.start, info.end, chunk))
              && (PiecesKept(info.content, info.start, info.end, chunk) ==>
                    bytes <= Requested(info) && (ended ==> bytes == Requested(info)))
  {
    hide HTTPFetcher.Valid, DownloadPipeline.Valid, Slice, Delivered, PiecesKept, StartsRanged, Ends;
    ghost var chunk := ChunkSize(nConnections, confChunkSize);
    ghost var all := Delivered(info.content, info.start, info.end, chunk);
    ghost var safe := (forall i :: 0 <= i < |calls| ==> calls[i].buffsize > 0) || StartsRanged(info, chunk);
    var reader := new QingStorReader([info], nConnections, confChunkSize);
    DeliveredSnoc([], info, chunk);
    assert [] + [info] == [info] && [] + all == all;
    bytes, ended := [], false;
    for i := 0 to |calls|
      invariant reader.Valid() && bytes == reader.pipeline.returned <= reader.pipeline.total
      invariant StartsRanged(info, chunk) ==> AllRanged(reader.pipeline.Fetchers())
      invariant safe ==> AllIntact(reader.pipeline.Fetchers()) && reader.pipeline.total == all
      invariant fresh(Objects(reader.pipeline.Fetchers()))
      invariant ended && safe ==> bytes == all
    {
      var r := reader.TransferData(calls[i].buffsize, calls[i].rounds, calls[i].eager);
      if r.Data? {
        bytes := bytes + r.bytes;
      } else if r.Eof? {
        ended := true;
      }
    }
    if PiecesKept(info.content, info.start, info.end, chunk) {
      DeliveredKept(info.content, info.start, info.end, chunk);
    }
  }
}
