/** Writing an object as a multipart upload (QingStorWriter.cpp). */
module MultipartWriter {
  import opened Common

  // The data of parts 0 .. n-1, one after the other.
  function Joined(parts: map<nat, seq<Octet>>, n: nat): seq<Octet>
    requires forall i :: 0 <= i < n ==> i in parts
  {
    if n == 0 then [] else Joined(parts, n - 1) + parts[n - 1]
  }

  lemma {:induction false} JoinedKeeps(parts: map<nat, seq<Octet>>, k: nat, data: seq<Octet>, n: nat)
    requires (forall i :: 0 <= i < n ==> i in parts) && n <= k
    ensures Joined(parts[k := data], n) == Joined(parts, n)
  {
    if n > 0 {
      JoinedKeeps(parts, k, data, n - 1);
    }
  }

  // The object a completed upload stands for: the listed parts in the order of the list.
  function Assembled(parts: map<nat, seq<Octet>>, numbers: seq<nat>): seq<Octet>
    requires forall k :: k in numbers ==> k in parts
  {
    if numbers == [] then [] else parts[numbers[0]] + Assembled(parts, numbers[1..])
  }

  lemma {:induction false} AssembledSnoc(parts: map<nat, seq<Octet>>, numbers: seq<nat>, k: nat)
    requires (forall j :: j in numbers ==> j in parts) && k in parts
    ensures forall j :: j in numbers + [k] ==> j in parts
    ensures Assembled(parts, numbers + [k]) == Assembled(parts, numbers) + parts[k]
  {
    if numbers == [] {
      assert [k][1..] == [] && numbers + [k] == [k];
      assert Assembled(parts, [k]) == parts[k] + Assembled(parts, []);
    } else {
      assert (numbers + [k])[1..] == numbers[1..] + [k];
      AssembledSnoc(parts, numbers[1..], k);
    }
  }

  function Numbers(n: nat): seq<nat> {
    if n == 0 then [] else Numbers(n - 1) + [n - 1]
  }

  lemma {:induction false} AssembledJoined(parts: map<nat, seq<Octet>>, n: nat)
    requires forall i :: 0 <= i < n ==> i in parts
    ensures forall k :: k in Numbers(n) ==> k in parts
    ensures Assembled(parts, Numbers(n)) == Joined(parts, n)
  {
    if n > 0 {
      AssembledJoined(parts, n - 1);
      AssembledSnoc(parts, Numbers(n - 1), n - 1);
    }
  }

  // The list of part numbers sent to complete the upload.
  method PartNumbers(n: nat) returns (numbers: seq<nat>)
    ensures numbers == Numbers(n)
    ensures |numbers| == n && forall i :: 0 <= i < n ==> numbers[i] == i
  {
    numbers := [];
    for i := 0 to n
      invariant numbers == Numbers(i) && |numbers| == i && forall j :: 0 <= j < i ==> numbers[j] == j
    {
      numbers := numbers + [i];
    }
  }

  // The service's side of one upload. Requests are counted; those in `faults` fail in the caller's eyes,
  // but those also in `stored` have had their effect.
  class Upload {
    const faults: iset<nat>
    const stored: iset<nat>
    var requests: nat
    var parts: map<nat, seq<Octet>>
    var listed: Option<seq<nat>>      // the part numbers the upload was completed with
    var aborted: bool

    constructor (faults: iset<nat>, stored: iset<nat>)
      ensures parts == map[] && listed == None && !aborted && this.faults == faults
    {
      this.faults, this.stored := faults, stored;
      requests, parts, listed, aborted := 0, map[], None, false;
    }

    method PutPart(number: nat, data: seq<Octet>) returns (ok: bool)
      modifies this`requests, this`parts
      ensures requests == old(requests) + 1
      ensures ok <==> old(requests) !in faults
      ensures parts == if ok || old(requests) in stored then old(parts)[number := data] else old(parts)
    {
      ok := requests !in faults;
      var takesEffect := ok || requests in stored;
      requests := requests + 1;
      if takesEffect {
        parts := parts[number := data];
      }
    }

    method Complete(numbers: seq<nat>) returns (ok: bool)
      modifies this`requests, this`listed
      ensures requests == old(requests) + 1
      ensures ok <==> old(requests) !in faults
      ensures listed == if ok || old(requests) in stored then Some(numbers) else old(listed)
    {
      ok := requests !in faults;
      var takesEffect := ok || requests in stored;
      requests := requests + 1;
      if takesEffect {
        listed := Some(numbers);
      }
    }

    method Abort() returns (ok: bool)
      modifies this`requests, this`aborted
      ensures requests == old(requests) + 1
      ensures ok <==> old(requests) !in faults
      ensures aborted <==> ok || old(requests) in stored || old(aborted)
    {
      ok := requests !in faults;
      aborted := ok || requests in stored || aborted;
      requests := requests + 1;
    }
  }

  class QingStorWriter {
    const mCache: bool
    const mBuffSize: nat
    const mBuffer: array<Octet>
    const service: Upload
    var mWritePos: nat
    var mPartNum: nat
    var mCanceled: bool
    ghost var written: seq<Octet>     // all bytes taken from the caller

    // The parts sent and the bytes buffered are the bytes taken, in order.
    ghost predicate Valid()
      reads this, mBuffer, service`parts
    {
      && 0 < mBuffSize == mBuffer.Length && mWritePos <= mBuffSize && (!mCache ==> mWritePos == 0)
      && (forall i :: 0 <= i < mPartNum ==> i in service.parts)
      && written == Joined(service.parts, mPartNum) + mBuffer[..mWritePos]
    }

    // Every part sent so far is as long as the buffer.
    ghost predicate FullParts()
      reads this, service`parts
    {
      forall i :: 0 <= i < mPartNum ==> i in service.parts && |service.parts[i]| == mBuffSize
    }

    constructor (service: Upload, chunkSize: nat, cache: bool)
      requires chunkSize > 0 && service.parts == map[]
      ensures Valid() && FullParts() && written == [] && mPartNum == 0 && !mCanceled
      ensures this.service == service && mCache == cache && mBuffSize == chunkSize && fresh(mBuffer)
    {
      this.service := service;
      mCache, mBuffSize := cache, chunkSize;
      mBuffer := new Octet[chunkSize];
      mWritePos, mPartNum, mCanceled, written := 0, 0, false, [];
    }

    // Uploads the next part; a failure is the source's exception.
    method DoSend(data: seq<Octet>) returns (ok: bool)
      requires Valid()
      modifies this`mPartNum, service`requests, service`parts
      ensures (forall i :: 0 <= i < mPartNum ==> i in service.parts)
      ensures ok <==> old(service.requests) !in service.faults
      ensures ok ==> mPartNum == old(mPartNum) + 1 && service.parts == old(service.parts)[old(mPartNum) := data]
                     && Joined(service.parts, mPartNum) == Joined(old(service.parts), old(mPartNum)) + data
      ensures !ok ==>
                mPartNum == old(mPartNum) && Joined(service.parts, mPartNum) == Joined(old(service.parts), mPartNum)
      ensures forall i :: i in old(service.parts) && i != old(mPartNum) ==>
              i in service.parts && service.parts[i] == old(service.parts)[i]
    {
      JoinedKeeps(service.parts, mPartNum, data, mPartNum);
      ok := service.PutPart(mPartNum, data);
      if ok {
        mPartNum := mPartNum + 1;
      }
    }

    // Copies bytes into the buffer until it is full or there are no more.
    method FillBuffer(buffer: seq<Octet>, from: nat) returns (buffPos: nat)
      requires Valid() && mCache && from < |buffer|
      modifies this`mWritePos, this`written, mBuffer
      ensures Valid() && from <= buffPos <= |buffer| && mBuffSize > 0
      ensures buffPos == |buffer| || mWritePos == mBuffSize
      ensures buffPos - from == mWritePos - old(mWritePos)
      ensures old(FullParts()) ==> FullParts()
      ensures written == old(written) + buffer[from..buffPos]
    {
      hide Joined;
      ghost var sent, held := Joined(service.parts, mPartNum), mBuffer[..mWritePos];
      buffPos := from;
      while mWritePos != mBuffSize
        invariant from <= buffPos <= |buffer| && mWritePos <= mBuffSize
        invariant mWritePos - old(mWritePos) == buffPos - from && written == old(written)
        invariant Joined(service.parts, mPartNum) == sent
        invariant mWritePos != mBuffSize ==> buffPos < |buffer|
        invariant mBuffer[..mWritePos] == held + buffer[from..buffPos]
        decreases mBuffSize - mWritePos
      {
        ghost var before := mBuffer[..mWritePos];
        mBuffer[mWritePos] := buffer[buffPos];
        assert mBuffer[..mWritePos + 1] == before + [buffer[buffPos]];
        assert buffer[from..buffPos + 1] == buffer[from..buffPos] + [buffer[buffPos]];
        mWritePos, buffPos := mWritePos + 1, buffPos + 1;
        if buffPos == |buffer| {
          break;
        }
      }
      Regroup(sent, held, buffer[from..buffPos]);
      written := written + buffer[from..buffPos];
    }

    // Sends the full buffer.
    method SendBuffer() returns (ok: bool)
      requires Valid() && mWritePos == mBuffSize && mCache
      modifies this`mPartNum, this`mWritePos, service`requests, service`parts
      ensures Valid()
      ensures ok <==> old(service.requests) !in service.faults
      ensures ok ==> mWritePos == 0 && mPartNum == old(mPartNum) + 1
      ensures !ok ==> mWritePos == mBuffSize && mPartNum == old(mPartNum)
      ensures old(FullParts()) ==> FullParts()
    {
      assert mBuffer[..mWritePos] == mBuffer[..];
      ok := DoSend(mBuffer[..]);
      if ok {
        mWritePos := 0;
      }
    }

    // The cached mode: parts are sent as the buffer fills up.
    method TransferCached(buffer: seq<Octet>) returns (ok: bool)
      requires Valid() && mCache
      modifies this`mWritePos, this`mPartNum, this`written, mBuffer, service`requests, service`parts
      ensures Valid()
      ensures ok ==> written == old(written) + buffer
      ensures exists k :: 0 <= k <= |buffer| && written == old(written) + buffer[..k]
      ensures old(FullParts()) ==> FullParts()
      ensures service.faults == iset{} ==> ok
    {
      hide Valid, FullParts;
      ok := true;
      var buffPos := 0;
      while buffPos != |buffer|
        invariant ok && 0 <= buffPos <= |buffer| && Valid()
        invariant written == old(written) + buffer[..buffPos]
        invariant old(FullParts()) ==> FullParts()
        decreases |buffer| - buffPos, mWritePos == mBuffSize
      {
        ghost var start := buffPos;
        buffPos := FillBuffer(buffer, buffPos);
        assert buffer[..buffPos] == buffer[..start] + buffer[start..buffPos];
        if mWritePos == mBuffSize {
          ok := SendBuffer();
          if !ok {
            return;
          }
        }
      }
      assert buffer[..|buffer|] == buffer;
    }

    /** Takes bytes from the caller. With the cache, parts are sent as the buffer fills up and are all as
        long as the buffer; without it, the bytes are a part. If an upload fails, a part of the bytes may
        have been taken all the same, and later calls go on from there. */
    method TransferData(buffer: seq<Octet>) returns (ok: bool)
      requires Valid()
      modifies this`mWritePos, this`mPartNum, this`written, mBuffer, service`requests, service`parts
      ensures Valid()
      ensures ok ==> written == old(written) + buffer
      ensures exists k :: 0 <= k <= |buffer| && written == old(written) + buffer[..k]
      ensures mCache && old(FullParts()) ==> FullParts()
      ensures ok && !mCache ==>
                mPartNum == old(mPartNum) + 1 && service.parts == old(service.parts)[old(mPartNum) := buffer]
      ensures service.faults == iset{} ==> ok
    {
      if !mCache {
        assert buffer[..0] == [] && buffer[..|buffer|] == buffer;
        ok := DoSend(buffer);
        if ok {
          written := written + buffer;
        } else {
          assert written == old(written) + buffer[..0];
        }
      } else {
        ok := TransferCached(buffer);
      }
    }

    // Sends what is buffered, even nothing; without the cache, an empty part if there is no other.
    method Flush() returns (ok: bool)
      requires Valid()
      modifies this`mWritePos, this`mPartNum, service`requests, service`parts
      ensures Valid()
      ensures ok ==> mPartNum > 0 && mWritePos == 0 && written == Joined(service.parts, mPartNum)
      ensures ok && mCache ==> mPartNum == old(mPartNum) + 1
                               && service.parts == old(service.parts)[old(mPartNum) := old(mBuffer[..mWritePos])]
      ensures ok && !mCache ==> mPartNum == if old(mPartNum) == 0 then 1 else old(mPartNum)
      ensures service.faults == iset{} ==> ok
    {
      ok := true;
      if mCache {
        ok := DoSend(mBuffer[..mWritePos]);
        if ok {
          mWritePos := 0;
        }
      } else if mPartNum == 0 {
        ok := DoSend(mBuffer[..mWritePos]);
      }
    }

    /** Completes the upload with the numbers of all parts sent. The object then consists of all bytes
        taken, in order, whether or not they went through the cache. */
    method Close() returns (ok: bool)
      requires Valid()
      modifies this`mWritePos, this`mPartNum, service`requests, service`parts, service`listed
      ensures !mCanceled && (ok || service.listed != old(service.listed)) ==>
                && service.listed == Some(Numbers(mPartNum)) && mPartNum > 0
                && (forall k :: k in Numbers(mPartNum) ==> k in service.parts)
                && Assembled(service.parts, Numbers(mPartNum)) == written
      ensures ok && !mCanceled && mCache && old(FullParts()) ==>
                && (forall i :: 0 <= i < mPartNum - 1 ==> i in service.parts && |service.parts[i]| == mBuffSize)
                && mPartNum - 1 in service.parts && |service.parts[mPartNum - 1]| <= mBuffSize
      ensures mCanceled ==> ok && service.parts == old(service.parts) && service.listed == old(service.listed)
      ensures mCanceled ==> service.requests == old(service.requests)
      ensures service.faults == iset{} ==> ok
    {
      ok := true;
      if !mCanceled {
        ok := Flush();
        if ok {
          AssembledJoined(service.parts, mPartNum);
          var numbers := PartNumbers(mPartNum);
          ok := service.Complete(numbers);
        }
      }
    }

    /** Gives the upload up: closing sends nothing any more. If the service cannot be told, nothing has changed
        for the writer. */
    method Cancel() returns (ok: bool)
      requires Valid()
      modifies this`mPartNum, this`mCanceled, this`written, service`requests, service`aborted
      ensures Valid()
      ensures ok <==> old(service.requests) !in service.faults
      ensures ok ==> service.aborted && mCanceled && mPartNum == 0 && written == mBuffer[..mWritePos]
      ensures !ok ==> mCanceled == old(mCanceled) && mPartNum == old(mPartNum) && written == old(written)
    {
      ok := service.Abort();
      if ok {
        mPartNum, mCanceled, written := 0, true, mBuffer[..mWritePos];
      }
    }
  }

  function Bytes(writes: seq<seq<Octet>>): seq<Octet> {
    if writes == [] then [] else Bytes(writes[..|writes| - 1]) + writes[|writes| - 1]
  }

  /** Any writes, through either mode, make the object that holds exactly their bytes if no request fails;
      and no other object comes about, whatever fails. */
  method WriteObject(chunkSize: nat, cache: bool, faults: iset<nat>, stored: iset<nat>, writes: seq<seq<Octet>>)
    returns (service: Upload, ok: bool)
    requires chunkSize > 0
    ensures faults == iset{} ==> ok
    ensures ok ==> service.listed.Some?
    ensures service.listed.Some? ==>
              && (forall k :: k in service.listed.value ==> k in service.parts)
              && Assembled(service.parts, service.listed.value) == Bytes(writes)
  {
    service := new Upload(faults, stored);
    var writer := new QingStorWriter(service, chunkSize, cache);
    for i := 0 to |writes|
      invariant writer.Valid() && !writer.mCanceled && writer.service == service && fresh(service) && fresh(writer)
      invariant service.faults == faults && fresh(writer.mBuffer) && service.listed == None
      invariant writer.written == Bytes(writes[..i])
    {
      assert writes[..i + 1][..i] == writes[..i];
      ok := writer.TransferData(writes[i]);
      if !ok {
        return;
      }
    }
    assert writes[..|writes|] == writes;
    ok := writer.Close();
  }

  // Writes, whether or not they fail.
  method TryWrites(writer: QingStorWriter, writes: seq<seq<Octet>>)
    requires writer.Valid()
    modifies writer`mWritePos, writer`mPartNum, writer`written, writer.mBuffer, writer.service`requests,
             writer.service`parts
    ensures writer.Valid()
  {
    for i := 0 to |writes|
      invariant writer.Valid()
    {
      var _ := writer.TransferData(writes[i]);
    }
  }

  /** An upload given up between any writes makes no object, whatever fails, and closing it succeeds. If the service
      cannot be told of it, closing makes the object as if nothing had happened, of all bytes taken. */
  method CancelObject(chunkSize: nat, cache: bool, faults: iset<nat>, stored: iset<nat>, before: seq<seq<Octet>>,
                      after: seq<seq<Octet>>)
    returns (service: Upload, writer: QingStorWriter, canceled: bool, closed: bool)
    requires chunkSize > 0
    ensures faults == iset{} ==> canceled
    ensures canceled ==> closed && service.listed == None && service.aborted
    ensures !canceled && closed ==>
              && service.listed.Some? && (forall k :: k in service.listed.value ==> k in service.parts)
              && Assembled(service.parts, service.listed.value) == writer.written
  {
    service := new Upload(faults, stored);
    writer := new QingStorWriter(service, chunkSize, cache);
    TryWrites(writer, before);
    canceled := writer.Cancel();
    TryWrites(writer, after);
    closed := writer.Close();
  }
}
