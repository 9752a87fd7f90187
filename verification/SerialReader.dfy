/** The buffered UART reader as the object that the host tool uses: a queue kept as
a list of chunks, changed in place inside the critical sections that SerialProtocol
interleaves.  Each method refines one operation of SerialQueue. */
module SerialReader {
  import opened Wrappers
  import opened SerialQueue

  function Concat<T>(pieces: seq<seq<T>>): seq<T> {
    if pieces == [] then [] else pieces[0] + Concat(pieces[1..])
  }

  lemma {:induction false} ConcatJoin<T>(a: seq<seq<T>>, b: seq<seq<T>>)
    ensures Concat(a + b) == Concat(a) + Concat(b)
  {
    if a == [] {
      assert a + b == b;
    } else {
      assert (a + b)[0] == a[0] && (a + b)[1..] == a[1..] + b;
      ConcatJoin(a[1..], b);
    }
  }

  lemma ConcatSnoc<T>(a: seq<seq<T>>, piece: seq<T>)
    ensures Concat(a + [piece]) == Concat(a) + piece
  {
    ConcatJoin(a, [piece]);
    assert Concat([piece]) == piece + Concat([]);
  }

  datatype Stats = Stats(
    started: bool,
    failed: bool,
    overflowed: bool,
    accountedBytes: nat,
    allReaderBytesAccounted: bool,
    physicalPendingAtCutoff: nat,
    physicalFinalDrainBytes: nat)

  class BufferedSerialReader<T> {
    const maxBufferBytes: nat
    var started: bool
    var chunks: seq<seq<T>>
    var bufferedBytes: nat
    var readerError: bool
    var readerBytes: nat
    var readerChunks: nat
    var consumerBytes: nat
    var consumerReads: nat
    var maxBufferedBytes: nat
    var inputResets: nat
    var discardedBufferedBytes: nat
    var overflowBytes: nat
    var cutoffTaken: bool
    var physicalPendingAtCutoff: nat
    var physicalFinalDrainBytes: nat

    /** The abstract queue this object stands for. */
    ghost function Value(): Queue<T>
      reads this
    {
      Queue(Concat(chunks), maxBufferBytes, readerBytes, readerChunks, consumerBytes, consumerReads,
            discardedBufferedBytes, overflowBytes, maxBufferedBytes, inputResets, physicalFinalDrainBytes)
    }

    ghost predicate Valid()
      reads this
    {
      && bufferedBytes == |Concat(chunks)|
      && (forall i :: 0 <= i < |chunks| ==> chunks[i] != [])
      && Accounted(Value())
    }

    constructor (limit: nat)
      requires 0 < limit
      ensures Valid() && Value() == Empty(limit)
      ensures !started && !readerError && !cutoffTaken && physicalPendingAtCutoff == 0
    {
      maxBufferBytes := limit;
      started, readerError, cutoffTaken := false, false, false;
      chunks, bufferedBytes := [], 0;
      readerBytes, readerChunks, consumerBytes, consumerReads := 0, 0, 0, 0;
      maxBufferedBytes, inputResets, discardedBufferedBytes, overflowBytes := 0, 0, 0, 0;
      physicalPendingAtCutoff, physicalFinalDrainBytes := 0, 0;
    }

    /** Construction with the argument checks of the tool. */
    static method Create(stopTimeout: real, limit: int) returns (r: Option<BufferedSerialReader<T>>)
      ensures r.Some? <==> 0.0 < stopTimeout && 0 < limit
      ensures r.Some? ==> fresh(r.value) && r.value.Valid() && r.value.Value() == Empty(limit)
    {
      if stopTimeout <= 0.0 || limit <= 0 {
        return None;
      }
      var reader := new BufferedSerialReader<T>(limit);
      return Some(reader);
    }

    /** Count a chunk from the port, then queue it or report the overflow. */
    method AppendReaderChunk(chunk: seq<T>, physicalFinalDrain: bool) returns (ok: bool)
      requires Valid() && chunk != []
      modifies this`chunks, this`bufferedBytes, this`readerBytes, this`readerChunks, this`overflowBytes,
               this`maxBufferedBytes, this`physicalFinalDrainBytes
      ensures Valid()
      ensures Value() == Append(old(Value()), chunk, physicalFinalDrain)
      ensures ok <==> Fits(old(Value()), chunk)
    {
      readerBytes := readerBytes + |chunk|;
      readerChunks := readerChunks + 1;
      physicalFinalDrainBytes := physicalFinalDrainBytes + (if physicalFinalDrain then |chunk| else 0);
      if bufferedBytes + |chunk| > maxBufferBytes {
        overflowBytes := overflowBytes + |chunk|;
        return false;
      }
      ConcatSnoc(chunks, chunk);
      chunks := chunks + [chunk];
      bufferedBytes := bufferedBytes + |chunk|;
      if maxBufferedBytes < bufferedBytes {
        maxBufferedBytes := bufferedBytes;
      }
      return true;
    }

    /** Bytes waiting, or the reader's failure. */
    method InWaiting() returns (r: Result<nat, ()>)
      requires Valid()
      ensures r == if readerError then Err(()) else Ok(|Value().content|)
    {
      return if readerError then Err(()) else Ok(bufferedBytes);
    }

    /** Pop whole chunks, then split one, until `take` bytes have been moved. */
    static method PopFront(queue: seq<seq<T>>, take: nat) returns (chunk: seq<T>, rest: seq<seq<T>>)
      requires take <= |Concat(queue)| && forall i :: 0 <= i < |queue| ==> queue[i] != []
      ensures chunk == Concat(queue)[..take] && Concat(rest) == Concat(queue)[take..]
      ensures forall i :: 0 <= i < |rest| ==> rest[i] != []
    {
      var pieces: seq<seq<T>> := [];
      var remaining := take;
      rest := queue;
      while remaining != 0
        invariant 0 <= remaining && |Concat(pieces)| + remaining == take
        invariant Concat(pieces) + Concat(rest) == Concat(queue)
        invariant forall i :: 0 <= i < |rest| ==> rest[i] != []
        decreases remaining
      {
        assert |Concat(rest)| == |Concat(queue)| - |Concat(pieces)|;
        var head := rest[0];
        ghost var others := Concat(rest[1..]);
        if |head| <= remaining {
          ConcatSnoc(pieces, head);
          pieces := pieces + [head];
          rest := rest[1..];
          remaining := remaining - |head|;
          assert Concat(pieces) + others == Concat(queue);
        } else {
          ConcatSnoc(pieces, head[..remaining]);
          pieces := pieces + [head[..remaining]];
          rest := [head[remaining..]] + rest[1..];
          assert Concat(rest) == head[remaining..] + others;
          assert head == head[..remaining] + head[remaining..];
          remaining := 0;
        }
      }
      chunk := Concat(pieces);
    }

    /** Remove up to `size` bytes.  An empty queue is where the tool waits; when the
        wait ends without data it returns nothing, or raises the reader's failure. */
    method Read(size: int) returns (r: Result<seq<T>, ()>)
      requires Valid()
      modifies this`chunks, this`bufferedBytes, this`consumerBytes, this`consumerReads
      ensures Valid()
      ensures size <= 0 ==> r == Ok([])
      ensures 0 < size && old(Value()).content == [] ==> r == if old(readerError) then Err(()) else Ok([])
      ensures size <= 0 || old(Value()).content == [] ==> Value() == old(Value())
      ensures 0 < size && old(Value()).content != [] ==>
                r == Ok(Taken(old(Value()), size)) && Value() == Take(old(Value()), size)
    {
      if size <= 0 {
        return Ok([]);
      }
      if chunks == [] {
        return if readerError then Err(()) else Ok([]);
      }
      assert chunks[0] != [] && Concat(chunks) == chunks[0] + Concat(chunks[1..]);
      var chunk, rest := PopFront(chunks, if size < bufferedBytes then size else bufferedBytes);
      chunks := rest;
      bufferedBytes := bufferedBytes - |chunk|;
      consumerBytes := consumerBytes + |chunk|;
      consumerReads := consumerReads + 1;
      return Ok(chunk);
    }

    /** The queue half of a reset; the caller has just emptied the kernel buffer. */
    method ResetInputBuffer() returns (ok: bool)
      requires Valid()
      modifies this`chunks, this`bufferedBytes, this`discardedBufferedBytes, this`inputResets
      ensures Valid()
      ensures ok <==> !old(readerError)
      ensures Value() == if ok then Discard(old(Value())) else old(Value())
    {
      if readerError {
        return false;
      }
      discardedBufferedBytes := discardedBufferedBytes + bufferedBytes;
      chunks := [];
      bufferedBytes := 0;
      inputResets := inputResets + 1;
      return true;
    }

    /** The part of stop() after the thread has been joined: `waiting` is what the
        driver reports pending, `finalChunk` what reading that much returned. */
    method FinalDrain(waiting: int, finalChunk: seq<T>) returns (ok: bool)
      requires Valid()
      requires 0 <= waiting ==> |finalChunk| <= waiting
      modifies this
      ensures Valid()
      ensures ok <==> !old(readerError) && 0 <= waiting && |finalChunk| == waiting && Fits(old(Value()), finalChunk)
      ensures readerError == !ok
      ensures cutoffTaken == (old(cutoffTaken) || 0 <= waiting)
      ensures 0 <= waiting ==> physicalPendingAtCutoff == waiting
      ensures Value() == if waiting < 0 || finalChunk == [] then old(Value())
                         else Append(old(Value()), finalChunk, true)
    {
      var failed := false;
      if waiting < 0 {
        failed := true;
      } else {
        cutoffTaken := true;
        physicalPendingAtCutoff := waiting;
        if finalChunk != [] {
          var fits := AppendReaderChunk(finalChunk, true);
          failed := !fits;
        }
        failed := failed || |finalChunk| != waiting;
      }
      readerError := readerError || failed;
      return !readerError;
    }

    /** The self-audit always balances. */
    method GetStats() returns (r: Stats)
      requires Valid()
      ensures r.allReaderBytesAccounted && r.accountedBytes == Value().readerBytes
      ensures r.overflowed <==> 0 < Value().overflow
      ensures r.started == started && r.failed == readerError
      ensures r.physicalPendingAtCutoff == physicalPendingAtCutoff
      ensures r.physicalFinalDrainBytes == Value().finalDrain
    {
      var accounted := consumerBytes + discardedBufferedBytes + bufferedBytes + overflowBytes;
      return Stats(started, readerError, overflowBytes > 0, accounted, accounted == readerBytes,
                   physicalPendingAtCutoff, physicalFinalDrainBytes);
    }
  }
}
