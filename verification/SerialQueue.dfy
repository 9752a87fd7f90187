/** What the condition variable of the UART reader protects, as a value: one
bounded FIFO with its counters.  The queue is a flat sequence here; the class in
SerialReader keeps it as a list of chunks and refines these operations. */
module SerialQueue {
  datatype Queue<T> = Queue(
    content: seq<T>,
    limit: nat,
    readerBytes: nat,
    readerChunks: nat,
    consumerBytes: nat,
    consumerReads: nat,
    discarded: nat,
    overflow: nat,
    maxBuffered: nat,
    resets: nat,
    finalDrain: nat)

  function Empty<T>(limit: nat): Queue<T> {
    Queue([], limit, 0, 0, 0, 0, 0, 0, 0, 0, 0)
  }

  predicate Fits<T>(q: Queue<T>, chunk: seq<T>) {
    |q.content| + |chunk| <= q.limit
  }

  /** Every chunk is counted as read; one that does not fit is counted as lost
      instead of being queued. */
  function Append<T>(q: Queue<T>, chunk: seq<T>, isFinal: bool): Queue<T> {
    var counted := q.(
      readerBytes := q.readerBytes + |chunk|,
      readerChunks := q.readerChunks + 1,
      finalDrain := q.finalDrain + if isFinal then |chunk| else 0);
    if !Fits(q, chunk) then
      counted.(overflow := q.overflow + |chunk|)
    else
      var content := q.content + chunk;
      counted.(content := content, maxBuffered := if q.maxBuffered < |content| then |content| else q.maxBuffered)
  }

  function Taken<T>(q: Queue<T>, size: nat): seq<T> {
    q.content[..if size < |q.content| then size else |q.content|]
  }

  function Take<T>(q: Queue<T>, size: nat): Queue<T> {
    var n := |Taken(q, size)|;
    q.(content := q.content[n..], consumerBytes := q.consumerBytes + n, consumerReads := q.consumerReads + 1)
  }

  function Discard<T>(q: Queue<T>): Queue<T> {
    q.(content := [], discarded := q.discarded + |q.content|, resets := q.resets + 1)
  }

  /** No byte the reader ever obtained is unaccounted for, and the queue never
      outgrows its limit. */
  predicate Accounted<T>(q: Queue<T>) {
    && q.readerBytes == q.consumerBytes + q.discarded + |q.content| + q.overflow
    && |q.content| <= q.maxBuffered <= q.limit
  }
}
