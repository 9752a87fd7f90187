/** What one operation of the serial reader does from its first step to its last, when
nothing else happens in between: a turn of the reader thread, a read, a reset, a stop. */
module SerialOperations {
  import opened SerialQueue
  import opened SerialProtocol

  lemma OneStep(s: State, e: Event)
    ensures Run(s, [e]) == Next(s, e)
  {
    hide Next;
    assert [e][..0] == [];
  }

  lemma TwoSteps(s: State, a: Event, b: Event)
    ensures Run(s, [a, b]) == Next(Next(s, a), b)
  {
    hide Next;
    OneStep(s, a);
    assert [a, b][..1] == [a];
  }

  lemma FourSteps(s: State, a: Event, b: Event, c: Event, d: Event)
    ensures Run(s, [a, b, c, d]) == Next(Next(Next(Next(s, a), b), c), d)
  {
    hide Next;
    TwoSteps(s, a, b);
    assert [a, b, c, d][..3] == [a, b, c] && [a, b, c][..2] == [a, b];
    assert Run(s, [a, b, c]) == Next(Run(s, [a, b]), c);
  }

  /** A new reader has read nothing, lost nothing and been asked for nothing. */
  lemma NewReader(limit: nat)
    ensures var s := Init(limit);
      && s.q.content == s.physical == s.removed == s.pending == [] && s.q.limit == limit
      && s.q.readerBytes == s.q.consumerBytes == s.q.discarded == s.q.overflow == s.q.finalDrain == 0
      && s.q.readerChunks == s.q.consumerReads == s.q.resets == s.q.maxBuffered == 0
      && !s.error && !s.stopping && !s.cutoff && s.thread == AtTop && s.stopper == Off && s.io == Free
  {
  }

  /** One turn of the reader thread.  Asked to stop, it ends.  Otherwise, when the driver
      does not fail, the first n pending bytes move to the end of the queue, or the thread
      is about to report that they do not fit; nothing moves if there are none. */
  lemma ReaderTurn(s: State, n: nat)
    requires s.thread == AtTop && s.io.Free?
    ensures s.stopping ==> Run(s, [ReaderStep(n, false)]) == s.(thread := Dead)
    ensures !s.stopping ==>
      var go := ReaderStep(n, false);
      var end := Run(s, [go, go, go, go]);
      var chunk := s.pending[..Min(n, |s.pending|)];
      && end.pending == s.pending[|chunk|..] && end.physical == s.physical + chunk && end.io.Free?
      && end.error == s.error && end.stopper == s.stopper
      && if chunk == [] then end == s
         else if |s.q.content| + |chunk| <= s.q.limit then
           && end.thread == AtTop && end.q.content == s.q.content + chunk
           && end.q.readerBytes == s.q.readerBytes + |chunk| && end.q.readerChunks == s.q.readerChunks + 1
           && end.q.overflow == s.q.overflow && end.q.finalDrain == s.q.finalDrain
         else
           && end.thread == Failing && end.q.content == s.q.content
           && end.q.readerBytes == s.q.readerBytes + |chunk| && end.q.overflow == s.q.overflow + |chunk|
  {
    var go := ReaderStep(n, false);
    OneStep(s, go);
    FourSteps(s, go, go, go, go);
    hide Run, Append;
    if !s.stopping {
      var chunk := s.pending[..Min(n, |s.pending|)];
      var s3 := Next(Next(Next(s, go), go), go);
      assert s3 == s.(thread := Locked, io := ReaderOut(chunk), pending := s.pending[|chunk|..],
                      physical := s.physical + chunk);
      if chunk == [] {
        assert s.pending[0..] == s.pending && s.physical + [] == s.physical;
      } else {
        Appended(s.q, chunk, false);
      }
    }
  }

  lemma Appended(q: Queue<Stamped>, chunk: seq<Stamped>, isFinal: bool)
    ensures var r := Append(q, chunk, isFinal);
      && r.readerBytes == q.readerBytes + |chunk| && r.readerChunks == q.readerChunks + 1
      && r.finalDrain == q.finalDrain + (if isFinal then |chunk| else 0) && r.limit == q.limit
      && if |q.content| + |chunk| <= q.limit then r.content == q.content + chunk && r.overflow == q.overflow
         else r.content == q.content && r.overflow == q.overflow + |chunk|
  {
  }

  /** A read takes the front of the queue, at most as much as it asks for; it is counted
      only if it takes something. */
  lemma ReadAlone(s: State, size: nat)
    ensures var end := Run(s, [Read(size)]);
      var k := Min(size, |s.q.content|);
      && end == s.(q := end.q, removed := s.removed + s.q.content[..k])
      && (k == 0 ==> end == s)
      && (0 < k ==> end.q == s.q.(content := s.q.content[k..], consumerBytes := s.q.consumerBytes + k,
                                  consumerReads := s.q.consumerReads + 1))
  {
    OneStep(s, Read(size));
    assert s.removed + [] == s.removed;
  }

  /** A reset waits for the I/O lock and may be refused by the driver; then nothing has
      happened.  Otherwise everything pending is gone, and everything queued is discarded
      unless the reader has failed; the lock is free again. */
  lemma ResetAlone(s: State, fails: bool)
    requires !s.io.Resetting?
    ensures var end := Run(s, [ResetBegin(fails), ResetEnd]);
      if !s.io.Free? || fails then end == s
      else if s.error then end == s.(pending := [], deviceEpoch := s.arrived)
      else
        && end == s.(pending := [], deviceEpoch := s.arrived, q := end.q, removed := s.removed + s.q.content,
                     queueEpoch := s.arrived)
        && end.q == s.q.(content := [], discarded := s.q.discarded + |s.q.content|, resets := s.q.resets + 1)
  {
    TwoSteps(s, ResetBegin(fails), ResetEnd);
  }

  /** How a call of stop begins.  It raises what the reader reported; it returns at once
      if the cutoff was taken before; otherwise, also after an earlier call that ran out
      of patience, it asks the thread to end. */
  lemma StopBegins(s: State, n: nat, fails: bool)
    requires s.stopper == Off || s.stopper == Raised
    ensures var go := StopStep(n, fails);
      var end := Run(s, [go, go]);
      if s.error then end == s.(stopper := Raised)
      else if s.cutoff then end == s
      else end == s.(stopping := true, stopper := Signalled)
  {
    TwoSteps(s, StopStep(n, fails), StopStep(n, fails));
  }

  /** The end of an ordinary stop: what is pending is read and queued as the final drain,
      and if nothing is pending nothing is queued or counted. */
  lemma StopEnds(s: State, n: nat)
    requires s.stopper == Joined && s.io.Free? && !s.error && |s.q.content| + |s.pending| <= s.q.limit
    requires |s.pending| <= n
    ensures var go := StopStep(n, false);
      var end := Run(s, [go, go, go, go]);
      && end == s.(q := end.q, pending := [], physical := s.physical + s.pending, cutoff := true,
                   pendingAtCutoff := |s.pending|, stopper := Certified(s.pending, s.pending))
      && end.q.content == s.q.content + s.pending && end.q.finalDrain == s.q.finalDrain + |s.pending|
      && end.q.readerBytes == s.q.readerBytes + |s.pending| && end.q.overflow == s.q.overflow
      && end.q.readerChunks == s.q.readerChunks + if s.pending == [] then 0 else 1
  {
    var go, p := StopStep(n, false), s.pending;
    FourSteps(s, go, go, go, go);
    hide Run, Append, Next;
    StopDrains(s, n);
    StopQueues(Next(Next(s, go), go), p, n);
    Appended(s.q, p, true);
    assert s.q.content + [] == s.q.content;
  }

  lemma StopDrains(s: State, n: nat)
    requires s.stopper == Joined && s.io.Free? && |s.pending| <= n
    ensures var go, p := StopStep(n, false), s.pending;
      Next(Next(s, go), go) == s.(cutoff := true, pendingAtCutoff := |p|, stopper := Cutting, io := Drained(p, p),
                                  pending := [], physical := s.physical + p)
  {
    assert s.pending[..|s.pending|] == s.pending && s.pending[|s.pending|..] == [];
  }

  lemma StopQueues(s: State, p: seq<Stamped>, n: nat)
    requires s.stopper == Cutting && s.io == Drained(p, p) && !s.error && Fits(s.q, p)
    ensures var go := StopStep(n, false);
      Next(Next(s, go), go)
      == s.(q := if p == [] then s.q else Append(s.q, p, true), io := Free, stopper := Certified(p, p))
  {
    hide Append;
  }

  /** A stop that cannot join the thread in time raises, and can be tried again. */
  lemma StopTimesOut(s: State, n: nat)
    requires s.stopper == Signalled && s.thread != Dead
    ensures Run(s, [StopStep(n, true)]) == s.(stopper := Raised) && Run(s, [StopStep(n, false)]) == s
  {
    OneStep(s, StopStep(n, true));
    OneStep(s, StopStep(n, false));
  }

  function Arrivals(events: seq<Event>): nat {
    if events == [] then 0
    else Arrivals(events[..|events| - 1]) + if events[|events| - 1].Arrive? then 1 else 0
  }

  /** Stamps are positions: as many bytes have arrived as there were arrivals. */
  lemma {:induction false} ArrivalsAreCounted(limit: nat, events: seq<Event>)
    ensures Run(Init(limit), events).arrived == Arrivals(events)
    decreases |events|
  {
    if events != [] {
      var front, e := events[..|events| - 1], events[|events| - 1];
      ArrivalsAreCounted(limit, front);
      hide ReaderNext, StopNext;
      match e
      case ReaderStep(n, fails) => ReaderMovesNoEpoch(Run(Init(limit), front), n, fails);
      case StopStep(n, fails) => StopMovesNoEpoch(Run(Init(limit), front), n, fails);
      case _ =>
    }
  }
}
