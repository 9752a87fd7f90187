/** All interleavings of the UART reader thread with its consumer, with resets and
with the stop sequence.

Each event is one access to shared state: a physical read, one critical section of
the condition variable, or taking the I/O lock.  An event that is not enabled where
it is scheduled changes nothing. */
module SerialProtocol {
  import opened SerialQueue

  /** A byte of the wire, stamped with its position in arrival order. */
  datatype Stamped = Stamped(value: int, arrival: nat)

  datatype Thread = AtTop | Entering | Locked | Failing | Dead

  /** Who holds the I/O lock, with what the holder has read so far. */
  datatype Io =
    | Free
    | ReaderIn
    | ReaderOut(chunk: seq<Stamped>)
    | Resetting
    | Draining(snapshot: seq<Stamped>)
    | Drained(snapshot: seq<Stamped>, chunk: seq<Stamped>)

  /** Where the stop sequence stands.  `Certified` is a normal return after taking
      the cutoff, with what was pending then and what the final drain obtained. */
  datatype Stopper =
    | Off | Checked | Signalled | Joined | Cutting | StopFailing
    | Releasing(snapshot: seq<Stamped>, drained: seq<Stamped>)
    | Certified(snapshot: seq<Stamped>, drained: seq<Stamped>)
    | Raised

  /** `pending` is the kernel's tty buffer.  The last four fields are history: all
      bytes physically read, all bytes removed from the queue, and how many bytes
      had arrived when the kernel buffer, and the queue, were last emptied. */
  datatype State = State(
    q: Queue<Stamped>,
    error: bool,
    stopping: bool,
    cutoff: bool,
    pendingAtCutoff: nat,
    thread: Thread,
    stopper: Stopper,
    io: Io,
    pending: seq<Stamped>,
    arrived: nat,
    physical: seq<Stamped>,
    removed: seq<Stamped>,
    deviceEpoch: nat,
    queueEpoch: nat)

  /** `n` is how much the driver returns, `fails` whether it raises (for StopStep
      also whether waiting for the thread times out). */
  datatype Event =
    | Arrive(value: int)
    | ReaderStep(n: nat, fails: bool)
    | Read(size: nat)
    | ResetBegin(fails: bool)
    | ResetEnd
    | StopStep(n: nat, fails: bool)

  function Init(limit: nat): State {
    State(Empty(limit), false, false, false, 0, AtTop, Off, Free, [], 0, [], [], 0, 0)
  }

  function Min(a: nat, b: nat): nat { if a < b then a else b }

  /** The loop of the reader thread: poll the stop flag, take the I/O lock, read,
      append under the same lock. */
  function ReaderNext(s: State, n: nat, fails: bool): State {
    match s.thread
    case AtTop => s.(thread := if s.stopping then Dead else Entering)
    case Entering => if s.io.Free? then s.(thread := Locked, io := ReaderIn) else s
    case Locked =>
      (match s.io
       case ReaderIn =>
         if fails then s.(thread := Failing, io := Free)
         else
           var k := Min(n, |s.pending|);
           s.(io := ReaderOut(s.pending[..k]), pending := s.pending[k..], physical := s.physical + s.pending[..k])
       case ReaderOut(chunk) =>
         if chunk == [] then s.(thread := if fails then Failing else AtTop, io := Free)
         else s.(q := Append(s.q, chunk, false), thread := if Fits(s.q, chunk) then AtTop else Failing, io := Free)
       case _ => s)
    case Failing => s.(error := true, thread := Dead)
    case Dead => s
  }

  function ResetBeginNext(s: State, fails: bool): State {
    if !s.io.Free? || fails then s
    else s.(io := Resetting, pending := [], deviceEpoch := s.arrived)
  }

  function ResetEndNext(s: State): State {
    if !s.io.Resetting? then s
    else if s.error then s.(io := Free)
    else s.(q := Discard(s.q), removed := s.removed + s.q.content, queueEpoch := s.deviceEpoch, io := Free)
  }

  function ReadNext(s: State, size: nat): State {
    if size == 0 || s.q.content == [] then s
    else s.(q := Take(s.q, size), removed := s.removed + Taken(s.q, size))
  }

  /** The part of the stop sequence that holds the I/O lock: take the cutoff, drain
      exactly what is pending then, append it, and insist that it was all of it. */
  function DrainNext(s: State, n: nat, fails: bool): State {
    match s.io
    case Free =>
      if s.stopper != Joined then s
      else if fails then s.(stopper := StopFailing)
      else s.(stopper := Cutting, io := Draining(s.pending), cutoff := true, pendingAtCutoff := |s.pending|)
    case Draining(snapshot) =>
      if fails then s.(stopper := StopFailing, io := Free)
      else
        var k := Min(Min(n, |snapshot|), |s.pending|);
        s.(io := Drained(snapshot, s.pending[..k]), pending := s.pending[k..], physical := s.physical + s.pending[..k])
    case Drained(snapshot, chunk) =>
      s.(q := if chunk == [] then s.q else Append(s.q, chunk, true), io := Free,
         stopper := if Fits(s.q, chunk) && |chunk| == |snapshot| then Releasing(snapshot, chunk) else StopFailing)
    case _ => s
  }

  function StopNext(s: State, n: nat, fails: bool): State {
    match s.stopper
    case Off => if s.error then s.(stopper := Raised) else if s.cutoff then s else s.(stopper := Checked)
    case Raised => if s.error || s.cutoff then s else s.(stopper := Checked)
    case Checked => s.(stopping := true, stopper := Signalled)
    case Signalled => if s.thread.Dead? then s.(stopper := Joined) else if fails then s.(stopper := Raised) else s
    case Joined => DrainNext(s, n, fails)
    case Cutting => DrainNext(s, n, fails)
    case StopFailing => s.(error := true, stopper := Raised)
    case Releasing(snapshot, drained) =>
      s.(stopper := if s.error then Raised else Certified(snapshot, drained))
    case Certified(_, _) => s
  }

  function Next(s: State, e: Event): State {
    match e
    case Arrive(value) => s.(pending := s.pending + [Stamped(value, s.arrived)], arrived := s.arrived + 1)
    case ReaderStep(n, fails) => ReaderNext(s, n, fails)
    case Read(size) => ReadNext(s, size)
    case ResetBegin(fails) => ResetBeginNext(s, fails)
    case ResetEnd => ResetEndNext(s)
    case StopStep(n, fails) => StopNext(s, n, fails)
  }

  function Run(s: State, events: seq<Event>): State {
    if events == [] then s else Next(Run(s, events[..|events| - 1]), events[|events| - 1])
  }

  /** Bytes read from the driver and not yet handed to the queue. */
  function InFlight(io: Io): seq<Stamped> {
    match io
    case ReaderOut(chunk) => chunk
    case Drained(_, chunk) => chunk
    case _ => []
  }

  ghost predicate Locks(s: State) {
    && (s.thread == Locked <==> s.io.ReaderIn? || s.io.ReaderOut?)
    && (s.stopper == Cutting <==> s.io.Draining? || s.io.Drained?)
    && (s.stopper in {Joined, Cutting, StopFailing} || s.stopper.Releasing? || s.stopper.Certified? ==> s.thread == Dead)
  }

  /** While nothing was lost the queue holds the reader's bytes in order; a loss is
      already reported or about to be. */
  ghost predicate Lossless(s: State) {
    && Accounted(s.q)
    && (s.q.overflow == 0 ==> s.physical == s.removed + s.q.content + InFlight(s.io))
    && (0 < s.q.overflow ==> s.error || s.thread == Failing || s.stopper == StopFailing)
  }

  ghost predicate Cut(s: State) {
    && (!s.cutoff ==> s.q.finalDrain == 0)
    && (s.io.Draining? ==>
          s.io.snapshot <= s.pending && |s.io.snapshot| == s.pendingAtCutoff && s.q.finalDrain == 0 && s.cutoff)
    && (s.io.Drained? ==>
          s.io.chunk <= s.io.snapshot && |s.io.snapshot| == s.pendingAtCutoff && s.q.finalDrain == 0 && s.cutoff)
    && (s.stopper.Releasing? ==>
          s.stopper.drained == s.stopper.snapshot && |s.stopper.snapshot| == s.pendingAtCutoff == s.q.finalDrain
          && s.cutoff)
    && (s.stopper.Certified? ==>
          s.stopper.drained == s.stopper.snapshot && |s.stopper.snapshot| == s.pendingAtCutoff == s.q.finalDrain
          && s.cutoff && !s.error)
    && (s.stopper in {Checked, Signalled, Joined} ==> !s.cutoff)
  }

  ghost predicate Since(bytes: seq<Stamped>, epoch: nat) {
    forall i :: 0 <= i < |bytes| ==> epoch <= bytes[i].arrival
  }

  ghost predicate Epochs(s: State) {
    && s.queueEpoch <= s.deviceEpoch <= s.arrived
    && Since(s.pending, s.deviceEpoch)
    && Since(InFlight(s.io), s.deviceEpoch)
    && Since(s.q.content, s.queueEpoch)
  }

  ghost predicate Inv(s: State) {
    Locks(s) && Lossless(s) && Cut(s) && Epochs(s)
  }

  lemma StepKeepsLocks(s: State, e: Event)
    requires Inv(s)
    ensures Locks(Next(s, e))
  {
  }

  /** Moving the head of `pending` into flight, and what is in flight into the
      queue, both keep the order of the stream. */
  lemma OrderKept(removed: seq<Stamped>, content: seq<Stamped>, chunk: seq<Stamped>)
    ensures removed + (content + chunk) == removed + content + chunk
    ensures removed + content + [] == removed + content
  {
  }

  lemma ReaderKeepsLossless(s: State, n: nat, fails: bool)
    requires Locks(s) && Lossless(s)
    ensures Lossless(ReaderNext(s, n, fails))
  {
    var s' := ReaderNext(s, n, fails);
    if s.thread == Locked {
      OrderKept(s.removed, s.q.content, InFlight(s.io));
      OrderKept(s.removed, s.q.content, InFlight(s'.io));
    } else {
      assert s'.q == s.q && InFlight(s'.io) == InFlight(s.io);
    }
  }

  lemma DrainKeepsLossless(s: State, n: nat, fails: bool)
    requires s.stopper in {Joined, Cutting} && Locks(s) && Lossless(s)
    ensures Lossless(DrainNext(s, n, fails))
  {
    OrderKept(s.removed, s.q.content, InFlight(s.io));
    if s.io.Draining? && !fails {
      OrderKept(s.removed, s.q.content, DrainNext(s, n, fails).io.chunk);
    }
  }

  /** Outside the I/O lock the stop sequence touches neither bytes nor queue. */
  lemma StopOutsideLock(s: State, n: nat, fails: bool)
    requires s.stopper !in {Joined, Cutting}
    ensures var s' := StopNext(s, n, fails);
      s' == s.(stopper := s'.stopper, stopping := s'.stopping, error := s'.error)
    ensures StopNext(s, n, fails).error == (s.error || s.stopper == StopFailing)
  {
  }

  lemma StopKeepsLossless(s: State, n: nat, fails: bool)
    requires Locks(s) && Lossless(s)
    ensures Lossless(StopNext(s, n, fails))
  {
    if s.stopper in {Joined, Cutting} {
      DrainKeepsLossless(s, n, fails);
    } else {
      StopOutsideLock(s, n, fails);
    }
  }

  lemma ConsumerKeepsLossless(s: State, size: nat)
    requires Lossless(s)
    ensures Lossless(ReadNext(s, size)) && Lossless(ResetEndNext(s))
  {
    assert s.q.content == Taken(s.q, size) + Take(s.q, size).content;
    OrderKept(s.removed, Taken(s.q, size), Take(s.q, size).content);
  }

  lemma StepKeepsLossless(s: State, e: Event)
    requires Locks(s) && Lossless(s)
    ensures Lossless(Next(s, e))
  {
    match e
    case Arrive(_) =>
    case ReaderStep(n, fails) => ReaderKeepsLossless(s, n, fails);
    case Read(size) => ConsumerKeepsLossless(s, size);
    case ResetBegin(_) =>
    case ResetEnd => ConsumerKeepsLossless(s, 0);
    case StopStep(n, fails) => StopKeepsLossless(s, n, fails);
  }

  lemma DrainKeepsCut(s: State, n: nat, fails: bool)
    requires s.stopper in {Joined, Cutting} && Locks(s) && Cut(s)
    ensures Cut(DrainNext(s, n, fails))
  {
  }

  lemma ReaderKeepsCut(s: State, n: nat, fails: bool)
    requires Locks(s) && Cut(s)
    ensures Cut(ReaderNext(s, n, fails))
  {
    if s.thread == Locked && s.io.ReaderIn? {
      assert !s.io.Draining?;
    }
  }

  lemma StepKeepsCut(s: State, e: Event)
    requires Inv(s)
    ensures Cut(Next(s, e))
  {
    match e
    case ReaderStep(n, fails) => ReaderKeepsCut(s, n, fails);
    case StopStep(n, fails) =>
      if s.stopper in {Joined, Cutting} {
        DrainKeepsCut(s, n, fails);
      } else {
        StopOutsideLock(s, n, fails);
      }
    case _ =>
  }

  lemma SinceParts(bytes: seq<Stamped>, k: nat, more: seq<Stamped>, epoch: nat)
    requires k <= |bytes| && Since(bytes, epoch) && Since(more, epoch)
    ensures Since(bytes[..k], epoch) && Since(bytes[k..], epoch) && Since(bytes + more, epoch)
  {
  }

  lemma ReaderKeepsEpochs(s: State, n: nat, fails: bool)
    requires Epochs(s)
    ensures Epochs(ReaderNext(s, n, fails))
  {
    SinceParts(s.pending, Min(n, |s.pending|), [], s.deviceEpoch);
    SinceParts(s.q.content, 0, InFlight(s.io), s.queueEpoch);
  }

  lemma StopKeepsEpochs(s: State, n: nat, fails: bool)
    requires Epochs(s)
    ensures Epochs(StopNext(s, n, fails))
  {
    if s.stopper in {Joined, Cutting} {
      if s.io.Draining? {
        SinceParts(s.pending, Min(Min(n, |s.io.snapshot|), |s.pending|), [], s.deviceEpoch);
      }
      SinceParts(s.q.content, 0, InFlight(s.io), s.queueEpoch);
      assert Epochs(DrainNext(s, n, fails));
    } else {
      StopOutsideLock(s, n, fails);
    }
  }

  lemma StepKeepsEpochs(s: State, e: Event)
    requires Epochs(s)
    ensures Epochs(Next(s, e))
  {
    match e
    case Arrive(value) => SinceParts(s.pending, 0, [Stamped(value, s.arrived)], s.deviceEpoch);
    case ReaderStep(n, fails) => ReaderKeepsEpochs(s, n, fails);
    case Read(size) => SinceParts(s.q.content, |Taken(s.q, size)|, [], s.queueEpoch);
    case ResetBegin(_) =>
    case ResetEnd =>
    case StopStep(n, fails) => StopKeepsEpochs(s, n, fails);
  }

  lemma {:induction false} InvHoldsInEveryRun(limit: nat, events: seq<Event>)
    ensures Inv(Run(Init(limit), events))
    decreases |events|
  {
    if events != [] {
      var s, e := Run(Init(limit), events[..|events| - 1]), events[|events| - 1];
      InvHoldsInEveryRun(limit, events[..|events| - 1]);
      StepKeepsLocks(s, e);
      StepKeepsLossless(s, e);
      StepKeepsCut(s, e);
      StepKeepsEpochs(s, e);
    }
  }

  /** Lossless certification.  In every interleaving all bytes handed over by the
      reader are accounted for; and once a stop that took the cutoff has returned
      normally, nothing was lost, what left the queue followed by what is still in
      it is exactly the byte stream physically read, and the final drain is exactly
      what was pending at the cutoff. */
  lemma CertifiedMeansLossless(limit: nat, events: seq<Event>)
    ensures var s := Run(Init(limit), events);
      && s.q.readerBytes == s.q.consumerBytes + s.q.discarded + |s.q.content| + s.q.overflow
      && (s.stopper.Certified? ==>
            && s.q.overflow == 0
            && s.removed + s.q.content == s.physical
            && s.stopper.drained == s.stopper.snapshot
            && |s.stopper.snapshot| == s.pendingAtCutoff == s.q.finalDrain)
  {
    InvHoldsInEveryRun(limit, events);
  }

  lemma {:induction false} RunJoin(s: State, first: seq<Event>, second: seq<Event>)
    ensures Run(s, first + second) == Run(Run(s, first), second)
    decreases |second|
  {
    if second == [] {
      assert first + second == first;
    } else {
      var front := second[..|second| - 1];
      assert (first + second)[..|first + second| - 1] == first + front;
      RunJoin(s, first, front);
    }
  }

  /** The reader's error is set, or the next step of the one who must set it sets it. */
  predicate ErrorIsDue(s: State, readerStepped: bool, stopStepped: bool) {
    s.error || (s.thread == Failing && !readerStepped) || (s.stopper == StopFailing && !stopStepped)
  }

  ghost predicate HasReaderStep(events: seq<Event>) {
    exists i :: 0 <= i < |events| && events[i].ReaderStep?
  }

  ghost predicate HasStopStep(events: seq<Event>) {
    exists i :: 0 <= i < |events| && events[i].StopStep?
  }

  lemma ErrorStaysDue(s: State, e: Event, readerStepped: bool, stopStepped: bool)
    requires ErrorIsDue(s, readerStepped, stopStepped)
    ensures ErrorIsDue(Next(s, e), readerStepped || e.ReaderStep?, stopStepped || e.StopStep?)
  {
  }

  lemma {:induction false} ErrorComes(s: State, events: seq<Event>)
    requires ErrorIsDue(s, false, false)
    ensures ErrorIsDue(Run(s, events), HasReaderStep(events), HasStopStep(events))
    decreases |events|
  {
    if events != [] {
      var front, e := events[..|events| - 1], events[|events| - 1];
      ErrorComes(s, front);
      hide Next;
      ErrorStaysDue(Run(s, front), e, HasReaderStep(front), HasStopStep(front));
      assert HasReaderStep(front) ==> HasReaderStep(events);
      assert HasStopStep(front) ==> HasStopStep(events);
    }
  }

  /** The same guarantee the other way: a loss always ends in a raised error.  Once the
      reader thread is dead, and the stop sequence is not about to raise, it has been
      raised; and a run in which bytes were lost gets there as soon as the reader and the
      stop sequence have each made one more step.  From then on no stop is certified. */
  lemma LossIsNeverSilent(limit: nat, before: seq<Event>, after: seq<Event>)
    ensures var s := Run(Init(limit), before);
      0 < s.q.overflow && s.thread == Dead && s.stopper != StopFailing ==> s.error && !s.stopper.Certified?
    ensures 0 < Run(Init(limit), before).q.overflow && HasReaderStep(after) && HasStopStep(after) ==>
      var s := Run(Init(limit), before + after);
      s.error && !s.stopper.Certified?
  {
    InvHoldsInEveryRun(limit, before);
    InvHoldsInEveryRun(limit, before + after);
    RunJoin(Init(limit), before, after);
    if 0 < Run(Init(limit), before).q.overflow {
      ErrorComes(Run(Init(limit), before), after);
    }
  }

  /** How the epochs can have moved since state `s0`, in which no reset was under
      way: only a reset begun since can have emptied anything. */
  ghost predicate EpochsMoved(s0: State, s: State) {
    && s0.arrived <= s.arrived && s0.q.resets <= s.q.resets
    && (s.io.Resetting? ==> s0.arrived <= s.deviceEpoch)
    && (s0.q.resets < s.q.resets ==> s0.arrived <= s.queueEpoch)
  }

  ghost predicate SameEpochs(s: State, s': State) {
    && s'.q.resets == s.q.resets && s'.arrived == s.arrived && s'.queueEpoch == s.queueEpoch
    && s'.deviceEpoch == s.deviceEpoch && (s'.io.Resetting? <==> s.io.Resetting?)
  }

  lemma ReaderMovesNoEpoch(s: State, n: nat, fails: bool)
    ensures SameEpochs(s, ReaderNext(s, n, fails))
  {
  }

  lemma StopMovesNoEpoch(s: State, n: nat, fails: bool)
    ensures SameEpochs(s, StopNext(s, n, fails))
  {
    if s.stopper in {Joined, Cutting} {
      assert SameEpochs(s, DrainNext(s, n, fails));
    } else {
      StopOutsideLock(s, n, fails);
    }
  }

  lemma StepMovesEpochs(s0: State, s: State, e: Event)
    requires EpochsMoved(s0, s)
    ensures EpochsMoved(s0, Next(s, e))
    ensures s.q.resets <= Next(s, e).q.resets
  {
    match e
    case ReaderStep(n, fails) => ReaderMovesNoEpoch(s, n, fails);
    case StopStep(n, fails) => StopMovesNoEpoch(s, n, fails);
    case _ =>
  }

  lemma {:induction false} RunMovesEpochs(s0: State, s: State, events: seq<Event>)
    requires EpochsMoved(s0, s)
    ensures EpochsMoved(s0, Run(s, events)) && s.q.resets <= Run(s, events).q.resets
    decreases |events|
  {
    if events != [] {
      RunMovesEpochs(s0, s, events[..|events| - 1]);
      StepMovesEpochs(s0, Run(s, events[..|events| - 1]), events[|events| - 1]);
    }
  }

  /** Reset is an epoch boundary.  Take any run `before` after which no reset is
      under way, any continuation `during` in which some reset completed normally,
      and anything `after` it: a read then returns no byte that had arrived before
      `during` began, whatever the reader thread had in flight. */
  lemma ResetIsAnEpochBoundary(
      limit: nat, before: seq<Event>, during: seq<Event>, after: seq<Event>, size: nat)
    requires !Run(Init(limit), before).io.Resetting?
    requires Run(Init(limit), before).q.resets < Run(Init(limit), before + during).q.resets
    ensures var start := Run(Init(limit), before);
      forall b :: b in Taken(Run(Init(limit), before + during + after).q, size) ==> start.arrived <= b.arrival
  {
    var s1, s2, s3 := Run(Init(limit), before), Run(Init(limit), before + during),
                      Run(Init(limit), before + during + after);
    RunJoin(Init(limit), before, during);
    RunJoin(Init(limit), before + during, after);
    RunMovesEpochs(s1, s1, during);
    RunMovesEpochs(s1, s2, after);
    InvHoldsInEveryRun(limit, before + during + after);
  }
}
