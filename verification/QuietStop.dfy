/** Deciding that the port is quiet.

A timeline is everything the reader thread and the stopping thread do, in clock order.
A turn of the reader either takes bytes from the port, clears the empty-read
acknowledgement and counts the bytes, each in a section of its own, or it finds nothing,
looks whether the kernel buffer is drained, and acknowledges that later.  In between
there are resets, for which the reader must be between two turns, a failure of the
reader, and the polls of the quiet-detection loop.  A poll checks the clock against its
deadline at `checked` and looks at the reader's counters, under the lock, at `at`. */
module QuietStop {
  import opened Wrappers

  datatype Tick =
    | Taken(at: real, size: nat)
    | AckCleared(at: real)
    | Counted(at: real, size: nat)
    | Looked(at: real, drained: bool)
    | Acknowledged(at: real, drained: bool)
    | Reset(at: real)
    | Failure(at: real)
    | Poll(at: real, checked: real)

  /** Where the reader stands in its turn. */
  datatype Phase = Idle | Holding(size: nat) | Counting(size: nat) | Seen(drained: bool) | Dead

  /** The reader's program order; a reset takes the reader's I/O lock. */
  predicate Allowed(phase: Phase, tick: Tick) {
    match tick
    case Taken(_, size) => phase.Idle? && 0 < size
    case AckCleared(_) => phase.Holding?
    case Counted(_, size) => phase == Counting(size)
    case Looked(_, _) => phase.Idle?
    case Acknowledged(_, drained) => phase == Seen(drained)
    case Reset(_) => phase.Idle?
    case Failure(_) => phase.Idle?
    case Poll(_, _) => true
  }

  /** The reader's phase before tick k. */
  function PhaseAt(ticks: seq<Tick>, k: nat): Phase
    requires k <= |ticks|
  {
    if k == 0 then Idle
    else
      match ticks[k - 1]
      case Taken(_, size) => Holding(size)
      case AckCleared(_) => if PhaseAt(ticks, k - 1).Holding? then Counting(PhaseAt(ticks, k - 1).size) else Idle
      case Looked(_, drained) => Seen(drained)
      case Failure(_) => Dead
      case Poll(_, _) => PhaseAt(ticks, k - 1)
      case _ => Idle
  }

  predicate InOrder(ticks: seq<Tick>, i: nat) {
    i < |ticks| ==> Allowed(PhaseAt(ticks, i), ticks[i])
  }

  ghost predicate Monotone(ticks: seq<Tick>) {
    forall i, j :: 0 <= i < j < |ticks| ==> ticks[i].at <= ticks[j].at
  }

  /** The clock is monotone and the reader keeps its program order. */
  ghost predicate Timeline(ticks: seq<Tick>) {
    Monotone(ticks) && forall i: nat :: InOrder(ticks, i)
  }

  datatype Outcome = InvalidInterval | StopAt(index: nat) | ReaderFailed | NotQuiet

  /** The reader's byte count before tick k. */
  function BytesRead(ticks: seq<Tick>, k: nat): nat
    requires k <= |ticks|
  {
    if k == 0 then 0
    else BytesRead(ticks, k - 1) + if ticks[k - 1].Counted? then ticks[k - 1].size else 0
  }

  /** The empty-read acknowledgement that stands before tick k. */
  function Ack(ticks: seq<Tick>, k: nat): Option<real>
    requires k <= |ticks|
  {
    if k == 0 then None
    else
      match ticks[k - 1]
      case AckCleared(_) => None
      case Acknowledged(at, drained) => if drained then Some(at) else None
      case Reset(_) => None
      case _ => Ack(ticks, k - 1)
  }

  /** The byte count that the last poll before tick k saw. */
  function PolledBytes(ticks: seq<Tick>, k: nat): Option<nat>
    requires k <= |ticks|
  {
    if k == 0 then None
    else if ticks[k - 1].Poll? then Some(BytesRead(ticks, k - 1))
    else PolledBytes(ticks, k - 1)
  }

  /** A poll that finds the port acknowledged empty and the count unchanged. */
  ghost predicate Stable(ticks: seq<Tick>, n: nat) {
    n < |ticks| && ticks[n].Poll? && Ack(ticks, n).Some? && PolledBytes(ticks, n) == Some(BytesRead(ticks, n))
  }

  /** Every poll from j to k is stable, and the acknowledgement that the last one
      sees is at least `quiet` younger than the first. */
  ghost predicate Certifies(ticks: seq<Tick>, quiet: real, j: nat, k: nat) {
    && j < k < |ticks| && Stable(ticks, j) && Stable(ticks, k)
    && (forall n :: j <= n <= k && ticks[n].Poll? ==> Stable(ticks, n))
    && ticks[j].at + quiet <= Ack(ticks, k).value
  }

  /** The reader holds bytes that it has not counted. */
  predicate InFlight(phase: Phase) {
    phase.Holding? || phase.Counting?
  }

  /** Physical quiet, as far as the counters can tell it.  At poll j no bytes are in
      flight, and from j to the acknowledgement `a`, at least `quiet` later, none are
      taken from the port.  `a` stands for a look l that saw the kernel buffer drained,
      since when the reader has done nothing else.  After `a` the reader may have begun
      one more turn: bytes of at most one read are in flight, uncounted, at poll k. */
  ghost predicate Quiet(ticks: seq<Tick>, quiet: real, j: nat, l: nat, a: nat, k: nat) {
    && j < a < k < |ticks| && l < a
    && !InFlight(PhaseAt(ticks, j)) && (forall i :: j <= i <= a ==> !ticks[i].Taken? && !ticks[i].Counted?)
    && ticks[l].Looked? && ticks[l].drained && (forall i :: l < i < a ==> ticks[i].Poll?)
    && ticks[a].Acknowledged? && ticks[j].at + quiet <= ticks[a].at
    && (forall i :: a < i < k ==> ticks[i].Poll? || ticks[i].Failure? || ticks[i].Taken? || ticks[i].Looked?)
    && (forall i, n :: a < i < n < k && ticks[i].Taken? ==> ticks[n].Poll?)
  }

  lemma {:induction false} CountsGrow(ticks: seq<Tick>, j: nat, k: nat)
    requires Timeline(ticks) && j <= k <= |ticks|
    ensures BytesRead(ticks, j) <= BytesRead(ticks, k)
    ensures BytesRead(ticks, j) == BytesRead(ticks, k) ==> forall i :: j <= i < k ==> !ticks[i].Counted?
    decreases k
  {
    hide Monotone, InOrder, PhaseAt;
    if j < k {
      CountsGrow(ticks, j, k - 1);
      SizesArePositive(ticks, k - 1);
    }
  }

  lemma {:induction false} SizesArePositive(ticks: seq<Tick>, k: nat)
    requires Timeline(ticks) && k <= |ticks|
    ensures InFlight(PhaseAt(ticks, k)) ==> 0 < PhaseAt(ticks, k).size
    ensures k < |ticks| && ticks[k].Counted? ==> 0 < ticks[k].size
  {
    hide Monotone;
    if 0 < k {
      SizesArePositive(ticks, k - 1);
      assert InOrder(ticks, k - 1);
    }
    assert InOrder(ticks, k);
  }

  lemma {:induction false} StablePollsAgree(ticks: seq<Tick>, j: nat, k: nat)
    requires j < k <= |ticks| && ticks[j].Poll?
    requires forall n :: j < n < k && ticks[n].Poll? ==> Stable(ticks, n)
    ensures PolledBytes(ticks, k) == Some(BytesRead(ticks, j))
    decreases k
  {
    if j < k - 1 {
      StablePollsAgree(ticks, j, k - 1);
    }
  }

  lemma {:induction false} AckSource(ticks: seq<Tick>, k: nat) returns (a: nat)
    requires k <= |ticks| && Ack(ticks, k).Some?
    ensures a < k && ticks[a] == Acknowledged(Ack(ticks, k).value, true)
    ensures forall i :: a < i < k ==> !ticks[i].AckCleared? && !ticks[i].Acknowledged? && !ticks[i].Reset?
  {
    if ticks[k - 1].Acknowledged? {
      a := k - 1;
    } else {
      a := AckSource(ticks, k - 1);
    }
  }

  /** The look that the reader is about to acknowledge. */
  lemma {:induction false} LookSource(ticks: seq<Tick>, a: nat) returns (l: nat)
    requires Timeline(ticks) && a <= |ticks| && PhaseAt(ticks, a).Seen?
    ensures l < a && ticks[l].Looked? && ticks[l].drained == PhaseAt(ticks, a).drained
    ensures forall i :: l < i < a ==> ticks[i].Poll?
  {
    hide Monotone;
    if ticks[a - 1].Looked? {
      l := a - 1;
    } else {
      l := LookSource(ticks, a - 1);
    }
  }

  /** Bytes in flight would have had to be counted before the reader looks again. */
  lemma {:induction false} NothingWasInFlight(ticks: seq<Tick>, j: nat, a: nat)
    requires Timeline(ticks) && j <= a <= |ticks| && !InFlight(PhaseAt(ticks, a))
    requires forall i :: j <= i < a ==> !ticks[i].Counted?
    requires forall i :: j <= i < a ==> !ticks[i].Failure?
    ensures !InFlight(PhaseAt(ticks, j)) && forall i :: j <= i < a ==> !ticks[i].Taken?
    decreases a - j
  {
    hide Monotone;
    if j < a {
      NothingWasInFlight(ticks, j + 1, a);
      assert InOrder(ticks, j);
    }
  }

  lemma {:induction false} DeadIsForever(ticks: seq<Tick>, j: nat, a: nat)
    requires Timeline(ticks) && j <= a <= |ticks| && PhaseAt(ticks, j).Dead?
    ensures PhaseAt(ticks, a).Dead?
    decreases a
  {
    hide Monotone;
    if j < a {
      DeadIsForever(ticks, j, a - 1);
      assert InOrder(ticks, a - 1);
    }
  }

  lemma {:induction false} HoldingUntilCleared(ticks: seq<Tick>, i: nat, n: nat)
    requires Timeline(ticks) && i < n <= |ticks| && ticks[i].Taken?
    requires forall x :: i < x < n ==> !ticks[x].AckCleared?
    ensures PhaseAt(ticks, n).Holding? && forall x :: i < x < n ==> ticks[x].Poll?
    decreases n
  {
    hide Monotone;
    if i + 1 < n {
      HoldingUntilCleared(ticks, i, n - 1);
      assert InOrder(ticks, n - 1);
    }
  }

  /** What the loop certifies is physical quiet. */
  lemma CertifiedMeansQuiet(ticks: seq<Tick>, quiet: real, j: nat, k: nat)
    requires Timeline(ticks) && 0.0 < quiet && Certifies(ticks, quiet, j, k)
    ensures exists l: nat, a: nat :: Quiet(ticks, quiet, j, l, a, k)
  {
    StablePollsAgree(ticks, j, k);
    CountsGrow(ticks, j, k);
    var a := AckSource(ticks, k);
    hide PhaseAt, Stable, BytesRead, Ack, PolledBytes;
    assert InOrder(ticks, a);
    assert j < a;
    var l := LookSource(ticks, a);
    forall i: nat | j <= i < a
      ensures !ticks[i].Failure?
    {
      if ticks[i].Failure? {
        FailureIsForever(ticks, i, a);
      }
    }
    NothingWasInFlight(ticks, j, a);
    forall i: nat, n: nat | a < i < n < k && ticks[i].Taken?
      ensures ticks[n].Poll?
    {
      HoldingUntilCleared(ticks, i, k);
    }
    assert Quiet(ticks, quiet, j, l, a, k);
  }

  lemma FailureIsForever(ticks: seq<Tick>, i: nat, a: nat)
    requires Timeline(ticks) && i < a <= |ticks| && ticks[i].Failure?
    ensures PhaseAt(ticks, a).Dead?
  {
    DeadIsForever(ticks, i + 1, a);
  }

  // Two timelines that are certified at their last poll, for an interval that begins at
  // the poll of time 2 and should be quiet for one second.

  const READ_UNCOUNTED: seq<Tick> :=
    [Looked(0.0, true), Acknowledged(0.0, true), Poll(1.0, 1.0), Poll(2.0, 2.0),
     Looked(3.0, true), Acknowledged(3.0, true), Taken(3.0, 1), Poll(4.0, 4.0)]

  const LOOKED_EARLY: seq<Tick> :=
    [Looked(0.0, true), Acknowledged(0.0, true), Looked(0.5, true), Poll(1.0, 1.0), Poll(2.0, 2.0),
     Acknowledged(3.0, true), Poll(4.0, 4.0)]

  /** Quiet up to the certifying poll itself would be too much to ask: bytes can be in
      flight then. */
  lemma ReadCanBeInFlight()
    ensures var t := READ_UNCOUNTED;
            Timeline(t) && Certifies(t, 1.0, 3, 7) && t[6].Taken? && InFlight(PhaseAt(t, 7))
  {
    var t := READ_UNCOUNTED;
    assert PhaseAt(t, 1) == Seen(true) && PhaseAt(t, 2) == PhaseAt(t, 3) == PhaseAt(t, 4) == Idle;
    assert PhaseAt(t, 5) == Seen(true) && PhaseAt(t, 6) == Idle && PhaseAt(t, 7) == Holding(1);
    forall i: nat
      ensures InOrder(t, i)
    {
      assert i == 0 || i == 1 || i == 2 || i == 3 || i == 4 || i == 5 || i == 6 || i == 7 || i > 7;
    }
    assert Ack(t, 2) == Ack(t, 3) == Some(0.0) && Ack(t, 6) == Ack(t, 7) == Some(3.0);
    assert BytesRead(t, 1) == BytesRead(t, 2) == BytesRead(t, 3) == BytesRead(t, 4) == BytesRead(t, 5) == 0;
    assert BytesRead(t, 6) == BytesRead(t, 7) == 0;
    assert PolledBytes(t, 3) == PolledBytes(t, 4) == PolledBytes(t, 5) == Some(0);
    assert PolledBytes(t, 6) == PolledBytes(t, 7) == Some(0);
  }

  /** And the look that is acknowledged can be older than the interval: whatever arrived
      since then is still in the kernel buffer, for the final drain of the stop. */
  lemma LookCanBeOld()
    ensures var t := LOOKED_EARLY;
            && Timeline(t) && Certifies(t, 1.0, 4, 6)
            && forall l: nat, a: nat :: Quiet(t, 1.0, 4, l, a, 6) ==> l == 2 && t[l].at + 1.0 < t[4].at
  {
    var t := LOOKED_EARLY;
    assert PhaseAt(t, 1) == Seen(true) && PhaseAt(t, 2) == Idle;
    assert PhaseAt(t, 3) == PhaseAt(t, 4) == PhaseAt(t, 5) == Seen(true) && PhaseAt(t, 6) == Idle;
    forall i: nat
      ensures InOrder(t, i)
    {
      assert i == 0 || i == 1 || i == 2 || i == 3 || i == 4 || i == 5 || i == 6 || i > 6;
    }
    assert Ack(t, 2) == Ack(t, 3) == Ack(t, 4) == Some(0.0) && Ack(t, 6) == Some(3.0);
    assert BytesRead(t, 1) == BytesRead(t, 2) == BytesRead(t, 3) == BytesRead(t, 4) == BytesRead(t, 5) == 0;
    assert BytesRead(t, 6) == 0;
    assert PolledBytes(t, 4) == PolledBytes(t, 5) == PolledBytes(t, 6) == Some(0);
  }

  /** The polls from `first` up to tick i are all stable. */
  ghost predicate StableRun(ticks: seq<Tick>, first: nat, i: nat)
    requires i <= |ticks|
  {
    first < i && Stable(ticks, first) && forall n :: first <= n < i && ticks[n].Poll? ==> Stable(ticks, n)
  }

  /** What the loop remembers before tick i: the earliest stable run, if there is one. */
  ghost predicate Earliest(ticks: seq<Tick>, first: Option<nat>, i: nat)
    requires i <= |ticks|
  {
    && (first.Some? ==> StableRun(ticks, first.value, i))
    && forall j: nat :: StableRun(ticks, j, i) ==> first.Some? && first.value <= j
  }

  /** A poll completes a certified interval exactly if it extends the earliest run far
      enough. */
  lemma PollDecides(ticks: seq<Tick>, quiet: real, i: nat, first: Option<nat>)
    requires Timeline(ticks) && i < |ticks| && Earliest(ticks, first, i)
    ensures (exists j: nat :: Certifies(ticks, quiet, j, i))
       <==> Stable(ticks, i) && first.Some? && ticks[first.value].at + quiet <= Ack(ticks, i).value
  {
    hide BytesRead, Ack, PolledBytes;
    if j: nat :| Certifies(ticks, quiet, j, i) {
      assert StableRun(ticks, j, i);
    }
    if Stable(ticks, i) && first.Some? && ticks[first.value].at + quiet <= Ack(ticks, i).value {
      assert Certifies(ticks, quiet, first.value, i);
    }
  }

  lemma EarliestStep(ticks: seq<Tick>, first: Option<nat>, i: nat)
    requires i < |ticks| && Earliest(ticks, first, i)
    ensures !ticks[i].Poll? ==> Earliest(ticks, first, i + 1)
    ensures ticks[i].Poll? && !Stable(ticks, i) ==> Earliest(ticks, None, i + 1)
    ensures Stable(ticks, i) ==> Earliest(ticks, if first.Some? then first else Some(i), i + 1)
  {
    hide Stable;
    var after := i + 1;
    var next := if !ticks[i].Poll? || first.Some? then first else Some(i);
    if first.Some? {
      RunStep(ticks, first.value, i);
    }
    RunStep(ticks, i, i);
    if !ticks[i].Poll? || Stable(ticks, i) {
      forall j: nat | StableRun(ticks, j, after)
        ensures next.Some? && next.value <= j
      {
        RunStep(ticks, j, i);
      }
      assert Earliest(ticks, next, i + 1);
    } else {
      forall j: nat | StableRun(ticks, j, after)
        ensures false
      {
        RunStep(ticks, j, i);
      }
    }
  }

  lemma RunStep(ticks: seq<Tick>, j: nat, i: nat)
    requires i < |ticks|
    ensures StableRun(ticks, j, i + 1) <==>
              (StableRun(ticks, j, i) && (ticks[i].Poll? ==> Stable(ticks, i))) || (j == i && Stable(ticks, i))
    ensures Stable(ticks, i) ==> ticks[i].Poll?
  {
    hide BytesRead, Ack, PolledBytes;
  }

  /** The loop of the tool, driven by a timeline.  It asks to stop at the first poll
      before the deadline that completes a certified interval, and only there. */
  method StopAfterQuiet(quiet: real, start: real, ticks: seq<Tick>) returns (r: Outcome)
    requires Timeline(ticks)
    ensures r.InvalidInterval? <==> quiet <= 0.0
    ensures r.StopAt? ==>
              && r.index < |ticks| && ticks[r.index].Poll?
              && (exists j: nat :: Certifies(ticks, quiet, j, r.index))
              && (forall j: nat, k: nat :: k < r.index ==> !Certifies(ticks, quiet, j, k))
              && (forall i :: 0 <= i <= r.index ==>
                    !ticks[i].Failure? && (ticks[i].Poll? ==> ticks[i].checked < Deadline(quiet, start)))
    ensures r.NotQuiet? ==>
              forall j: nat, k: nat :: Certifies(ticks, quiet, j, k) ==>
                exists i :: 0 <= i <= k && ticks[i].Poll? && Deadline(quiet, start) <= ticks[i].checked
    ensures r.ReaderFailed? ==> exists i :: 0 <= i < |ticks| && ticks[i].Failure?
  {
    if quiet <= 0.0 {
      return InvalidInterval;
    }
    var readerBytes := 0;
    var readerError := false;
    var emptyRead: Option<real> := None;
    var stableSince: Option<real> := None;
    var previous: Option<nat> := None;
    ghost var first: Option<nat> := None;
    for i := 0 to |ticks|
      invariant readerBytes == BytesRead(ticks, i) && emptyRead == Ack(ticks, i) && previous == PolledBytes(ticks, i)
      invariant readerError <==> exists n :: 0 <= n < i && ticks[n].Failure?
      invariant forall n :: 0 <= n < i && ticks[n].Poll? ==> ticks[n].checked < Deadline(quiet, start)
      invariant forall j: nat, k: nat :: k < i ==> !Certifies(ticks, quiet, j, k)
      // stableSince is the time of the first poll of the current run of stable polls.
      invariant Earliest(ticks, first, i)
      invariant match first case None => stableSince.None? case Some(n) => stableSince == Some(ticks[n].at)
    {
      hide Certifies, Earliest, Deadline, Timeline;
      PollDecides(ticks, quiet, i, first);
      EarliestStep(ticks, first, i);
      match ticks[i]
      case Taken(_, _) =>
      case AckCleared(_) =>
        emptyRead := None;
      case Counted(_, size) =>
        readerBytes := readerBytes + size;
      case Looked(_, _) =>
      case Acknowledged(at, drained) =>
        emptyRead := if drained then Some(at) else None;
      case Reset(_) =>
        emptyRead := None;
      case Failure(_) =>
        readerError := true;
      case Poll(now, checked) =>
        if Deadline(quiet, start) <= checked {
          return NotQuiet;
        }
        if readerError {
          return ReaderFailed;
        }
        if emptyRead.Some? && previous == Some(readerBytes) {
          assert Stable(ticks, i);
          if stableSince.None? {
            stableSince := Some(now);
            first := Some(i);
          } else if stableSince.value + quiet <= emptyRead.value {
            return StopAt(i);
          }
        } else {
          stableSince := None;
          first := None;
        }
        previous := Some(readerBytes);
    }
    return NotQuiet;
  }

  /** Ten quiet times, but at least five seconds. */
  function Deadline(quiet: real, start: real): (r: real)
    ensures start + 5.0 <= r && start + 10.0 * quiet <= r && (r == start + 5.0 || r == start + 10.0 * quiet)
  {
    start + if 5.0 < quiet * 10.0 then quiet * 10.0 else 5.0
  }
}
