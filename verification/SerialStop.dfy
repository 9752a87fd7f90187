/** When the stop sequence is certified, and when it raises. */
module SerialStop {
  import opened SerialQueue
  import opened SerialProtocol

  // ---------------------------------------------------------------- why an error is raised

  /** The step goes wrong: the driver raises, a chunk does not fit, the final drain is
      refused or comes up short. */
  predicate Breaks(s: State, e: Event) {
    match e
    case ReaderStep(_, fails) =>
      s.thread == Locked
      && (match s.io
          case ReaderIn => fails
          case ReaderOut(chunk) => if chunk == [] then fails else !Fits(s.q, chunk)
          case _ => false)
    case StopStep(_, fails) =>
      (match s.stopper
       case Joined => s.io.Free? && fails
       case Cutting =>
         (match s.io
          case Draining(_) => fails
          case Drained(snapshot, chunk) => !Fits(s.q, chunk) || |chunk| != |snapshot|
          case _ => false)
       case _ => false)
    case _ => false
  }

  /** The stop sequence waits for the reader thread in vain. */
  predicate TimesOut(s: State, e: Event) {
    e.StopStep? && s.stopper == Signalled && !s.thread.Dead? && e.fails
  }

  predicate Due(s: State) {
    s.error || s.thread == Failing || s.stopper == StopFailing
  }

  lemma DueStep(s: State, e: Event)
    requires Locks(s)
    ensures Due(Next(s, e)) <==> Due(s) || Breaks(s, e)
  {
  }

  ghost predicate Broke(limit: nat, events: seq<Event>) {
    exists k: nat :: k < |events| && Breaks(Run(Init(limit), events[..k]), events[k])
  }

  ghost predicate TimedOut(limit: nat, events: seq<Event>) {
    exists k: nat :: k < |events| && TimesOut(Run(Init(limit), events[..k]), events[k])
  }

  lemma OneMore(limit: nat, events: seq<Event>)
    requires events != []
    ensures var front, e := events[..|events| - 1], events[|events| - 1];
      && (Broke(limit, events) <==> Broke(limit, front) || Breaks(Run(Init(limit), front), e))
      && (TimedOut(limit, events) <==> TimedOut(limit, front) || TimesOut(Run(Init(limit), front), e))
  {
    hide Breaks, TimesOut, Run, Init;
    var front, e := events[..|events| - 1], events[|events| - 1];
    forall k: nat | k < |front|
      ensures front[..k] == events[..k] && front[k] == events[k]
    {
    }
    assert events[..|front|] == front;
    if Broke(limit, events) {
      var k: nat :| k < |events| && Breaks(Run(Init(limit), events[..k]), events[k]);
      assert k < |front| ==> front[..k] == events[..k] && front[k] == events[k];
    }
    if TimedOut(limit, events) {
      var k: nat :| k < |events| && TimesOut(Run(Init(limit), events[..k]), events[k]);
      assert k < |front| ==> front[..k] == events[..k] && front[k] == events[k];
    }
    if Broke(limit, front) {
      var k: nat :| k < |front| && Breaks(Run(Init(limit), front[..k]), front[k]);
      assert Breaks(Run(Init(limit), events[..k]), events[k]);
    }
    if TimedOut(limit, front) {
      var k: nat :| k < |front| && TimesOut(Run(Init(limit), front[..k]), front[k]);
      assert TimesOut(Run(Init(limit), events[..k]), events[k]);
    }
    if Breaks(Run(Init(limit), front), e) {
      assert Breaks(Run(Init(limit), events[..|front|]), events[|front|]);
    }
    if TimesOut(Run(Init(limit), front), e) {
      assert TimesOut(Run(Init(limit), events[..|front|]), events[|front|]);
    }
  }

  lemma RaisedStep(s: State, e: Event)
    ensures Next(s, e).stopper.Raised? ==> s.stopper.Raised? || Due(s) || TimesOut(s, e)
  {
  }

  /** An error is raised, or about to be, exactly if some step of the run went wrong. */
  lemma {:induction false} ErrorHasACause(limit: nat, events: seq<Event>)
    ensures Due(Run(Init(limit), events)) <==> Broke(limit, events)
    decreases |events|
  {
    if events != [] {
      var front, e := events[..|events| - 1], events[|events| - 1];
      ErrorHasACause(limit, front);
      InvHoldsInEveryRun(limit, front);
      OneMore(limit, events);
      hide Next, Due, Breaks, Broke, TimedOut, TimesOut, Init;
      assert Run(Init(limit), events) == Next(Run(Init(limit), front), e);
      DueStep(Run(Init(limit), front), e);
    }
  }

  /** The stop sequence raises only for a cause: some step of the run went wrong, or the
      reader thread did not end in time.  And it is certified only if none went wrong. */
  lemma {:induction false} RaisedHasACause(limit: nat, events: seq<Event>)
    ensures Run(Init(limit), events).stopper.Raised? ==> Broke(limit, events) || TimedOut(limit, events)
    ensures Run(Init(limit), events).stopper.Certified? ==> !Broke(limit, events)
    decreases |events|
  {
    ErrorHasACause(limit, events);
    InvHoldsInEveryRun(limit, events);
    if events != [] {
      var front, e := events[..|events| - 1], events[|events| - 1];
      RaisedHasACause(limit, front);
      ErrorHasACause(limit, front);
      OneMore(limit, events);
      RaisedStep(Run(Init(limit), front), e);
      hide Next, Breaks, Broke, TimedOut, TimesOut, Init;
      assert Run(Init(limit), events) == Next(Run(Init(limit), front), e);
    }
  }

  // ---------------------------------------------------------------- that it is certified

  /** How far the stop sequence has come with the bytes p that were pending. */
  predicate Stage(s: State, p: seq<Stamped>, stage: nat) {
    && !s.error && s.thread == Dead
    && match stage
       case 1 => s.stopper == Cutting && s.io == Draining(p) && p <= s.pending && Fits(s.q, p)
       case 2 => s.stopper == Cutting && s.io == Drained(p, p) && Fits(s.q, p)
       case 3 => s.stopper == Releasing(p, p) && !s.io.ReaderIn? && !s.io.ReaderOut?
       case _ => s.stopper == Certified(p, p)
  }

  /** The driver gives the stop sequence all of p and does not fail. */
  predicate Gives(e: Event, p: seq<Stamped>) {
    e.StopStep? ==> !e.fails && |p| <= e.n
  }

  function StopSteps(events: seq<Event>): nat {
    if events == [] then 0
    else StopSteps(events[..|events| - 1]) + if events[|events| - 1].StopStep? then 1 else 0
  }

  lemma StageStep(s: State, p: seq<Stamped>, stage: nat, e: Event)
    requires 1 <= stage && Stage(s, p, stage) && Gives(e, p)
    ensures Stage(Next(s, e), p, if e.StopStep? then stage + 1 else stage)
  {
  }

  lemma {:induction false} StagesGoOn(s: State, p: seq<Stamped>, events: seq<Event>)
    requires Stage(s, p, 1) && forall e :: e in events ==> Gives(e, p)
    ensures Stage(Run(s, events), p, 1 + StopSteps(events))
    decreases |events|
  {
    hide Next, Stage, Gives;
    if events != [] {
      var front, e := events[..|events| - 1], events[|events| - 1];
      StagesGoOn(s, p, front);
      assert forall e :: e in front ==> e in events;
      assert e in events;
      assert Run(s, events) == Next(Run(s, front), e);
      StageStep(Run(s, front), p, 1 + StopSteps(front), e);
    }
  }

  /** An ordinary stop is certified.  The reader thread has ended without an error, no
      cutoff was taken, the I/O lock is free, and what is pending fits in the buffer: then
      four steps of a stop sequence to which the driver gives all that is pending end in
      a certificate of exactly these bytes, whatever arrives, is read or is reset
      meanwhile. */
  lemma OrdinaryStopIsCertified(limit: nat, before: seq<Event>, first: Event, during: seq<Event>)
    requires var s := Run(Init(limit), before);
      && !s.error && !s.cutoff && s.stopper == Joined && s.io.Free? && |s.q.content| + |s.pending| <= limit
      && Gives(first, s.pending) && forall e :: e in during ==> Gives(e, s.pending)
    requires first.StopStep? && 3 <= StopSteps(during)
    ensures var p := Run(Init(limit), before).pending;
      Run(Init(limit), before + [first] + during).stopper == Certified(p, p)
  {
    hide Next, Run, Init, Inv, Stage, Gives;
    var s := Run(Init(limit), before);
    var p := s.pending;
    InvHoldsInEveryRun(limit, before);
    LimitStays(limit, before);
    CutoffTaken(s, first);
    RunJoin(Init(limit), before, [first]);
    OneStepRun(s, first);
    StagesGoOn(Next(s, first), p, during);
    LastStage(Run(Next(s, first), during), p, 1 + StopSteps(during));
    RunJoin(Init(limit), before + [first], during);
  }

  lemma CutoffTaken(s: State, e: Event)
    requires Inv(s) && !s.error && !s.cutoff && s.stopper == Joined && s.io.Free? && Fits(s.q, s.pending)
    requires e.StopStep? && Gives(e, s.pending)
    ensures Stage(Next(s, e), s.pending, 1)
  {
    hide Lossless, Cut, Epochs;
  }

  lemma OneStepRun(s: State, e: Event)
    ensures Run(s, [e]) == Next(s, e)
  {
    hide Next;
    assert [e][..0] == [];
  }

  lemma LastStage(s: State, p: seq<Stamped>, stage: nat)
    requires Stage(s, p, stage) && 4 <= stage
    ensures s.stopper == Certified(p, p)
  {
  }

  lemma ReaderKeepsLimit(s: State, n: nat, fails: bool)
    ensures ReaderNext(s, n, fails).q.limit == s.q.limit
  {
  }

  lemma StopKeepsLimit(s: State, n: nat, fails: bool)
    ensures StopNext(s, n, fails).q.limit == s.q.limit
  {
    if s.stopper in {Joined, Cutting} {
      assert DrainNext(s, n, fails).q.limit == s.q.limit;
    } else {
      StopOutsideLock(s, n, fails);
    }
  }

  lemma LimitStep(s: State, e: Event)
    ensures Next(s, e).q.limit == s.q.limit
  {
    hide ReaderNext, StopNext;
    match e
    case ReaderStep(n, fails) => ReaderKeepsLimit(s, n, fails);
    case StopStep(n, fails) => StopKeepsLimit(s, n, fails);
    case _ =>
  }

  lemma {:induction false} LimitStays(limit: nat, events: seq<Event>)
    ensures Run(Init(limit), events).q.limit == limit
    decreases |events|
  {
    if events != [] {
      LimitStays(limit, events[..|events| - 1]);
      LimitStep(Run(Init(limit), events[..|events| - 1]), events[|events| - 1]);
    }
  }

  /** The steps that the reader thread still has to make once the stop flag is set, if no
      one else keeps the I/O lock. */
  ghost function StepsLeft(s: State): nat {
    match s.thread
    case Dead => 0
    case AtTop => 1
    case Failing => 1
    case Locked => if s.io.ReaderIn? then 3 else 2
    case Entering => 4
  }

  ghost predicate Ending(s: State) {
    && s.stopping && (s.thread == Locked <==> s.io.ReaderIn? || s.io.ReaderOut?)
    && (s.io.Free? || s.io.ReaderIn? || s.io.ReaderOut?)
  }

  lemma ReaderStepsOn(s: State, n: nat, fails: bool)
    requires Ending(s)
    ensures var s' := ReaderNext(s, n, fails);
      && Ending(s') && s'.stopper == s.stopper && s'.cutoff == s.cutoff
      && (StepsLeft(s') < StepsLeft(s) || s.thread == Dead == s'.thread)
  {
  }

  /** Once the stop flag is set the reader thread ends: four steps of it are enough,
      whatever the driver answers, unless another one keeps the I/O lock. */
  lemma {:induction false} ReaderEnds(s: State, steps: seq<Event>)
    requires Ending(s) && forall e :: e in steps ==> e.ReaderStep?
    ensures var end := Run(s, steps);
      && Ending(end) && end.stopper == s.stopper && end.cutoff == s.cutoff
      && (end.thread == Dead || StepsLeft(end) + |steps| <= StepsLeft(s) <= 4)
      && (4 <= |steps| ==> end.thread == Dead && end.io.Free?)
    decreases |steps|
  {
    hide Ending, ReaderNext;
    if steps == [] {
      AtMostFour(s);
    } else {
      var front, e := steps[..|steps| - 1], steps[|steps| - 1];
      assert e in steps && forall x :: x in front ==> x in steps;
      ReaderEnds(s, front);
      ReaderStepsOn(Run(s, front), e.n, e.fails);
      AtMostFour(Run(s, steps));
    }
  }

  lemma AtMostFour(s: State)
    ensures StepsLeft(s) <= 4 && (StepsLeft(s) == 0 ==> s.thread == Dead)
    ensures Ending(s) && s.thread == Dead ==> s.io.Free?
  {
  }

  lemma FourSteps(s: State, steps: seq<Event>)
    requires |steps| == 4
    ensures Run(s, steps) == Next(Next(Next(Next(s, steps[0]), steps[1]), steps[2]), steps[3])
  {
    hide Next;
    assert steps[..3][..2] == steps[..2] && steps[..2][..1] == steps[..1] && steps[..1][..0] == [];
    assert Run(s, steps[..1]) == Next(s, steps[0]);
    assert Run(s, steps[..2]) == Next(Next(s, steps[0]), steps[1]);
    assert Run(s, steps[..3]) == Next(Next(Next(s, steps[0]), steps[1]), steps[2]);
  }

  /** From the call of stop on: between two turns of the reader, with nothing wrong, the
      whole sequence with one more turn of the reader ends in a certificate. */
  lemma StopFromTheStart(limit: nat, before: seq<Event>, n: nat)
    requires var s := Run(Init(limit), before);
      && !s.error && !s.cutoff && s.stopper == Off && s.thread == AtTop && s.io.Free?
      && |s.q.content| + |s.pending| <= limit && |s.pending| <= n
    ensures var p, go := Run(Init(limit), before).pending, StopStep(n, false);
      Run(Init(limit), before + [go, go, ReaderStep(0, false), go] + [go] + [go, go, go]).stopper == Certified(p, p)
  {
    var s, go := Run(Init(limit), before), StopStep(n, false);
    var lead := [go, go, ReaderStep(0, false), go];
    RunJoin(Init(limit), before, lead);
    FourSteps(s, lead);
    var joined := Run(s, lead);
    assert joined == s.(stopping := true, thread := Dead, stopper := Joined);
    ThreeStops(go);
    OrdinaryStopIsCertified(limit, before + lead, go, [go, go, go]);
  }

  lemma ThreeStops(go: Event)
    requires go.StopStep?
    ensures StopSteps([go, go, go]) == 3
  {
    var three := [go, go, go];
    assert three[..2] == [go, go] && [go, go][..1] == [go] && [go][..0] == [];
    assert StopSteps([go]) == 1 && StopSteps([go, go]) == 2;
  }
}
