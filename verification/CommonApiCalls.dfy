/** What the calls of the open/close protocol answer, and that they answer at all. */
module CommonApiCalls {
  import opened CommonApi

  /** The status that a successful call promises. */
  function Goal(call: Call): Status {
    if call == OpenCall then OPEN else CLOSE
  }

  predicate InCall(pc: Pc, call: Call) {
    match call
    case OpenCall =>
      pc in {OpenEntry, OpenDriver, OpenResource, OpenPublish, OpenAbort, OpenWait, OpenCheck}
    case CloseCall =>
      pc in {CloseEntry, CloseDriver, CloseResource, ClosePublish, CloseAbort, CloseWait, CloseCheck}
  }

  // ---------------------------------------------------------------- the verdict is exact

  /** Between states i and k the driver refused task t's close, and Flash took that for
      an error. */
  ghost predicate Refused(device: Device, tasks: nat, events: seq<Event>, t: nat, i: nat, k: nat) {
    && device == Flash && t < tasks && k <= |events|
    && exists n: nat ::
         i <= n < k && events[n].task == t && !events[n].ok && StateAt(device, tasks, events, n).pcs[t] == CloseDriver
  }

  /** Task t is inside one call from state i to state k: it entered at i and has not
      returned before k. */
  ghost predicate Inside(device: Device, tasks: nat, events: seq<Event>, t: nat, call: Call, i: nat, k: nat) {
    && t < tasks && i <= k <= |events|
    && StateAt(device, tasks, events, i).pcs[t] == (if call == OpenCall then OpenEntry else CloseEntry)
    && forall n: nat :: i <= n < k ==> !StateAt(device, tasks, events, n).pcs[t].Returned?
  }

  lemma OneStep(device: Device, s: State, e: Event, t: nat, call: Call)
    requires t < |s.pcs| && InCall(s.pcs[t], call)
    ensures var pc, pc' := s.pcs[t], Next(device, s, e).pcs[t];
      && (InCall(pc', call) || (pc'.Returned? && pc'.call == call))
      && (pc' == CloseAbort <==>
            || (pc == CloseAbort && e.task != t)
            || (device == Flash && pc == CloseDriver && e.task == t && !e.ok))
      && (pc == CloseAbort && e.task == t ==> pc' == Returned(CloseCall, Error))
      && (pc'.Returned? ==>
            (pc'.verdict == Success <==> Next(device, s, e).status == Goal(call) && pc != CloseAbort))
      && (pc'.Returned? || InTransition(pc') ==> InTransition(pc) || s.status != RUNNING || pc in {OpenCheck, CloseCheck})
      && (pc' in {OpenCheck, CloseCheck} && pc' != pc ==> s.status != RUNNING)
  {
  }

  lemma {:induction false} InsideCall(
      device: Device, tasks: nat, events: seq<Event>, t: nat, call: Call, i: nat, k: nat)
    requires Inside(device, tasks, events, t, call, i, k)
    ensures var pc := StateAt(device, tasks, events, k).pcs[t];
      && (InCall(pc, call) || (pc.Returned? && pc.call == call))
      && (pc == CloseAbort ==> Refused(device, tasks, events, t, i, k))
      && (Refused(device, tasks, events, t, i, k) ==> pc == CloseAbort || pc == Returned(CloseCall, Error))
    decreases k
  {
    hide Run, Next, Init, InCall, InTransition, Goal;
    if i < k {
      var before, after := k - 1, k;
      InsideCall(device, tasks, events, t, call, i, before);
      RunPrefix(device, Init(tasks), events, before);
      var s := StateAt(device, tasks, events, before);
      assert StateAt(device, tasks, events, after) == Next(device, s, events[before]);
      OneStep(device, s, events[before], t, call);
    } else {
      EntryIsInside(call);
    }
  }

  lemma EntryIsInside(call: Call)
    ensures InCall(if call == OpenCall then OpenEntry else CloseEntry, call)
  {
  }

  /** The verdict, exactly.  A call that returns reports success if and only if the
      status that it leaves or finds with its last step is the one it promises, and, for
      a close, the driver did not refuse it on Flash. */
  lemma VerdictIsExact(
      device: Device, tasks: nat, events: seq<Event>, t: nat, call: Call, i: nat, j: nat)
    requires CallSpans(device, tasks, events, t, call, i, j) && StateAt(device, tasks, events, j).pcs[t].Returned?
    ensures var pc := StateAt(device, tasks, events, j).pcs[t];
      && pc.call == call
      && (pc.verdict == Success <==>
            && StateAt(device, tasks, events, j).status == Goal(call)
            && !(call == CloseCall && Refused(device, tasks, events, t, i, j)))
  {
    var before := j - 1;
    InsideCall(device, tasks, events, t, call, i, before);
    InsideCall(device, tasks, events, t, call, i, j);
    RunPrefix(device, Init(tasks), events, before);
    var s := StateAt(device, tasks, events, before);
    hide Next;
    assert StateAt(device, tasks, events, j) == Next(device, s, events[before]);
    OneStep(device, s, events[before], t, call);
  }

  /** Until one such moment comes, the call stands at its entry or waits. */
  lemma {:induction false} WaitsForAMoment(
      device: Device, tasks: nat, events: seq<Event>, t: nat, call: Call, i: nat, k: nat)
    requires Inside(device, tasks, events, t, call, i, k)
    requires forall n: nat :: i <= n < k ==> StateAt(device, tasks, events, n).status == RUNNING
    ensures StateAt(device, tasks, events, k).pcs[t] in {OpenEntry, OpenWait, CloseEntry, CloseWait}
    decreases k
  {
    if i < k {
      var before := k - 1;
      hide Run, Next, Init;
      WaitsForAMoment(device, tasks, events, t, call, i, before);
      RunPrefix(device, Init(tasks), events, before);
      var s := StateAt(device, tasks, events, before);
      assert StateAt(device, tasks, events, k) == Next(device, s, events[before]);
      WaitStep(device, s, events[before], t);
    }
  }

  lemma WaitStep(device: Device, s: State, e: Event, t: nat)
    requires t < |s.pcs| && s.pcs[t] in {OpenEntry, OpenWait, CloseEntry, CloseWait} && s.status == RUNNING
    ensures Next(device, s, e).pcs[t] in {OpenEntry, OpenWait, CloseEntry, CloseWait}
  {
  }

  /** No call returns while the status has been RUNNING all along. */
  lemma NoVerdictWhileRunning(
      device: Device, tasks: nat, events: seq<Event>, t: nat, call: Call, i: nat, j: nat)
    requires CallSpans(device, tasks, events, t, call, i, j) && StateAt(device, tasks, events, j).pcs[t].Returned?
    ensures exists k: nat :: i <= k < j && StateAt(device, tasks, events, k).status != RUNNING
  {
    if forall k: nat :: i <= k < j ==> StateAt(device, tasks, events, k).status == RUNNING {
      WaitsForAMoment(device, tasks, events, t, call, i, j);
    }
  }

  /** A task in no call enters the one it makes, and changes nothing else by that. */
  lemma CallsAreEntered(device: Device, tasks: nat, events: seq<Event>, k: nat)
    requires k < |events| && events[k].task < tasks
    requires var pc := StateAt(device, tasks, events, k).pcs[events[k].task]; pc == Idle || pc.Returned?
    ensures var s := StateAt(device, tasks, events, k);
      StateAt(device, tasks, events, k + 1)
      == s.(pcs := s.pcs[events[k].task := match events[k].call case OpenCall => OpenEntry case CloseCall => CloseEntry])
  {
    RunPrefix(device, Init(tasks), events, k);
  }

  // ---------------------------------------------------------------- one call alone

  /** What one call does when no other task is in transition, given the answers of the
      driver and of the kernel; everything but the tasks' positions. */
  function Effect(device: Device, s: State, call: Call, driver: bool, kernel: bool): State {
    var leaked := if s.handle then 1 else 0;
    match (call, s.status)
    case (OpenCall, CLOSE) =>
      if !driver then s
      else if !kernel then s.(driverOpen := true, handle := false, orphaned := s.orphaned + leaked)
      else s.(status := OPEN, driverOpen := true, handle := true, created := s.created + 1,
              orphaned := s.orphaned + leaked)
    case (CloseCall, OPEN) =>
      if !driver && device == Flash then s.(status := CLOSE, failedCloses := s.failedCloses + 1)
      else s.(status := CLOSE, driverOpen := s.driverOpen && !driver, handle := false, deleted := s.deleted + leaked)
    case _ => s
  }

  predicate Succeeds(device: Device, s: State, call: Call, driver: bool, kernel: bool) {
    || s.status == Goal(call)
    || (if call == OpenCall then driver && kernel else driver || device == Tsip)
  }

  /** Running alone from s, task t returns after k of these steps, and no earlier. */
  ghost predicate ReturnsAfter(device: Device, s: State, t: nat, solo: seq<Event>, k: nat, end: State) {
    && k <= |solo| && t < |s.pcs| && Run(device, s, solo[..k]) == end && t < |end.pcs| && end.pcs[t].Returned?
    && forall n: nat :: n < k ==> t < |Run(device, s, solo[..n]).pcs| && !Run(device, s, solo[..n]).pcs[t].Returned?
  }

  lemma SoloSteps(device: Device, s: State, solo: seq<Event>, k: nat)
    requires k <= |solo|
    ensures k == 0 ==> Run(device, s, solo[..k]) == s
    ensures 0 < k ==> Run(device, s, solo[..k]) == Next(device, Run(device, s, solo[..k - 1]), solo[k - 1])
  {
    if 0 < k {
      assert solo[..k][..k - 1] == solo[..k - 1];
    }
  }

  /** A call is answered.  In every run, once no transition is under way, a call at its
      entry that runs alone returns within four steps, whatever driver and kernel answer;
      it succeeds exactly if the status was already the one it promises, or driver and
      kernel did their part; and this is all it changes. */
  lemma CallAlone(
      device: Device, tasks: nat, before: seq<Event>, t: nat, call: Call, solo: seq<Event>)
    returns (k: nat)
    requires t < tasks && |solo| == 4 && forall e :: e in solo ==> e.task == t
    requires StateAt(device, tasks, before, |before|).status != RUNNING
    requires StateAt(device, tasks, before, |before|).pcs[t] == if call == OpenCall then OpenEntry else CloseEntry
    ensures var s, driver, kernel := StateAt(device, tasks, before, |before|), solo[1].ok, solo[2].ok;
      1 <= k <= 4
      && ReturnsAfter(device, s, t, solo, k, Effect(device, s, call, driver, kernel).(
           pcs := s.pcs[t := Returned(call, if Succeeds(device, s, call, driver, kernel) then Success else Error)]))
  {
    hide Run, Next, Init, Effect, Succeeds;
    var s, driver, kernel := StateAt(device, tasks, before, |before|), solo[1].ok, solo[2].ok;
    k := if s.status == Goal(call) then 1
         else if !driver && (call == OpenCall || device == Flash) then 3
         else 4;
    assert solo[0] in solo && solo[1] in solo && solo[2] in solo && solo[3] in solo;
    SoloSteps(device, s, solo, 0);
    SoloSteps(device, s, solo, 1);
    SoloSteps(device, s, solo, 2);
    SoloSteps(device, s, solo, 3);
    SoloSteps(device, s, solo, 4);
    AloneSteps(device, s, t, call, solo[0], solo[1], solo[2], solo[3]);
  }

  /** The steps of such a call one by one. */
  lemma AloneSteps(device: Device, s: State, t: nat, call: Call, a: Event, b: Event, c: Event, d: Event)
    requires t < |s.pcs| && a.task == b.task == c.task == d.task == t && s.status != RUNNING
    requires s.pcs[t] == if call == OpenCall then OpenEntry else CloseEntry
    ensures var end := Effect(device, s, call, b.ok, c.ok).(
              pcs := s.pcs[t := Returned(call, if Succeeds(device, s, call, b.ok, c.ok) then Success else Error)]);
      var s1 := Next(device, s, a);
      if s.status == Goal(call) then s1 == end
      else
        var s2 := Next(device, s1, b);
        var s3 := Next(device, s2, c);
        && !s1.pcs[t].Returned? && !s2.pcs[t].Returned?
        && if !b.ok && (call == OpenCall || device == Flash) then s3 == end
           else !s3.pcs[t].Returned? && Next(device, s3, d) == end
  {
    if s.status != Goal(call) {
      if call == OpenCall {
        OpenSteps(device, s, t, a, b, c, d);
      } else {
        CloseSteps(device, s, t, a, b, c, d);
      }
      hide Next;
    }
  }

  lemma OpenSteps(device: Device, s: State, t: nat, a: Event, b: Event, c: Event, d: Event)
    requires t < |s.pcs| && a.task == b.task == c.task == d.task == t && s.status == CLOSE && s.pcs[t] == OpenEntry
    ensures var end := Effect(device, s, OpenCall, b.ok, c.ok).(
              pcs := s.pcs[t := Returned(OpenCall, if b.ok && c.ok then Success else Error)]);
      var s1 := Next(device, s, a);
      var s2 := Next(device, s1, b);
      var s3 := Next(device, s2, c);
      && !s1.pcs[t].Returned? && !s2.pcs[t].Returned?
      && if !b.ok then s3 == end else !s3.pcs[t].Returned? && Next(device, s3, d) == end
  {
  }

  lemma CloseSteps(device: Device, s: State, t: nat, a: Event, b: Event, c: Event, d: Event)
    requires t < |s.pcs| && a.task == b.task == c.task == d.task == t && s.status == OPEN && s.pcs[t] == CloseEntry
    ensures var end := Effect(device, s, CloseCall, b.ok, c.ok).(
              pcs := s.pcs[t := Returned(CloseCall, if b.ok || device == Tsip then Success else Error)]);
      var s1 := Next(device, s, a);
      var s2 := Next(device, s1, b);
      var s3 := Next(device, s2, c);
      && !s1.pcs[t].Returned? && !s2.pcs[t].Returned?
      && if !b.ok && device == Flash then s3 == end else !s3.pcs[t].Returned? && Next(device, s3, d) == end
  {
  }

  /** A waiting call is answered too: once no transition is under way it looks, and
      succeeds exactly if the status is the one it promises. */
  lemma WaiterAlone(device: Device, tasks: nat, before: seq<Event>, t: nat, call: Call, solo: seq<Event>)
    requires t < tasks && |solo| == 2 && solo[0].task == solo[1].task == t
    requires StateAt(device, tasks, before, |before|).status != RUNNING
    requires StateAt(device, tasks, before, |before|).pcs[t] == if call == OpenCall then OpenWait else CloseWait
    ensures var s := StateAt(device, tasks, before, |before|);
      ReturnsAfter(device, s, t, solo, 2,
                   s.(pcs := s.pcs[t := Returned(call, if s.status == Goal(call) then Success else Error)]))
  {
    var s := StateAt(device, tasks, before, |before|);
    SoloSteps(device, s, solo, 0);
    SoloSteps(device, s, solo, 1);
    SoloSteps(device, s, solo, 2);
    hide Run;
  }
}
