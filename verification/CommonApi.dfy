/** The open/close protocol shared by the Flash and the TSIP common API.

Any number of tasks call Open and Close on one status word.  Only the decision
at the start of a call is inside a critical section; every later access to the
status word, the driver and the semaphore handle is a step of its own, so runs
are arbitrary interleavings of those steps. */
module CommonApi {
  datatype Status = CLOSE | OPEN | RUNNING

  /** The two instances of the protocol differ in the close path alone: Flash
      gives up when the driver refuses to close, TSIP ignores the refusal. */
  datatype Device = Flash | Tsip

  datatype Call = OpenCall | CloseCall

  datatype Verdict = Success | Error

  /** What a task does next. */
  datatype Pc =
    | Idle
    | OpenEntry | OpenDriver | OpenResource | OpenPublish | OpenAbort | OpenWait | OpenCheck
    | CloseEntry | CloseDriver | CloseResource | ClosePublish | CloseAbort | CloseWait | CloseCheck
    | Returned(call: Call, verdict: Verdict)

  /** `handle` says that the semaphore handle is non-null.  The counters record
      semaphores created, deleted and overwritten while still live, and driver
      closes that the Flash path reported as failed. */
  datatype State = State(
    status: Status,
    driverOpen: bool,
    handle: bool,
    created: nat,
    deleted: nat,
    orphaned: nat,
    failedCloses: nat,
    pcs: seq<Pc>)

  /** The scheduler runs `task`; `ok` is the answer of the driver or the kernel
      if this step asks one, `call` the next call of a task that is in none. */
  datatype Event = Event(task: nat, ok: bool, call: Call)

  function Init(tasks: nat): State {
    State(CLOSE, false, false, 0, 0, 0, 0, seq(tasks, i => Idle))
  }

  function At(s: State, t: nat, pc: Pc): State
    requires t < |s.pcs|
  {
    s.(pcs := s.pcs[t := pc])
  }

  /** One step: only the scheduled task moves. */
  function Next(device: Device, s: State, e: Event): (s': State)
    ensures |s'.pcs| == |s.pcs|
    ensures e.task < |s.pcs| ==> s'.pcs == s.pcs[e.task := s'.pcs[e.task]]
    ensures e.task >= |s.pcs| ==> s' == s
  {
    var t := e.task;
    if t >= |s.pcs| then s else
    match s.pcs[t]
    case Idle => Enter(s, e)
    case Returned(_, _) => Enter(s, e)
    case OpenEntry =>
      (match s.status
       case CLOSE => At(s, t, OpenDriver).(status := RUNNING)
       case RUNNING => At(s, t, OpenWait)
       case OPEN => At(s, t, Returned(OpenCall, Success)))
    case OpenDriver =>
      if e.ok then At(s, t, OpenResource).(driverOpen := true) else At(s, t, OpenAbort)
    case OpenResource =>
      var leaked := if s.handle then 1 else 0;
      if e.ok then
        At(s, t, OpenPublish).(handle := true, created := s.created + 1, orphaned := s.orphaned + leaked)
      else
        At(s, t, OpenAbort).(handle := false, orphaned := s.orphaned + leaked)
    case OpenPublish => At(s, t, Returned(OpenCall, Success)).(status := OPEN)
    case OpenAbort => At(s, t, Returned(OpenCall, Error)).(status := CLOSE)
    case OpenWait => if s.status == RUNNING then s else At(s, t, OpenCheck)
    case OpenCheck => At(s, t, Returned(OpenCall, if s.status == OPEN then Success else Error))
    case CloseEntry =>
      (match s.status
       case OPEN => At(s, t, CloseDriver).(status := RUNNING)
       case RUNNING => At(s, t, CloseWait)
       case CLOSE => At(s, t, Returned(CloseCall, Success)))
    case CloseDriver =>
      if e.ok then At(s, t, CloseResource).(driverOpen := false)
      else if device == Flash then At(s, t, CloseAbort).(failedCloses := s.failedCloses + 1)
      else At(s, t, CloseResource)
    case CloseResource =>
      At(s, t, ClosePublish).(handle := false, deleted := s.deleted + if s.handle then 1 else 0)
    case ClosePublish => At(s, t, Returned(CloseCall, Success)).(status := CLOSE)
    case CloseAbort => At(s, t, Returned(CloseCall, Error)).(status := CLOSE)
    case CloseWait => if s.status == RUNNING then s else At(s, t, CloseCheck)
    case CloseCheck => At(s, t, Returned(CloseCall, if s.status == CLOSE then Success else Error))
  }

  function Enter(s: State, e: Event): State
    requires e.task < |s.pcs|
  {
    At(s, e.task, if e.call == OpenCall then OpenEntry else CloseEntry)
  }

  /** The state after a whole run. */
  function Run(device: Device, s: State, events: seq<Event>): State
    decreases |events|
  {
    if events == [] then s
    else Next(device, Run(device, s, events[..|events| - 1]), events[|events| - 1])
  }

  /** The steps between winning the decision and publishing its outcome. */
  predicate InTransition(pc: Pc) {
    pc in {OpenDriver, OpenResource, OpenPublish, OpenAbort, CloseDriver, CloseResource, ClosePublish, CloseAbort}
  }

  predicate Transitioning(s: State, t: nat) {
    t < |s.pcs| && InTransition(s.pcs[t])
  }

  /** The task is inside R_FLASH_Open / R_TSIP_Open or the matching close call. */
  predicate InDriverCall(s: State, t: nat) {
    t < |s.pcs| && (s.pcs[t] == OpenDriver || s.pcs[t] == CloseDriver)
  }

  /** What the owner of the transition may rely on at each of its steps. */
  ghost predicate OwnerFacts(device: Device, s: State, pc: Pc) {
    match pc
    case OpenDriver => device == Tsip ==> !s.handle
    case OpenResource => s.driverOpen && (device == Tsip ==> !s.handle)
    case OpenPublish => s.driverOpen && s.handle
    case OpenAbort => device == Tsip ==> !s.handle
    case CloseDriver => s.driverOpen && s.handle
    case CloseResource => s.handle && (device == Flash ==> !s.driverOpen)
    case ClosePublish => !s.handle && (device == Flash ==> !s.driverOpen)
    case CloseAbort => device == Flash && s.driverOpen && s.handle && 0 < s.failedCloses
    case _ => true
  }

  /** The handle is live although no one will delete it before it is overwritten. */
  ghost predicate Stale(s: State) {
    s.handle && s.status != OPEN &&
    !exists t: nat :: t < |s.pcs| && s.pcs[t] in {OpenPublish, CloseDriver, CloseResource}
  }

  /** RUNNING is the lock: it is set exactly while one task is in transition. */
  ghost predicate Exclusive(s: State) {
    && (s.status == RUNNING <==> exists t: nat :: Transitioning(s, t))
    && (forall t: nat, u: nat :: Transitioning(s, t) && Transitioning(s, u) ==> t == u)
  }

  ghost predicate Owned(device: Device, s: State) {
    && (s.status == OPEN ==> s.driverOpen && s.handle)
    && (device == Tsip && s.status == CLOSE ==> !s.handle)
    && forall t: nat :: t < |s.pcs| ==> OwnerFacts(device, s, s.pcs[t])
  }

  ghost predicate Conserved(device: Device, s: State) {
    && s.created == s.deleted + s.orphaned + (if s.handle then 1 else 0)
    && (device == Tsip ==> s.failedCloses == 0 && s.orphaned == 0)
    && s.orphaned + (if Stale(s) then 1 else 0) <= s.failedCloses
  }

  ghost predicate Inv(device: Device, s: State) {
    Exclusive(s) && Owned(device, s) && Conserved(device, s)
  }

  lemma OthersStay(device: Device, s: State, e: Event)
    ensures |Next(device, s, e).pcs| == |s.pcs|
    ensures forall u: nat :: u < |s.pcs| && u != e.task ==> Next(device, s, e).pcs[u] == s.pcs[u]
    ensures forall u: nat :: u != e.task ==> Transitioning(Next(device, s, e), u) == Transitioning(s, u)
  {
  }

  /** How one step moves the scheduled task in or out of the transition. */
  lemma TransitionEffect(device: Device, s: State, e: Event)
    requires e.task < |s.pcs|
    ensures var s' := Next(device, s, e);
            var before, after := InTransition(s.pcs[e.task]), InTransition(s'.pcs[e.task]);
            && (before ==> s'.status == s.status || !after)
            && (before && !after ==> s'.status != RUNNING)
            && (!before && after ==> s.status != RUNNING && s'.status == RUNNING)
            && (!before && !after ==> s'.status == s.status)
  {
    var s' := Next(device, s, e);
    assert s'.pcs == s.pcs[e.task := s'.pcs[e.task]];
    match s.pcs[e.task]
    case OpenEntry =>
    case CloseEntry =>
    case _ =>
  }

  lemma StepKeepsExclusive(device: Device, s: State, e: Event)
    requires Exclusive(s)
    ensures Exclusive(Next(device, s, e))
  {
    var s', t := Next(device, s, e), e.task;
    OthersStay(device, s, e);
    if t < |s.pcs| {
      TransitionEffect(device, s, e);
      hide Next, InTransition;
      if Transitioning(s, t) {
        assert s.status == RUNNING;
        assert (s'.status == RUNNING) == Transitioning(s', t);
      } else if Transitioning(s', t) {
        assert s'.status == RUNNING;
      } else {
        assert s'.status == s.status;
        if u: nat :| Transitioning(s, u) {
          assert Transitioning(s', u);
        }
      }
    }
  }

  lemma StepKeepsOwned(device: Device, s: State, e: Event)
    requires Inv(device, s)
    ensures Owned(device, Next(device, s, e))
  {
    var s', t := Next(device, s, e), e.task;
    OthersStay(device, s, e);
    if t < |s.pcs| {
      assert Transitioning(s, t) == InTransition(s.pcs[t]);
      assert OwnerFacts(device, s, s.pcs[t]);
      assert OwnerFacts(device, s', s'.pcs[t]);
      forall u: nat | u < |s.pcs| && u != t
        ensures OwnerFacts(device, s', s'.pcs[u])
      {
        assert OwnerFacts(device, s, s.pcs[u]);
        assert Transitioning(s, u) == InTransition(s.pcs[u]);
      }
    }
  }

  /** Which step the owner is at decides whether the live handle is stale. */
  lemma StaleFrom(s: State, t: nat)
    requires Exclusive(s) && Transitioning(s, t)
    ensures Stale(s) <==> s.handle && s.pcs[t] !in {OpenPublish, CloseDriver, CloseResource}
  {
    forall u: nat | u < |s.pcs| && s.pcs[u] in {OpenPublish, CloseDriver, CloseResource}
      ensures u == t
    {
      assert Transitioning(s, u);
    }
  }

  lemma StaleAtRest(s: State)
    requires Exclusive(s) && s.status != RUNNING
    ensures Stale(s) <==> s.handle && s.status == CLOSE
  {
    forall u: nat | u < |s.pcs|
      ensures s.pcs[u] !in {OpenPublish, CloseDriver, CloseResource}
    {
      assert !Transitioning(s, u);
    }
  }

  lemma StepKeepsConserved(device: Device, s: State, e: Event)
    requires Inv(device, s)
    ensures Conserved(device, Next(device, s, e))
  {
    var s', t := Next(device, s, e), e.task;
    StepKeepsExclusive(device, s, e);
    OthersStay(device, s, e);
    if t < |s.pcs| {
      assert OwnerFacts(device, s, s.pcs[t]);
      if Transitioning(s, t) {
        StaleFrom(s, t);
        if Transitioning(s', t) { StaleFrom(s', t); } else { StaleAtRest(s'); }
      } else if Transitioning(s', t) {
        StaleAtRest(s);
        StaleFrom(s', t);
      } else {
        assert s'.status == s.status && s'.handle == s.handle;
        if s.status == RUNNING {
          var u: nat :| Transitioning(s, u);
          assert Transitioning(s', u);
          StaleFrom(s, u);
          StaleFrom(s', u);
        } else {
          StaleAtRest(s);
          StaleAtRest(s');
        }
      }
    }
  }

  /** Every run of every number of tasks keeps the invariant. */
  lemma {:induction false} InvHoldsInEveryRun(device: Device, tasks: nat, events: seq<Event>)
    ensures Inv(device, Run(device, Init(tasks), events))
    ensures |Run(device, Init(tasks), events).pcs| == tasks
    decreases |events|
  {
    if events != [] {
      var s, e := Run(device, Init(tasks), events[..|events| - 1]), events[|events| - 1];
      InvHoldsInEveryRun(device, tasks, events[..|events| - 1]);
      StepKeepsExclusive(device, s, e);
      StepKeepsOwned(device, s, e);
      StepKeepsConserved(device, s, e);
      OthersStay(device, s, e);
    }
  }

  /** Mutual exclusion: in every run RUNNING is set exactly while some task is in
      transition, no two tasks ever are, so driver open and close never overlap. */
  lemma MutualExclusion(device: Device, tasks: nat, events: seq<Event>)
    ensures var s := Run(device, Init(tasks), events);
      && (s.status == RUNNING <==> exists t: nat :: Transitioning(s, t))
      && (forall t: nat, u: nat :: Transitioning(s, t) && Transitioning(s, u) ==> t == u)
      && (forall t: nat, u: nat :: InDriverCall(s, t) && InDriverCall(s, u) ==> t == u)
  {
    InvHoldsInEveryRun(device, tasks, events);
    var s := Run(device, Init(tasks), events);
    forall t: nat, u: nat | InDriverCall(s, t) && InDriverCall(s, u)
      ensures t == u
    {
      assert Transitioning(s, t) && Transitioning(s, u);
    }
  }

  /** OPEN is only ever published with the driver open and a usable semaphore. */
  lemma OpenMeansUsable(device: Device, tasks: nat, events: seq<Event>)
    ensures var s := Run(device, Init(tasks), events);
      s.status == OPEN ==> s.driverOpen && s.handle
  {
    InvHoldsInEveryRun(device, tasks, events);
  }

  /** Semaphores are conserved.  TSIP never loses one; Flash loses at most one per
      driver close that failed. */
  lemma SemaphoresConserved(device: Device, tasks: nat, events: seq<Event>)
    ensures var s := Run(device, Init(tasks), events);
      && s.created == s.deleted + s.orphaned + (if s.handle then 1 else 0)
      && (device == Tsip ==> s.orphaned == 0)
      && s.orphaned <= s.failedCloses
  {
    InvHoldsInEveryRun(device, tasks, events);
  }

  lemma RunPrefix(device: Device, s: State, events: seq<Event>, k: nat)
    requires k < |events|
    ensures Run(device, s, events[..k + 1]) == Next(device, Run(device, s, events[..k]), events[k])
  {
    assert events[..k + 1][..k] == events[..k];
  }

  /** Task t keeps running alone, answered `oks` in turn. */
  function Alone(device: Device, s: State, t: nat, call: Call, oks: seq<bool>): State
    decreases |oks|
  {
    if oks == [] then s else Alone(device, Next(device, s, Event(t, oks[0], call)), t, call, oks[1..])
  }

  lemma AloneStep(device: Device, s: State, t: nat, call: Call, ok: bool, oks: seq<bool>)
    ensures Alone(device, s, t, call, [ok] + oks) == Alone(device, Next(device, s, Event(t, ok, call)), t, call, oks)
    ensures Alone(device, s, t, call, []) == s
  {
    hide Next;
    assert ([ok] + oks)[1..] == oks;
  }

  /** The Flash bound is attained from every open state: a refused driver close
      publishes CLOSE with the driver still open, and the next open overwrites the live
      semaphore handle.  That needs a driver that answers success to an open while it is
      still open: the handle leaks exactly if it does (`accepts`), whatever the kernel
      answers about the new semaphore. */
  lemma RefusedFlashCloseLeaks(s: State, t: nat, accepts: bool, created: bool)
    requires Inv(Flash, s) && s.status == OPEN && t < |s.pcs| && s.pcs[t] == CloseEntry
    ensures var closed := Alone(Flash, s, t, OpenCall, [true, false, true]);
      && closed.status == CLOSE && closed.driverOpen && closed.handle
      && closed.pcs[t] == Returned(CloseCall, Error)
      && var reopened := Alone(Flash, closed, t, OpenCall, [true, true, accepts, created, true]);
         && reopened.orphaned == s.orphaned + (if accepts then 1 else 0)
         && (accepts && created ==> reopened.status == OPEN)
         && (!accepts ==> reopened.status == CLOSE && reopened.handle)
  {
    var s1 := Next(Flash, s, Event(t, true, OpenCall));
    var s2 := Next(Flash, s1, Event(t, false, OpenCall));
    var closed := Next(Flash, s2, Event(t, true, OpenCall));
    AloneStep(Flash, s, t, OpenCall, true, [false, true]);
    AloneStep(Flash, s1, t, OpenCall, false, [true]);
    AloneStep(Flash, s2, t, OpenCall, true, []);
    var r1 := Next(Flash, closed, Event(t, true, OpenCall));
    var r2 := Next(Flash, r1, Event(t, true, OpenCall));
    var r3 := Next(Flash, r2, Event(t, accepts, OpenCall));
    var r4 := Next(Flash, r3, Event(t, created, OpenCall));
    var r5 := Next(Flash, r4, Event(t, true, OpenCall));
    AloneStep(Flash, closed, t, OpenCall, true, [true, accepts, created, true]);
    AloneStep(Flash, r1, t, OpenCall, true, [accepts, created, true]);
    AloneStep(Flash, r2, t, OpenCall, accepts, [created, true]);
    AloneStep(Flash, r3, t, OpenCall, created, [true]);
    AloneStep(Flash, r4, t, OpenCall, true, []);
  }

  function StateAt(device: Device, tasks: nat, events: seq<Event>, k: nat): (s: State)
    requires k <= |events|
    ensures |s.pcs| == tasks
  {
    InvHoldsInEveryRun(device, tasks, events[..k]);
    Run(device, Init(tasks), events[..k])
  }

  /** Task t is inside `call` from state i up to state j of a run: it stands at the
      entry at i and returns with the step that reaches j. */
  ghost predicate CallSpans(device: Device, tasks: nat, events: seq<Event>, t: nat, call: Call, i: nat, j: nat)
  {
    && t < tasks && i < j <= |events|
    && StateAt(device, tasks, events, i).pcs[t] == (if call == OpenCall then OpenEntry else CloseEntry)
    && (forall k: nat :: i <= k < j ==> !StateAt(device, tasks, events, k).pcs[t].Returned?)
  }

  /** A call succeeds only if the status it promises was really set at some moment
      of that very call, whatever the other tasks did meanwhile. */
  lemma SuccessWasTrueDuringTheCall(
      device: Device, tasks: nat, events: seq<Event>, t: nat, call: Call, i: nat, j: nat)
    requires CallSpans(device, tasks, events, t, call, i, j)
    requires StateAt(device, tasks, events, j).pcs[t] == Returned(call, Success)
    ensures exists k: nat ::
              i <= k <= j && StateAt(device, tasks, events, k).status == (if call == OpenCall then OPEN else CLOSE)
  {
    hide Next;
    RunPrefix(device, Init(tasks), events, j - 1);
    var s, s' := StateAt(device, tasks, events, j - 1), StateAt(device, tasks, events, j);
    assert s' == Next(device, s, events[j - 1]);
    SuccessStep(device, s, events[j - 1], t, call);
  }

  lemma SuccessStep(device: Device, s: State, e: Event, t: nat, call: Call)
    requires t < |s.pcs| && !s.pcs[t].Returned? && Next(device, s, e).pcs[t] == Returned(call, Success)
    ensures var goal := if call == OpenCall then OPEN else CLOSE;
            s.status == goal || Next(device, s, e).status == goal
  {
    OthersStay(device, s, e);
    assert e.task == t;
  }

  /** RUNNING cannot get stuck: it always has an owner, and three steps of that
      owner end it whatever the driver and the kernel answer. */
  lemma RunningAlwaysEnds(device: Device, tasks: nat, events: seq<Event>)
    requires Run(device, Init(tasks), events).status == RUNNING
    ensures exists t: nat ::
              Transitioning(Run(device, Init(tasks), events), t) &&
              forall a: Event, b: Event, c: Event ::
                a.task == b.task == c.task == t ==> ClearedWithin(device, Run(device, Init(tasks), events), a, b, c)
  {
    InvHoldsInEveryRun(device, tasks, events);
    var s := Run(device, Init(tasks), events);
    var t: nat :| Transitioning(s, t);
    forall a: Event, b: Event, c: Event | a.task == b.task == c.task == t
      ensures ClearedWithin(device, s, a, b, c)
    {
      var s1 := Next(device, s, a);
      var s2 := Next(device, s1, b);
      var s3 := Next(device, s2, c);
      if s1.status == RUNNING {
        assert s1.pcs[t] in {OpenResource, OpenPublish, OpenAbort, CloseResource, ClosePublish, CloseAbort};
        assert s2.status == RUNNING ==> s2.pcs[t] in {OpenPublish, OpenAbort, ClosePublish, CloseAbort};
      }
    }
  }

  ghost predicate ClearedWithin(device: Device, s: State, a: Event, b: Event, c: Event) {
    var s1 := Next(device, s, a);
    var s2 := Next(device, s1, b);
    s1.status != RUNNING || s2.status != RUNNING || Next(device, s2, c).status != RUNNING
  }
}
