/** create_policy, delete_owned_policy and cleanup_policy over the policy service. */
module PolicyLifecycle {
  import opened Wrappers
  import opened JournalFile
  import opened EventPolicy

  const DELETE_RETRY_ATTEMPTS: nat := 61
  const DELETE_RETRY_INTERVAL_SECONDS: nat := 5

  datatype Context = Context(
    principal: string,
    name: string,
    arn: string,
    tags: map<string, string>,
    document: Document)

  /** Everything that must be true of the live policy before it is touched. */
  predicate Owned(c: Context, s: State) {
    && c.name in s.policies
    && var p := s.policies[c.name];
       && p.arn == c.arn && p.document == c.document && p.tags == c.tags && p.versions == [true]
       && p.targets <= {c.principal}
  }

  /** No other policy, and no attachment of another policy, has changed. */
  predicate OthersKept(c: Context, s: State, t: State) {
    t.policies - {c.name} == s.policies - {c.name} && s.clock <= t.clock
  }

  datatype Verification = Verification(targetListed: bool)

  /** verify_owned_policy */
  method VerifyOwnedPolicy(cloud: PolicyCloud, c: Context, allowDetached: bool) returns (r: Option<Verification>)
    modifies cloud`failures
    ensures r.Some? ==> cloud.failures == old(cloud.failures)
    ensures old(cloud.failures) <= cloud.failures
    ensures r.Some? ==> Owned(c, cloud.s)
    ensures r.Some? && !r.value.targetListed ==> allowDetached && cloud.s.policies[c.name].targets == {}
    ensures r.Some? && !allowDetached ==>
              && r.value.targetListed
              && c.principal in cloud.s.policies[c.name].targets + cloud.s.policies[c.name].lingering
    ensures cloud.healthy && Owned(c, cloud.s) && cloud.s.policies[c.name].lingering <= {c.principal} ==>
              (allowDetached || cloud.s.policies[c.name].targets == {c.principal}) ==> r.Some?
  {
    var got := cloud.GetPolicy(c.name);
    if !got.Got? || got.arn != c.arn {
      return None;
    }
    var document := cloud.GetDocument(c.name);
    if document != Some(c.document) {
      return None;
    }
    var tags := cloud.ListTags(c.name);
    if tags != Some(c.tags) {
      return None;
    }
    var versions := cloud.ListVersions(c.name);
    if versions != Some([true]) {
      return None;
    }
    var targets := cloud.ListTargets(c.name);
    if targets.None? {
      return None;
    }
    ReadTargets(c, cloud.s.policies[c.name], targets.value, cloud.healthy, cloud.s.clock);
    if targets.value != [c.principal] && targets.value != (if allowDetached then [] else [c.principal]) {
      return None;
    }
    if !allowDetached {
      var attached := cloud.ListAttached(c.principal);
      if attached.None? || c.name !in attached.value {
        return None;
      }
    }
    return Some(Verification(c.principal in targets.value));
  }

  /** What a target list of at most the principal says about the policy. */
  lemma ReadTargets(c: Context, p: Policy, list: seq<string>, healthy: bool, clock: nat)
    requires ListsTargets(p, list, healthy, clock)
    ensures list == [] ==> p.targets == {}
    ensures list == [c.principal] ==> p.targets <= {c.principal} && c.principal in p.targets + p.lingering
    ensures p.targets + p.lingering <= {c.principal} ==> list == [] || list == [c.principal]
    ensures healthy && p.shownUntil <= clock && p.targets == {} ==> list == []
  {
    var shown :| Shows(p, list, shown, healthy, clock);
    if list == [] {
      assert shown == {};
    }
    if list == [c.principal] {
      assert forall x :: x in shown ==> x == c.principal;
      assert c.principal in list;
    }
    if p.targets + p.lingering <= {c.principal} && list != [] {
      assert list[0] in list && shown == {c.principal};
      assert |list| == 1;
    }
  }

  /** The waits of the two retry loops together outlast the service's lag. */
  predicate LagFits(lag: nat) {
    lag <= (DELETE_RETRY_ATTEMPTS - 1) * DELETE_RETRY_INTERVAL_SECONDS
  }

  /** The policy under the context's name is the same, without targets. */
  predicate Bare(c: Context, s: State, deadline: nat) {
    Owned(c, s) && s.policies[c.name].targets == {} && s.policies[c.name].lingering <= {c.principal}
    && SettlesBy(s, c.name, deadline)
  }

  /** The first retry loop: waiting until no target is listed any more. */
  method AwaitDetached(cloud: PolicyCloud, c: Context, ghost deadline: nat) returns (ok: bool)
    modifies cloud`s, cloud`failures
    ensures old(cloud.failures) <= cloud.failures && (ok ==> cloud.failures == old(cloud.failures))
    ensures cloud.s == old(cloud.s).(clock := cloud.s.clock) && old(cloud.s).clock <= cloud.s.clock
    ensures ok ==> c.name in cloud.s.policies && cloud.s.policies[c.name].targets == {}
    ensures !ok ==>
              || old(cloud.failures) < cloud.failures
              || (c.name in cloud.s.policies
                  && !(cloud.s.policies[c.name].targets + cloud.s.policies[c.name].lingering <= {c.principal}))
              || old(cloud.s).clock + (DELETE_RETRY_ATTEMPTS - 1) * DELETE_RETRY_INTERVAL_SECONDS <= cloud.s.clock
    ensures cloud.healthy && Bare(c, old(cloud.s), deadline) ==>
              deadline <= old(cloud.s).clock + (DELETE_RETRY_ATTEMPTS - 1) * DELETE_RETRY_INTERVAL_SECONDS ==> ok
  {
    ghost var start := cloud.s;
    var attempt := 0;
    while true
      invariant cloud.s == start.(clock := cloud.s.clock) && attempt < DELETE_RETRY_ATTEMPTS
      invariant cloud.failures == old(cloud.failures)
      invariant start.clock + attempt * DELETE_RETRY_INTERVAL_SECONDS <= cloud.s.clock
      decreases DELETE_RETRY_ATTEMPTS - attempt
    {
      var remaining := cloud.ListTargets(c.name);
      if remaining.None? {
        return false;
      }
      ReadTargets(c, cloud.s.policies[c.name], remaining.value, cloud.healthy, cloud.s.clock);
      if remaining.value == [] {
        return true;
      }
      if remaining.value != [c.principal] {
        return false;
      }
      if attempt == DELETE_RETRY_ATTEMPTS - 1 {
        return false;
      }
      cloud.Sleep(DELETE_RETRY_INTERVAL_SECONDS);
      attempt := attempt + 1;
    }
  }

  function DeleteCalls(name: string, n: nat): seq<Mutation> {
    seq(n, i => DeletePolicy(name))
  }

  /** The second retry loop: deleting until the service stops reporting a conflict. */
  method DeleteWithRetries(cloud: PolicyCloud, c: Context, ghost deadline: nat) returns (ok: bool, ghost calls: nat)
    modifies cloud`s, cloud`failures
    ensures old(cloud.failures) <= cloud.failures && (ok ==> cloud.failures == old(cloud.failures))
    ensures OthersKept(c, old(cloud.s), cloud.s)
    ensures calls <= DELETE_RETRY_ATTEMPTS && cloud.s.log == old(cloud.s).log + DeleteCalls(c.name, calls)
    ensures cloud.s.policies == old(cloud.s).policies || cloud.s.policies == old(cloud.s).policies - {c.name}
    ensures ok ==> c.name !in cloud.s.policies
    ensures !ok ==> old(cloud.failures) < cloud.failures || calls == DELETE_RETRY_ATTEMPTS
    ensures 0 < calls
    ensures cloud.healthy && Bare(c, old(cloud.s), deadline) ==>
              deadline <= old(cloud.s).clock + (DELETE_RETRY_ATTEMPTS - 1) * DELETE_RETRY_INTERVAL_SECONDS ==> ok
  {
    ghost var start := cloud.s;
    calls := 0;
    var attempt := 0;
    while true
      invariant cloud.s.policies == start.policies && calls == attempt < DELETE_RETRY_ATTEMPTS
      invariant cloud.failures == old(cloud.failures)
      invariant cloud.s.log == start.log + DeleteCalls(c.name, calls)
      invariant start.clock + attempt * DELETE_RETRY_INTERVAL_SECONDS <= cloud.s.clock
      decreases DELETE_RETRY_ATTEMPTS - attempt
    {
      var reply := cloud.Delete(c.name);
      assert DeleteCalls(c.name, calls) + [DeletePolicy(c.name)] == DeleteCalls(c.name, calls + 1);
      calls := calls + 1;
      assert cloud.s.policies - {c.name} == start.policies - {c.name};
      if reply.Deleted? || reply.NotFoundCode? {
        return true, calls;
      }
      if !reply.ConflictCode? || attempt == DELETE_RETRY_ATTEMPTS - 1 {
        return false, calls;
      }
      cloud.Sleep(DELETE_RETRY_INTERVAL_SECONDS);
      attempt := attempt + 1;
    }
  }

  /** The mutations of one deletion: at most one detachment, then delete calls only. */
  ghost predicate DeletionCalls(c: Context, calls: seq<Mutation>) {
    exists n: nat ::
      n <= DELETE_RETRY_ATTEMPTS
      && (calls == DeleteCalls(c.name, n) || calls == [DetachPolicy(c.name, c.principal)] + DeleteCalls(c.name, n))
  }

  /** How a deletion is reported. */
  function Actions(calls: seq<Mutation>): seq<string> {
    (if calls != [] && calls[0].DetachPolicy? then ["detach-policy"] else [])
    + if calls != [] && calls[|calls| - 1].DeletePolicy? then ["delete-policy"] else []
  }

  /** If the policy is still there, it is still the owned one. */
  predicate StillOwned(c: Context, s: State, t: State) {
    c.name in t.policies ==>
      && c.name in s.policies
      && (t.policies == s.policies
          || (&& Owned(c, s) && Owned(c, t)
              && t.policies[c.name].lingering <= s.policies[c.name].lingering + {c.principal}))
  }

  /** A policy that a healthy service lets the tool delete. */
  predicate Deletable(c: Context, s: State, deadline: nat) {
    Owned(c, s) && s.policies[c.name].lingering <= {c.principal} && SettlesBy(s, c.name, deadline)
  }

  lemma DetachedBare(c: Context, s: State, t: State, deadline: nat)
    requires Deletable(c, s, deadline) && c.name in t.policies && SettlesBy(t, c.name, deadline)
    requires IsDetached(s.policies[c.name], t.policies[c.name], c.principal)
    ensures Bare(c, t, deadline)
  {
  }

  /** The part of delete_owned_policy up to its first mutation: verifying the policy and
      detaching the principal if it is listed. */
  method DetachOwned(cloud: PolicyCloud, c: Context, ghost deadline: nat) returns (ok: bool, detached: bool)
    modifies cloud`s, cloud`failures
    ensures old(cloud.failures) <= cloud.failures && (ok ==> cloud.failures == old(cloud.failures))
    ensures cloud.s.log == old(cloud.s).log + if detached then [DetachPolicy(c.name, c.principal)] else []
    ensures if Owned(c, old(cloud.s)) then true else cloud.s == old(cloud.s) && !ok
    ensures StillOwned(c, old(cloud.s), cloud.s) && OthersKept(c, old(cloud.s), cloud.s)
    ensures ok ==> c.name in cloud.s.policies && cloud.s.policies[c.name].targets == {}
    ensures cloud.healthy && Deletable(c, old(cloud.s), deadline) && deadline == old(cloud.s).clock + cloud.lag ==>
              ok && Bare(c, cloud.s, deadline)
  {
    hide SettlesBy;
    ghost var before := cloud.s;
    ok, detached := false, false;
    var verified := VerifyOwnedPolicy(cloud, c, true);
    if verified.None? {
      return;
    }
    ok := true;
    if verified.value.targetListed {
      ghost var reached;
      ok, reached := cloud.Detach(c.name, c.principal);
      detached := true;
      DetachKeeps(c, before, cloud.s, reached);
      if ok && cloud.healthy && Deletable(c, before, deadline) && deadline == before.clock + cloud.lag {
        DetachedBare(c, before, cloud.s, deadline);
      }
    }
  }

  /** delete_owned_policy: true if it returns normally; `calls` is what it issued.
      Nothing is issued before the policy has been verified; only this policy changes; it
      is deleted only once no target is left; a normal return means that it is absent and
      that no call failed; and where the waits outlast the lag of a healthy service, an
      owned policy is always deleted. */
  method DeleteOwnedPolicy(cloud: PolicyCloud, c: Context)
    returns (ok: bool, actions: seq<string>, ghost calls: seq<Mutation>)
    modifies cloud`s, cloud`failures
    ensures old(cloud.failures) <= cloud.failures && (ok ==> cloud.failures == old(cloud.failures))
    ensures !Owned(c, old(cloud.s)) ==> cloud.s == old(cloud.s)
    ensures cloud.s.log == old(cloud.s).log + calls && DeletionCalls(c, calls)
    ensures DeletePolicy(c.name) in calls && c.name in cloud.s.policies ==> cloud.s.policies[c.name].targets == {}
    ensures OthersKept(c, old(cloud.s), cloud.s) && StillOwned(c, old(cloud.s), cloud.s)
    ensures ok ==> c.name !in cloud.s.policies
    ensures ok ==> actions == Actions(calls) && (DeletePolicy(c.name) in calls <==> c.name in old(cloud.s).policies)
    ensures cloud.healthy && c.name !in old(cloud.s).policies ==> ok
    ensures cloud.healthy && Deletable(c, old(cloud.s), old(cloud.s).clock + cloud.lag) ==> LagFits(cloud.lag) ==> ok
  {
    hide *;
    ghost var s0 := cloud.s;
    ghost var deadline := s0.clock + cloud.lag;
    ok, actions, calls := false, [], [];
    NoCalls(c, s0);
    var got := cloud.GetPolicy(c.name);
    if got.GetFailed? {
      return;
    }
    if got.NoPolicy? {
      ok := true;
      return;
    }
    var ready, detached := DetachOwned(cloud, c, deadline);
    ghost var s1 := cloud.s;
    CallsOf(c, detached, 0);
    calls := IssuedCalls(c, detached, 0);
    if !ready {
      return;
    }
    if detached {
      actions := actions + ["detach-policy"];
    }
    var settled := AwaitDetached(cloud, c, deadline);
    ghost var s2 := cloud.s;
    KeptOverTime(c, s0, s1, s2, deadline);
    LagMeans(cloud.lag);
    if !settled {
      return;
    }
    ghost var n;
    ok, n := DeleteWithRetries(cloud, c, deadline);
    CallsOf(c, detached, n);
    calls := IssuedCalls(c, detached, n);
    JoinedCalls(c, detached, s0.log, n);
    AfterDelete(c, s0, s2, cloud.s);
    if ok {
      actions := actions + ["delete-policy"];
      var left := cloud.GetPolicy(c.name);
      ok := left.NoPolicy?;
    }
  }

  /** The calls of a deletion that may have detached and then deleted n times. */
  function IssuedCalls(c: Context, detached: bool, n: nat): seq<Mutation> {
    (if detached then [DetachPolicy(c.name, c.principal)] else []) + DeleteCalls(c.name, n)
  }

  lemma NoCalls(c: Context, s: State)
    ensures DeletionCalls(c, []) && s.log == s.log + [] && Actions([]) == []
    ensures StillOwned(c, s, s) && OthersKept(c, s, s)
    ensures forall deadline: nat :: Deletable(c, s, deadline) ==> Owned(c, s)
    ensures Owned(c, s) ==> c.name in s.policies
  {
    assert [] == DeleteCalls(c.name, 0);
  }

  lemma LagMeans(lag: nat)
    ensures LagFits(lag) <==> lag <= (DELETE_RETRY_ATTEMPTS - 1) * DELETE_RETRY_INTERVAL_SECONDS
  {
  }

  lemma JoinedCalls(c: Context, detached: bool, log: seq<Mutation>, n: nat)
    ensures log + (if detached then [DetachPolicy(c.name, c.principal)] else []) + DeleteCalls(c.name, n)
         == log + IssuedCalls(c, detached, n)
  {
  }

  lemma DetachKeeps(c: Context, s: State, t: State, reached: bool)
    requires Owned(c, s) && t.clock == s.clock
    requires !reached ==> t.policies == s.policies
    requires reached ==>
               && c.name in t.policies && t.policies == s.policies[c.name := t.policies[c.name]]
               && IsDetached(s.policies[c.name], t.policies[c.name], c.principal)
    ensures StillOwned(c, s, t) && OthersKept(c, s, t)
  {
  }

  lemma KeptOverTime(c: Context, s: State, t: State, u: State, deadline: nat)
    requires StillOwned(c, s, t) && OthersKept(c, s, t) && u == t.(clock := u.clock) && t.clock <= u.clock
    ensures s.clock <= t.clock
    ensures StillOwned(c, s, u) && OthersKept(c, s, u) && (Bare(c, t, deadline) ==> Bare(c, u, deadline))
  {
  }

  lemma CallsOf(c: Context, detached: bool, n: nat)
    requires n <= DELETE_RETRY_ATTEMPTS
    ensures var calls := IssuedCalls(c, detached, n);
      && DeletionCalls(c, calls) && (DeletePolicy(c.name) in calls <==> 0 < n)
      && Actions(calls) == (if detached then ["detach-policy"] else []) + if 0 < n then ["delete-policy"] else []
    ensures IssuedCalls(c, detached, 0) == if detached then [DetachPolicy(c.name, c.principal)] else []
  {
    var calls := IssuedCalls(c, detached, n);
    var deletes := DeleteCalls(c.name, n);
    assert [] + deletes == deletes;
    if 0 < n {
      assert calls[|calls| - 1] == DeletePolicy(c.name) && deletes[0] == DeletePolicy(c.name);
    } else {
      assert deletes == [];
    }
  }

  lemma AfterDelete(c: Context, s: State, t: State, u: State)
    requires StillOwned(c, s, t) && OthersKept(c, s, t) && OthersKept(c, t, u)
    requires u.policies == t.policies || u.policies == t.policies - {c.name}
    ensures StillOwned(c, s, u) && OthersKept(c, s, u)
  {
  }
}
