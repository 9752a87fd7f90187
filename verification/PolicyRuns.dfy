/** create_policy with its rollback, cleanup_policy, and recovery across both. */
module PolicyRuns {
  import opened Wrappers
  import opened JournalFile
  import opened EventPolicy
  import opened PolicyLifecycle

  datatype PolicyJournal = PolicyJournal(
    status: string,
    operations: seq<string>,
    verified: bool,
    rollbackComplete: Option<bool>)

  /** How create_policy ends: it may also just stop, without a rollback. */
  datatype Outcome = Ready | Failed(rollbackComplete: bool) | Stopped

  /** What one run of create_policy can leave behind: nothing new, or its own policy. */
  predicate Leftover(c: Context, s: State, t: State) {
    && s.clock <= t.clock
    && (t.policies == s.policies
        || (&& c.name !in s.policies && c.name in t.policies
            && t.policies == s.policies[c.name := t.policies[c.name]]
            && Owned(c, t) && t.policies[c.name].lingering <= {c.principal}))
  }

  /** The try block of create_policy.  `reported` says that create-policy returned. */
  method MakePolicy(cloud: PolicyCloud, journal: Journal<PolicyJournal>, c: Context)
    returns (ready: bool, reported: bool, last: PolicyJournal)
    requires journal.disk == Some(PolicyJournal("planned", [], false, None))
    modifies cloud`s, cloud`failures, journal
    ensures journal.disk.Some? && journal.disk.value.rollbackComplete.None?
    ensures c.arn == PolicyArn(cloud.account, c.name) ==> Leftover(c, old(cloud.s), cloud.s)
    ensures OthersKept(c, old(cloud.s), cloud.s)
    ensures c.name !in old(cloud.s).policies && c.name in cloud.s.policies ==>
              cloud.s.policies[c.name].arn == PolicyArn(cloud.account, c.name)
    ensures cloud.s.log <= old(cloud.s).log + [CreatePolicy(c.name), AttachPolicy(c.name, c.principal)]
    ensures old(cloud.s).log <= cloud.s.log
    ensures c.name in old(cloud.s).policies ==> cloud.s == old(cloud.s) && !ready && !reported
    ensures ready ==> cloud.failures == old(cloud.failures) && journal.failedWrites == old(journal.failedWrites)
    ensures reported ==> c.name !in old(cloud.s).policies
    ensures last.operations <= ["create-policy", "attach-policy"]
    ensures last.status in (if last.operations == [] then {"planned", "collision"}
                            else if |last.operations| == 1 then {"created"}
                            else {"attached", "ready"})
    ensures last.status == "collision" ==> c.name in old(cloud.s).policies
    ensures cloud.healthy && c.name in old(cloud.s).policies ==> last.status == "collision"
    ensures !journal.failing ==> journal.disk == Some(last) || last.operations == []
    ensures ready ==>
              && reported && Owned(c, cloud.s) && cloud.s.policies[c.name].targets == {c.principal}
              && journal.disk == Some(last) && last.status == "ready" && last.verified
              && last.operations == ["create-policy", "attach-policy"]
              && cloud.s.log == old(cloud.s).log + [CreatePolicy(c.name), AttachPolicy(c.name, c.principal)]
    ensures cloud.healthy && !journal.failing && c.name !in old(cloud.s).policies ==>
              && (c.arn == PolicyArn(cloud.account, c.name) ==> ready)
              && c.name in cloud.s.policies
  {
    ghost var start := cloud.s;
    assert start.log == start.log + [CreatePolicy(c.name), AttachPolicy(c.name, c.principal)][..0];
    last := PolicyJournal("planned", [], false, None);
    ready, reported := false, false;
    var existing := cloud.GetPolicy(c.name);
    if existing.GetFailed? {
      return;
    }
    if existing.Got? {
      last := last.(status := "collision");
      var _ := journal.WriteJson(last);
      return;
    }
    var created, reached := cloud.Create(c.name, c.document, c.tags);
    assert cloud.s.policies - {c.name} == start.policies - {c.name};
    if created.None? {
      return;
    }
    reported := true;
    if created.value != c.arn {
      return;
    }
    last := last.(status := "created", operations := last.operations + ["create-policy"]);
    var written := journal.WriteJson(last);
    if !written {
      return;
    }
    ghost var bare := cloud.s;
    var attached, took := cloud.Attach(c.name, c.principal);
    assert cloud.s.policies - {c.name} == start.policies - {c.name};
    if took {
      assert cloud.s.policies == start.policies[c.name := cloud.s.policies[c.name]];
    }
    if !attached {
      return;
    }
    last := last.(status := "attached", operations := last.operations + ["attach-policy"]);
    written := journal.WriteJson(last);
    if !written {
      return;
    }
    var verification := VerifyOwnedPolicy(cloud, c, false);
    if verification.None? {
      return;
    }
    last := last.(status := "ready", verified := true);
    ready := journal.WriteJson(last);
  }

  /** create_policy.  It never adopts an existing policy.  If it fails after the service
      reported the creation, the policy is gone or the rollback is reported incomplete;
      a rollback that is reported complete can hide a policy only where the response of
      create-policy itself was lost. */
  method Create(cloud: PolicyCloud, journal: Journal<PolicyJournal>, c: Context) returns (outcome: Outcome, reported: bool)
    modifies cloud`s, cloud`failures, journal
    ensures c.arn == PolicyArn(cloud.account, c.name) ==> Leftover(c, old(cloud.s), cloud.s)
    ensures OthersKept(c, old(cloud.s), cloud.s)
    ensures c.name in old(cloud.s).policies ==> cloud.s == old(cloud.s) && !outcome.Ready?
    ensures c.name !in old(cloud.s).policies && c.arn != PolicyArn(cloud.account, c.name) ==>
              !Owned(c, cloud.s) && (cloud.healthy && !journal.failing ==> c.name in cloud.s.policies)
    ensures outcome.Ready? ==>
              && Owned(c, cloud.s) && cloud.s.policies[c.name].targets == {c.principal}
              && journal.disk.Some? && journal.disk.value.status == "ready" && journal.disk.value.verified
    ensures cloud.healthy && !journal.failing && c.name !in old(cloud.s).policies ==>
              c.arn == PolicyArn(cloud.account, c.name) ==> outcome.Ready?
    ensures outcome.Failed? && reported ==> c.name !in cloud.s.policies || !outcome.rollbackComplete
    ensures outcome == Failed(true) && c.name !in old(cloud.s).policies && c.name in cloud.s.policies ==> !reported
    ensures outcome.Failed? && !outcome.rollbackComplete ==> reported
    ensures reported ==> c.name !in old(cloud.s).policies
    ensures outcome.Ready? ==> cloud.failures == old(cloud.failures) && journal.failedWrites == old(journal.failedWrites)
    ensures outcome.Failed? && !journal.failing ==>
              && journal.disk.Some? && journal.disk.value.rollbackComplete == Some(outcome.rollbackComplete)
              && journal.disk.value.status in {"collision", "error"}
              && (journal.disk.value.status == "collision" ==> c.name in old(cloud.s).policies)
              && (cloud.healthy && c.name in old(cloud.s).policies ==> journal.disk.value.status == "collision")
    ensures outcome.Failed? ==>
              journal.disk.Some? && journal.disk.value.rollbackComplete in {None, Some(outcome.rollbackComplete)}
  {
    ghost var start := cloud.s;
    reported := false;
    var written := journal.WriteJson(PolicyJournal("planned", [], false, None));
    if !written {
      return Stopped, reported;
    }
    var ready, last;
    ready, reported, last := MakePolicy(cloud, journal, c);
    if ready {
      return Ready, reported;
    }
    var crashed := journal.Stops();
    if crashed {
      return Stopped, reported;
    }
    var rolledBack := true;
    ghost var failed := cloud.s;
    if reported {
      var deleted, _, _ := DeleteOwnedPolicy(cloud, c);
      rolledBack := deleted;
      RollbackLeaves(c, start, failed, cloud.s);
    }
    last := last.(status := if last.status == "collision" then "collision" else "error",
                  rollbackComplete := Some(rolledBack));
    written := journal.WriteJson(last);
    return Failed(rolledBack), reported;
  }

  lemma RollbackLeaves(c: Context, s: State, t: State, u: State)
    requires OthersKept(c, s, t) && OthersKept(c, t, u) && StillOwned(c, t, u)
    ensures OthersKept(c, s, u)
    ensures Leftover(c, s, t) && c.name !in s.policies ==> Leftover(c, s, u)
  {
    if Leftover(c, s, t) && c.name !in s.policies {
      assert s.policies - {c.name} == s.policies;
      if c.name in u.policies {
        assert u.policies == s.policies[c.name := u.policies[c.name]];
      } else {
        assert u.policies == u.policies - {c.name} == s.policies;
      }
    }
  }

  /** cleanup_policy: true if it ends with status "complete". */
  method Cleanup(cloud: PolicyCloud, c: Context) returns (complete: bool)
    modifies cloud`s, cloud`failures
    ensures complete ==> cloud.failures == old(cloud.failures)
    ensures !Owned(c, old(cloud.s)) ==> cloud.s == old(cloud.s)
    ensures OthersKept(c, old(cloud.s), cloud.s) && StillOwned(c, old(cloud.s), cloud.s)
    ensures complete ==> c.name !in cloud.s.policies
    ensures cloud.healthy && LagFits(cloud.lag) ==>
              c.name !in old(cloud.s).policies || Deletable(c, old(cloud.s), old(cloud.s).clock + cloud.lag) ==> complete
  {
    hide Owned, Deletable, LagFits;
    complete := false;
    var existing := cloud.GetPolicy(c.name);
    if existing.GetFailed? {
      return;
    }
    if existing.NoPolicy? {
      return true;
    }
    var deleted, _, _ := DeleteOwnedPolicy(cloud, c);
    if !deleted {
      return;
    }
    var attached := cloud.ListAttached(c.principal);
    if attached.None? {
      return;
    }
    var left := cloud.GetPolicy(c.name);
    complete := left.NoPolicy? && c.name !in attached.value;
  }

  /** The same policies, up to when a detachment of this one settles, which is the
      service's own affair. */
  predicate AsBefore(c: Context, s: State, t: State) {
    && OthersKept(c, s, t) && (c.name in t.policies <==> c.name in s.policies)
    && (c.name in s.policies ==> SameButSettling(s.policies[c.name], t.policies[c.name]))
  }

  predicate SameButSettling(p: Policy, q: Policy) {
    q == p.(shownUntil := q.shownUntil, blockedUntil := q.blockedUntil)
  }

  /** Where a policy stands between creation and runs of cleanup, by what had the name
      before. */
  predicate Resumable(c: Context, account: string, start: State, s: State) {
    if c.name in start.policies && !Owned(c, start) then AsBefore(c, start, s)
    else
      && OthersKept(c, start, s)
      && (c.name in s.policies ==>
            if c.name !in start.policies && c.arn != PolicyArn(account, c.name) then !Owned(c, s)
            else
              && Owned(c, s)
              && s.policies[c.name].lingering
                 <= {c.principal} + if c.name in start.policies then start.policies[c.name].lingering else {})
  }

  /** What cleanup can delete once the service answers and settles. */
  predicate Removable(c: Context, account: string, start: State) {
    if c.name in start.policies then Owned(c, start) && start.policies[c.name].lingering <= {c.principal}
    else c.arn == PolicyArn(account, c.name)
  }

  lemma CleanupKeepsResumable(c: Context, account: string, start: State, s: State, t: State)
    requires Resumable(c, account, start, s) && OthersKept(c, s, t) && StillOwned(c, s, t)
    requires !Owned(c, s) ==> t == s
    ensures Resumable(c, account, start, t)
    ensures c.name in start.policies && !Owned(c, start) ==> c.name in s.policies && !Owned(c, s)
  {
  }

  lemma SettledIsResumable(c: Context, account: string, start: State, s: State, t: State, deadline: nat)
    requires Resumable(c, account, start, s) && t == s.(policies := t.policies)
    requires c.name !in s.policies ==> t.policies == s.policies
    requires c.name in s.policies ==>
               && c.name in t.policies && t.policies == s.policies[c.name := t.policies[c.name]]
               && t.policies[c.name] == s.policies[c.name].(shownUntil := t.policies[c.name].shownUntil,
                                                            blockedUntil := t.policies[c.name].blockedUntil)
               && SettlesBy(t, c.name, deadline)
    ensures Resumable(c, account, start, t) && (Owned(c, t) <==> Owned(c, s))
    ensures Removable(c, account, start) ==> c.name !in t.policies || Deletable(c, t, deadline)
  {
    assert t.policies - {c.name} == s.policies - {c.name};
  }

  lemma CreatedIsResumable(c: Context, account: string, start: State, s: State)
    requires OthersKept(c, start, s) && (c.arn == PolicyArn(account, c.name) ==> Leftover(c, start, s))
    requires c.name in start.policies ==> s == start
    requires c.name !in start.policies && c.arn != PolicyArn(account, c.name) ==> !Owned(c, s)
    ensures Resumable(c, account, start, s)
  {
  }

  /** What is known after the last cleanup. */
  lemma CleanedUp(c: Context, account: string, start: State, t: State, fits: bool, complete: bool)
    requires Resumable(c, account, start, t) && (complete ==> c.name !in t.policies)
    requires fits && Removable(c, account, start) ==> complete
    ensures complete ==> t.policies == start.policies - {c.name}
    ensures complete && c.name !in start.policies ==> t.policies == start.policies
    ensures c.name in start.policies && !Owned(c, start) ==> !complete && AsBefore(c, start, t)
    ensures fits && Removable(c, account, start) ==> (AsBefore(c, start, t) <==> c.name !in start.policies)
    ensures c.name !in start.policies ==> (Removable(c, account, start) <==> c.arn == PolicyArn(account, c.name))
    ensures Removable(c, account, start) && c.name in start.policies ==> Owned(c, start)
  {
    hide Owned;
    if complete {
      assert t.policies == t.policies - {c.name} == start.policies - {c.name};
      assert c.name !in start.policies ==> start.policies == start.policies - {c.name};
    }
  }

  /** Whatever create_policy did and however often cleanup was interrupted, then one
      cleanup on a service that answers and settles in time.  The policies are as before
      exactly if the name was free, or the policy that had it is not an owned one: an
      owned one, as an earlier attempt leaves it, is refused by creation and then deleted.
      With the name free, everything is undone wherever the context names the account of
      the credentials; elsewhere a policy that was created is never deleted. */
  method CreateThenCleanUp(cloud: PolicyCloud, journal: Journal<PolicyJournal>, c: Context, interrupted: nat)
    returns (complete: bool)
    modifies cloud, journal
    ensures complete ==> cloud.s.policies == old(cloud.s).policies - {c.name}
    ensures c.name !in old(cloud.s).policies && complete ==> cloud.s.policies == old(cloud.s).policies
    ensures c.name in old(cloud.s).policies && !Owned(c, old(cloud.s)) ==>
              !complete && AsBefore(c, old(cloud.s), cloud.s)
    ensures LagFits(cloud.lag) && Removable(c, cloud.account, old(cloud.s)) ==> complete
    ensures LagFits(cloud.lag) ==>
              Removable(c, cloud.account, old(cloud.s))
              || (c.name in old(cloud.s).policies && !Owned(c, old(cloud.s))) ==>
                (AsBefore(c, old(cloud.s), cloud.s)
                 <==> c.name !in old(cloud.s).policies || !Owned(c, old(cloud.s)))
    ensures old(cloud.healthy && !journal.failing) && c.name !in old(cloud.s).policies && LagFits(cloud.lag) ==>
              (complete <==> c.arn == PolicyArn(cloud.account, c.name))
  {
    hide Owned, LagFits, StillOwned, OthersKept, Leftover, Deletable, Resumable, Removable, AsBefore, PolicyArn;
    ghost var start := cloud.s;
    var _, _ := Create(cloud, journal, c);
    CreatedIsResumable(c, cloud.account, start, cloud.s);
    ghost var stuck := c.name !in start.policies && c.arn != PolicyArn(cloud.account, c.name)
                       && c.name in cloud.s.policies;
    for i := 0 to interrupted
      invariant Resumable(c, cloud.account, start, cloud.s)
      invariant stuck ==> c.name in cloud.s.policies && !Owned(c, cloud.s)
    {
      ghost var before := cloud.s;
      var _ := Cleanup(cloud, c);
      CleanupKeepsResumable(c, cloud.account, start, before, cloud.s);
    }
    ghost var failing := cloud.s;
    cloud.StopFailing(c.name);
    ghost var before := cloud.s;
    SettledIsResumable(c, cloud.account, start, failing, before, before.clock + cloud.lag);
    complete := Cleanup(cloud, c);
    CleanupKeepsResumable(c, cloud.account, start, before, cloud.s);
    CleanedUp(c, cloud.account, start, cloud.s, LagFits(cloud.lag), complete);
  }

  /** In every account there is such an input: the policy as an earlier attempt of the
      same job left it ready. */
  lemma EarlierAttemptIsDeleted(c: Context, account: string, s: State)
    requires c.arn == PolicyArn(account, c.name)
    ensures var earlier := NewPolicy(account, c.name, c.document, c.tags).(targets := {c.principal});
            var start := s.(policies := s.policies[c.name := earlier]);
            Removable(c, account, start) && Owned(c, start) && c.name in start.policies
  {
    hide PolicyArn;
    assert {c.principal} <= {c.principal};
  }
}
