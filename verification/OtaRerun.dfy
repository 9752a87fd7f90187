/** Running cleanup again after it failed.  Cleanup does not write back what it learns,
so every run starts from the same journal. */
module OtaRerun {
  import opened Wrappers
  import opened OtaMeta
  import opened OtaReconcile
  import opened OtaCloud
  import opened OtaWaits
  import opened OtaCleanup
  import opened OtaCleanupState

  /** What failing cleanups keep of a recoverable journal: an update that is left is the
      journaled one, though it may have failed to be deleted. */
  predicate StillOurs(m: Meta, s: State) {
    && IdentityProblem(m).None? && m.mode == CUSTOM && m.otaUpdateId != "" && Versioned(s)
    && (m.otaUpdateId in s.otas ==>
          OtaMayExist(m) && Matches(m, s.otas[m.otaUpdateId]) && Plausible(s.otas[m.otaUpdateId]))
  }

  /** The update is left in the one state that blocks cleanup for good: it failed to be
      deleted and names no job. */
  predicate StuckWithoutJob(m: Meta, s: State) {
    m.otaUpdateId in s.otas && s.otas[m.otaUpdateId].status == DELETE_FAILED && s.otas[m.otaUpdateId].jobId == ""
  }

  /** Cleanup can learn of job j: the journal names it, or the update that still exists. */
  predicate Knows(m: Meta, s: State, j: string) {
    || j == m.jobId
    || (m.otaUpdateId in s.otas && !BeingDeleted(s, m.otaUpdateId) && s.otas[m.otaUpdateId].jobId == j)
  }

  lemma RecoverableIsOurs(m: Meta, s: State)
    requires Versioned(s)
    ensures Recoverable(m, s) ==> StillOurs(m, s)
    ensures StillOurs(m, s) ==> (Recoverable(m, s) <==> !StuckWithoutJob(m, s))
  {
    hide IdentityProblem, Matches;
  }

  lemma OursAfterWatching(m: Meta, s: State, t: State)
    requires StillOurs(m, s) && Watched(s, t, m.otaUpdateId)
    ensures StillOurs(m, t)
  {
    hide IdentityProblem, Plausible, Pending;
  }

  lemma OursAfterRemoval(m: Meta, after: Meta, s: State, t: State)
    requires StillOurs(m, s) && SameRun(m, after) && Confined(after, s, t) && Versioned(t)
    ensures StillOurs(m, t)
  {
    hide IdentityProblem, Plausible, Versioned;
  }

  /** That pending work is due sooner changes nothing else. */
  lemma OursSooner(m: Meta, s: State, t: State, latency: nat)
    requires StillOurs(m, s) && t == s.(otas := t.otas)
    requires m.otaUpdateId !in s.otas ==> t.otas == s.otas
    requires m.otaUpdateId in s.otas ==>
               && m.otaUpdateId in t.otas && t.otas[m.otaUpdateId] == s.otas[m.otaUpdateId].(due := t.otas[m.otaUpdateId].due)
               && t.otas[m.otaUpdateId].due <= t.clock + latency
    ensures StillOurs(m, t) && DueSoon(t, m.otaUpdateId, latency)
  {
    hide IdentityProblem;
  }

  /** An update that is stuck is refused by the comparison, whatever the honest reply
      leaves out. */
  lemma StuckDisagrees(m: Meta, s: State)
    requires StillOurs(m, s) && StuckWithoutJob(m, s)
    ensures !LiveAgrees(m, s) && !BeingDeleted(s, m.otaUpdateId) && OtaMayExist(m)
  {
    hide IdentityProblem;
    forall ota: Ota, live: Live
        | SameUpdate(s.otas[m.otaUpdateId], ota) && (!Pending(s, m.otaUpdateId) ==> ota == s.otas[m.otaUpdateId])
          && View(m.otaUpdateId, ota, live)
      ensures !Compatible(m, live)
    {
      HonestReplyIsCompatible(m, s, live);
    }
  }

  /** A job stays exactly if this run of cleanup cannot learn of it. */
  lemma UnknownJobStays(m: Meta, after: Meta, s: State, t: State, j: string)
    requires j != "" && j in s.jobs && Recovered(m, s, t) && JobIsOwn(m, after, s) && SameRun(m, after)
    requires Confined(after, s, t) && (BeingDeleted(s, m.otaUpdateId) ==> OtherJobsKept(m, s, t))
    ensures j in t.jobs <==> !Knows(m, s, j)
  {
    hide KeyAbsent, OtaMayExist, OwnsObject, OfSameRequest;
    if !Knows(m, s, j) {
      if BeingDeleted(s, m.otaUpdateId) {
        assert j in s.jobs - {m.jobId};
        assert j in t.jobs - {m.jobId};
      } else {
        assert j != after.jobId;
      }
    }
  }

  /** Cleanup run again and again on a failing service, and once more when it has
      stopped failing.  The last run is blocked exactly if an earlier one left the update
      undeletable and without a job.  Otherwise it passes, update and source are gone,
      and of the jobs that there were it leaves exactly those that neither the journal
      nor the update names any more: a job that only an earlier run knew is left alone
      by a run that passes. */
  method CleanUpAgain(cloud: Cloud, m: Meta, failed: nat, timeout: nat, poll: nat)
    returns (summary: Summary, ghost last: State)
    requires Recoverable(m, cloud.s) && Versioned(cloud.s) && m.bucket != "" && m.key != ""
    requires 0 < poll && cloud.honest && cloud.latency + cloud.callTime <= timeout
    modifies cloud
    ensures summary.passed <==> !StuckWithoutJob(m, last)
    ensures summary.passed ==> m.otaUpdateId !in cloud.s.otas && KeyAbsent(cloud.s, m.bucket, m.key)
    ensures summary.passed ==>
              forall j :: j in last.jobs && j != "" ==> (j in cloud.s.jobs <==> !Knows(m, last, j))
    ensures !summary.passed ==> cloud.s.log == last.log
  {
    hide *;
    RecoverableIsOurs(m, cloud.s);
    OursIsVersioned(m, cloud.s);
    for i := 0 to failed
      invariant StillOurs(m, cloud.s) && Versioned(cloud.s)
    {
      ghost var before := cloud.s;
      var _, after, blocked := CleanupState(cloud, m, timeout, poll);
      if blocked {
        OursAfterWatching(m, before, cloud.s);
      } else {
        OursAfterRemoval(m, after, before, cloud.s);
      }
    }
    ghost var failing := cloud.s;
    cloud.StopFailing(m.otaUpdateId);
    last := cloud.s;
    OursSooner(m, failing, last, cloud.latency);
    OursIsVersioned(m, last);
    RecoverableIsOurs(m, last);
    OursIsCustom(m, last);
    if StuckWithoutJob(m, last) {
      StuckDisagrees(m, last);
      StuckIsThere(m, last);
    }
    var done, after, blocked := CleanupState(cloud, m, timeout, poll);
    summary := done;
    if blocked {
      WatchedKeeps(last, cloud.s, m.otaUpdateId);
    } else {
      OursWithKeyPasses(m, after, last, cloud.s, summary);
      RecoveredIsGone(m, last, cloud.s);
      forall j | j in last.jobs && j != ""
        ensures j in cloud.s.jobs <==> !Knows(m, last, j)
      {
        UnknownJobStays(m, after, last, cloud.s, j);
      }
    }
  }

  lemma OursIsVersioned(m: Meta, s: State)
    requires StillOurs(m, s)
    ensures Versioned(s)
  {
  }

  lemma OursIsCustom(m: Meta, s: State)
    requires StillOurs(m, s)
    ensures m.mode == CUSTOM
  {
  }

  lemma StuckIsThere(m: Meta, s: State)
    requires StuckWithoutJob(m, s)
    ensures m.otaUpdateId in s.otas
  {
  }

  lemma RecoveredIsGone(m: Meta, s: State, t: State)
    requires Recovered(m, s, t) && m.bucket != "" && m.key != ""
    ensures m.otaUpdateId !in t.otas && KeyAbsent(t, m.bucket, m.key)
  {
  }

  lemma OursWithKeyPasses(m: Meta, after: Meta, s: State, t: State, summary: Summary)
    requires m.mode == CUSTOM && SameRun(m, after) && RemovesAll(m, after, s, t, summary) && m.bucket != "" && m.key != ""
    requires forall r :: r in summary.absence <==> Checked(after, r)
    ensures AllAbsent(summary.absence) && summary.errors == []
  {
    assert Checked(after, SourceObject);
  }

  /** That this happens is what a failing service permits: from a recoverable journal
      that names no job, the update can be deleted without its job.  The journal is still
      recoverable, cleanup then passes, and the job stays. */
  lemma JobCanBeLeftBehind(m: Meta, s: State, due: nat)
    requires Recoverable(m, s) && m.jobId == "" && m.otaUpdateId in s.otas && s.otas[m.otaUpdateId].jobId != ""
    requires s.otas[m.otaUpdateId].jobId in s.jobs
    ensures var deleting := Deleted(s, m.otaUpdateId, due, false);
            && Possible(deleting, m.otaUpdateId, Vanishes)
            && var t := After(deleting, m.otaUpdateId, Vanishes);
               && Recoverable(m, t) && !StuckWithoutJob(m, t)
               && t.jobs == s.jobs && !Knows(m, t, s.otas[m.otaUpdateId].jobId)
  {
    hide IdentityProblem, Matches;
  }
}
