/** Crash recovery of OTA creation, end to end. */
module OtaRecovery {
  import opened Wrappers
  import opened JournalFile
  import opened OtaMeta
  import opened OtaReconcile
  import opened OtaCloud
  import opened OtaWaits
  import opened OtaCleanup
  import opened OtaCleanupState
  import opened OtaCreate

  /** The service is as it was before, but for the source key, of which no version is left. */
  ghost predicate Restored(p: Plan, s: State, t: State) {
    && SameUpdates(p, s, t) && t.jobs == s.jobs && KeyAbsent(t, p.bucket, p.key)
    && forall e :: !IsKey(e, p.bucket, p.key) ==> (e in t.objects <==> e in s.objects)
  }

  /** The crash invariant is what cleanup asks of a journal. */
  lemma SoundMeansRecoverable(p: Plan, m: Meta, s: State)
    requires PlanOk(p) && p.custom && Journals(p, m) && Describes(p, m, s)
    ensures Recoverable(m, s)
  {
    JournalsAreAccepted(p, m);
    hide IdentityProblem, LoadMeta, Honest;
    assert |SourceRoot(p.thingName, p.otaUpdateId)| > 0;
  }

  /** A journal of the plan is refused by cleanup exactly if the plan left region, Thing
      name or bucket empty. */
  lemma JournalsAreRefused(p: Plan, m: Meta)
    requires PlanChecked(p) && Journals(p, m)
    ensures LoadMeta(m, false) == Ok(m) || LoadMeta(m, false).Err?
    ensures LoadMeta(m, false).Ok? <==> PlanOk(p)
    ensures PlanOk(p) ==> IdentityProblem(m).None? && m.bucket != "" && m.key != ""
    ensures m.otaUpdateId == p.otaUpdateId && m.bucket == p.bucket && m.key == p.key
    ensures p.custom ==> m.mode == CUSTOM && m.signedPrefix == ""
  {
    assert |SourceRoot(p.thingName, p.otaUpdateId)| > 0;
    FirstJournalIsAccepted(p);
    ValidatorsAgree(FirstJournal(p));
    ValidatorsAgree(m);
    hide SourceKeyOk, SignedPrefixOk, SourceRoot;
  }

  // ---------------------------------------------------------------- the id was not in use

  lemma RecoveredIsRestored(p: Plan, m: Meta, after: Meta, before: State, s: State, t: State)
    requires PlanOk(p) && p.custom && Journals(p, m) && Effects(p, before, s) && Describes(p, m, s)
    requires p.otaUpdateId !in before.otas
    requires Recovered(m, s, t) && Confined(after, s, t) && SameRun(m, after) && JobIsOwn(m, after, s)
    requires "" !in before.jobs
    ensures Restored(p, before, t)
  {
    hide SourceRoot, SignedRoot, EndsWithSlash, IsKey, Honest, OtaMayExist, Requests;
    var id := p.otaUpdateId;
    assert t.otas == t.otas - {id} == s.otas - {id} == before.otas - {id} == before.otas;
    assert KeyAbsent(t, p.bucket, p.key) by {
      assert m.bucket != "" && m.key != "";
    }
    JobsRestored(p, m, after, before, s, t);
    ObjectsRestored(p, m, after, before, s, t);
  }

  lemma ObjectsRestored(p: Plan, m: Meta, after: Meta, before: State, s: State, t: State)
    requires p.custom && Journals(p, m) && Effects(p, before, s) && Confined(after, s, t) && SameRun(m, after)
    ensures forall e :: !IsKey(e, p.bucket, p.key) ==> (e in t.objects <==> e in before.objects)
  {
    hide IsKey, OwnsObject, OwnUpdate;
    forall e | !IsKey(e, p.bucket, p.key)
      ensures e in t.objects <==> e in before.objects
    {
      NotOwned(p, m, after, e);
    }
  }

  lemma NotOwned(p: Plan, m: Meta, after: Meta, e: S3Entry)
    requires p.custom && Journals(p, m) && SameRun(m, after) && !IsKey(e, p.bucket, p.key)
    ensures !OwnsObject(after, e.bucket, e.key)
  {
  }

  lemma JobsRestored(p: Plan, m: Meta, after: Meta, before: State, s: State, t: State)
    requires Journals(p, m) && Effects(p, before, s) && Describes(p, m, s) && p.otaUpdateId !in before.otas
    requires Recovered(m, s, t) && Confined(after, s, t) && SameRun(m, after) && JobIsOwn(m, after, s)
    requires "" !in before.jobs
    ensures t.jobs == before.jobs
  {
    hide Honest, Requests, KeyAbsent, OtaMayExist, IsKey, OwnsObject;
    var id := p.otaUpdateId;
    assert after.jobId !in before.jobs;
    assert id in s.otas ==> s.otas[id].jobId !in before.jobs;
    forall j | j in before.jobs
      ensures j in t.jobs && t.jobs[j] == before.jobs[j]
    {
      assert j in s.jobs && s.jobs[j] == before.jobs[j];
    }
    forall j | j in t.jobs
      ensures j in before.jobs
    {
      assert j in s.jobs;
    }
  }

  // ---------------------------------------------------------------- the id was in use

  /** If the creator stopped before asking for the update, nothing was asked for that
      the existing update could be confused with. */
  lemma NothingAskedIsClear(m: Meta, after: Meta, heard: seq<Heard>, at: nat)
    requires IdentityProblem(m).None? && !OtaMayExist(m) && SameRun(m, after) && m.mode == CUSTOM
    ensures Clear(m, after, heard, at)
  {
  }

  lemma KeyRemovedIsRestored(p: Plan, m: Meta, after: Meta, before: State, s: State, t: State)
    requires p.custom && Journals(p, m) && Effects(p, before, s) && p.otaUpdateId in before.otas
    requires Confined(after, s, t) && SameRun(m, after) && SameUpdates(p, s, t) && t.jobs == s.jobs
    requires KeyAbsent(t, p.bucket, p.key)
    ensures Restored(p, before, t)
  {
    ObjectsRestored(p, m, after, before, s, t);
    hide KeyAbsent, Confined;
  }

  /** Once the update has been asked for under a used id, neither way out of cleanup
      restores the service: it removes the existing update, or it is blocked and the
      upload stays. */
  lemma NeverRestored(p: Plan, m: Meta, before: State, s: State, t: State)
    requires Effects(p, before, s) && Occupied(p, m, s) && OtaMayExist(m) && p.otaUpdateId in before.otas
    requires p.otaUpdateId !in t.otas || t.objects == s.objects
    ensures !Restored(p, before, t)
    ensures t.objects == s.objects ==> !KeyAbsent(t, p.bucket, p.key)
  {
  }

  /** Such a run, blocked: the id belongs to a finished update of the same Thing and key,
      and the new upload has another version. */
  lemma UsedIdBlocks()
    ensures var p := Plan("r", "t", "arn", "id", "b", "ota/t/source/id/f", "", "1", true);
            var m := FirstJournal(p).(otaStatus := CREATE_REQUESTED, version := "v2");
            var ota := Ota(CREATE_COMPLETE, "j", "ja", "arn", "b", p.key, "v1", "1", "", 0);
            && PlanOk(p) && Journals(p, m) && forall live :: View("id", ota, live) ==> !Compatible(m, live)
  {
    SamplePlanIsOk();
    hide PlanOk, PlanChecked, SourceRoot;
  }

  lemma SamplePlanIsOk()
    ensures PlanOk(Plan("r", "t", "arn", "id", "b", "ota/t/source/id/f", "", "1", true))
  {
    assert SourceRoot("t", "id") == "ota/t/source/id/";
  }

  /** Such a run that deletes an update it did not create: the same, in a bucket that
      keeps no versions. */
  lemma UsedIdDeletes()
    ensures var p := Plan("r", "t", "arn", "id", "b", "ota/t/source/id/f", "", "1", true);
            var m := FirstJournal(p).(otaStatus := CREATE_REQUESTED);
            var ota := Ota(CREATE_COMPLETE, "j", "ja", "arn", "b", p.key, "", "1", "", 0);
            && PlanOk(p) && Journals(p, m) && forall live :: View("id", ota, live) ==> Compatible(m, live)
  {
    assert SourceRoot("t", "id") == "ota/t/source/id/";
    var p := Plan("r", "t", "arn", "id", "b", "ota/t/source/id/f", "", "1", true);
    var m := FirstJournal(p).(otaStatus := CREATE_REQUESTED);
    var ota := Ota(CREATE_COMPLETE, "j", "ja", "arn", "b", p.key, "", "1", "", 0);
    assert PlanOk(p);
    forall live | View("id", ota, live)
      ensures Compatible(m, live)
    {
      assert live.files.files == [FileOf(ota)] && live.files.files[..0] == [];
      assert SignerIds(live.files.files) == {};
    }
  }

  // ---------------------------------------------------------------- both runs

  datatype Recovery = NoJournal | Refused | Cleaned(summary: Summary)

  /** However the creator ends, either nothing was done, or its journal tells cleanup
      what to do once the service stops failing.  Unless region, Thing name or bucket
      were empty, one cleanup puts everything back exactly if the update id was not in
      use before, or the creator stopped before it asked for the update.

      `stop` is where the creator stopped; `journaled` says that the journal that
      survives is one of this run. */
  method CreateThenCleanUp(
      cloud: Cloud, journal: Journal<Meta>, p: Plan, timeout: nat, poll: nat, cleanupTimeout: nat, cleanupPoll: nat)
    returns (r: Recovery, ghost stop: State, ghost journaled: bool)
    requires PlanChecked(p) && p.custom && 0 < poll && 0 < cleanupPoll
    requires Versioned(cloud.s) && "" !in cloud.s.jobs && cloud.honest
    requires cloud.latency + cloud.callTime <= cleanupTimeout
    modifies cloud, journal
    ensures r.NoJournal? ==> Untouched(old(cloud.s), cloud.s)
    ensures !r.NoJournal? && !journaled ==> Untouched(old(cloud.s), stop) && journal.disk == old(journal.disk)
    ensures !r.NoJournal? && (old(journal.disk).Some? ==> old(journal.disk).value.otaUpdateId != p.otaUpdateId) ==>
              journaled
    ensures journaled ==> journal.disk.Some? && !r.NoJournal? && (r.Refused? <==> !PlanOk(p))
    ensures journaled && PlanOk(p) ==>
              && (Restored(p, old(cloud.s), cloud.s) <==>
                    p.otaUpdateId !in old(cloud.s).otas || !OtaMayExist(journal.disk.value))
              && (Restored(p, old(cloud.s), cloud.s) ==> r.summary.passed)
              && (!Restored(p, old(cloud.s), cloud.s) ==>
                    if r.summary.passed then p.otaUpdateId !in cloud.s.otas
                    else !KeyAbsent(cloud.s, p.bucket, p.key))
  {
    hide *;
    ghost var before, stale := cloud.s, journal.disk;
    var _ := Create(cloud, journal, p, timeout, poll);
    stop := cloud.s;
    OldJournalMeansUntouched(p, before, stale, journal.disk, stop);
    if journal.disk.None? || journal.disk.value.otaUpdateId != p.otaUpdateId {
      return NoJournal, stop, false;
    }
    var m := journal.disk.value;
    journaled := Truthful(p, before, m, stop);
    if journaled {
      SoundEffects(p, before, stale, journal.disk, stop);
      TruthfulJournals(p, before, m, stop);
      JournalsAreRefused(p, m);
    }
    var loaded := LoadMeta(m, false);
    if loaded.Err? {
      return Refused, stop, journaled;
    }
    LoadedIsTheJournal(m);
    cloud.StopFailing(p.otaUpdateId);
    ghost var fixed := cloud.s;
    SameObjects(stop, fixed);
    if journaled {
      SoonerStillSound(p, m, before, stop, fixed, cloud.latency);
    } else {
      UntouchedVersions(before, stop);
    }
    ghost var heardBefore := cloud.heard;
    var done, after, blocked := CleanupState(cloud, m, cleanupTimeout, cleanupPoll);
    if journaled {
      if p.otaUpdateId !in before.otas {
        SoundMeansRecoverable(p, m, fixed);
        RecoveredIsRestored(p, m, after, before, fixed, cloud.s);
        AllRemovedPasses(p, m, after, fixed, cloud.s, done);
      } else if !OtaMayExist(m) {
        NothingAskedIsClear(m, after, cloud.heard[|heardBefore|..], |fixed.log|);
        OccupiedHasNoJob(p, m, fixed);
        RemovedKey(m, after, fixed, cloud.s, done);
        SameUpdatesKept(p, fixed, cloud.s);
        KeyRemovedIsRestored(p, m, after, before, fixed, cloud.s);
        AllRemovedPasses(p, m, after, fixed, cloud.s, done);
      } else {
        if blocked {
          WatchedKeeps(fixed, cloud.s, m.otaUpdateId);
        } else {
          RemovedUpdate(m, after, fixed, cloud.s, done);
          AllRemovedPasses(p, m, after, fixed, cloud.s, done);
        }
        NeverRestored(p, m, before, fixed, cloud.s);
      }
    }
    return Cleaned(done), stop, journaled;
  }

  lemma OldJournalMeansUntouched(p: Plan, before: State, stale: Option<Meta>, disk: Option<Meta>, s: State)
    requires Sound(p, before, stale, disk, s)
    ensures (disk.Some? && Truthful(p, before, disk.value, s)) || (Untouched(before, s) && disk == stale)
    ensures disk.Some? && Truthful(p, before, disk.value, s) ==> disk.value.otaUpdateId == p.otaUpdateId
  {
  }

  lemma TruthfulJournals(p: Plan, before: State, m: Meta, s: State)
    requires Truthful(p, before, m, s)
    ensures Journals(p, m) && if p.otaUpdateId in before.otas then Occupied(p, m, s) else Describes(p, m, s)
  {
  }

  lemma LoadedIsTheJournal(m: Meta)
    requires LoadMeta(m, false).Ok?
    ensures LoadMeta(m, false) == Ok(m)
  {
    hide SourceKeyOk, SignedPrefixOk;
  }

  lemma SameObjects(s: State, t: State)
    requires t == s.(otas := t.otas)
    ensures Versioned(s) ==> Versioned(t)
  {
  }

  lemma UntouchedVersions(s: State, t: State)
    requires Untouched(s, t)
    ensures Versioned(s) ==> Versioned(t)
  {
  }

  /** That pending work is due sooner changes nothing else. */
  lemma SoonerStillSound(p: Plan, m: Meta, before: State, s: State, t: State, latency: nat)
    requires Effects(p, before, s) && Truthful(p, before, m, s)
    requires t == s.(otas := t.otas) && (p.otaUpdateId !in s.otas ==> t.otas == s.otas)
    requires p.otaUpdateId in s.otas ==>
               && p.otaUpdateId in t.otas && t.otas == s.otas[p.otaUpdateId := t.otas[p.otaUpdateId]]
               && t.otas[p.otaUpdateId] == s.otas[p.otaUpdateId].(due := t.otas[p.otaUpdateId].due)
               && t.otas[p.otaUpdateId].due <= t.clock + latency
    ensures Effects(p, before, t) && Truthful(p, before, m, t)
    ensures DueSoon(t, p.otaUpdateId, latency) && Versioned(t)
  {
    assert t.otas - {p.otaUpdateId} == s.otas - {p.otaUpdateId};
  }

  lemma OccupiedHasNoJob(p: Plan, m: Meta, s: State)
    requires Occupied(p, m, s)
    ensures m.jobId == ""
  {
  }

  lemma RemovedKey(m: Meta, after: Meta, s: State, t: State, summary: Summary)
    requires RemovesAll(m, after, s, t, summary) && m.bucket != "" && m.key != ""
    ensures KeyAbsent(t, m.bucket, m.key)
  {
  }

  lemma RemovedUpdate(m: Meta, after: Meta, s: State, t: State, summary: Summary)
    requires RemovesAll(m, after, s, t, summary) && OtaMayExist(m)
    ensures m.otaUpdateId !in t.otas
  {
  }

  lemma SameUpdatesKept(p: Plan, s: State, t: State)
    requires t.otas == s.otas
    ensures SameUpdates(p, s, t)
  {
  }

  /** The verdict is not vacuous: the source object was checked. */
  lemma AllRemovedPasses(p: Plan, m: Meta, after: Meta, s: State, t: State, summary: Summary)
    requires PlanOk(p) && p.custom && Journals(p, m) && SameRun(m, after) && RemovesAll(m, after, s, t, summary)
    requires forall r :: r in summary.absence <==> Checked(after, r)
    ensures AllAbsent(summary.absence) && summary.errors == []
  {
    assert |SourceRoot(p.thingName, p.otaUpdateId)| > 0;
    assert Checked(after, SourceObject);
  }
}
