/** create_bg96_ota_update.main: a journaled sequence of mutations that may stop anywhere.

A failed call, a failed journal write and a crash all end the run where they happen, so
they are one and the same here: the method returns at that point. */
module OtaCreate {
  import opened Wrappers
  import opened JournalFile
  import opened OtaMeta
  import opened OtaReconcile
  import opened OtaCloud
  import opened OtaWaits
  import opened OtaCleanup
  import opened OtaCleanupState

  /** The arguments of one run, after expansion of the path templates. */
  datatype Plan = Plan(
    region: string,
    thingName: string,
    thingArn: string,
    otaUpdateId: string,
    bucket: string,
    key: string,
    signedPrefix: string,
    fileVersion: string,
    custom: bool)

  /** What the tool checks before the first journal entry. */
  predicate PlanChecked(p: Plan) {
    && p.otaUpdateId != ""
    && SourceKeyOk(p.thingName, p.otaUpdateId, p.key)
    && (p.custom || SignedPrefixOk(p.thingName, p.otaUpdateId, p.signedPrefix))
  }

  /** Nothing checks that region, Thing name and bucket are given. */
  predicate PlanOk(p: Plan) {
    PlanChecked(p) && p.region != "" && p.thingName != "" && p.bucket != ""
  }

  /** The journal written before the first mutation. */
  function FirstJournal(p: Plan): Meta {
    Meta(p.region, p.thingName, p.thingArn, p.otaUpdateId, UPLOAD_REQUESTED, "", "", p.bucket, p.key, "",
         if p.custom then "" else p.signedPrefix, if p.custom then CUSTOM else AWS_SIGNER, "", p.fileVersion)
  }

  /** The first journal is accepted for cleanup exactly if region, Thing name and bucket
      are not empty, which the tool does not check. */
  lemma FirstJournalIsAccepted(p: Plan)
    requires PlanChecked(p)
    ensures LoadMeta(FirstJournal(p), false) == Ok(FirstJournal(p)) <==> PlanOk(p)
    ensures PlanOk(p) ==> IdentityProblem(FirstJournal(p)).None?
  {
    ValidatorsAgree(FirstJournal(p));
    assert |SourceRoot(p.thingName, p.otaUpdateId)| > 0;
  }

  /** write_meta: fields that the update leaves out are kept. */
  function Kept(recorded: string, update: string): string {
    if update == "" then recorded else update
  }

  /** A journal of this plan, at whatever stage. */
  predicate Journals(p: Plan, m: Meta) {
    m == FirstJournal(p).(otaStatus := m.otaStatus, jobId := m.jobId, jobArn := m.jobArn, version := m.version,
                          signingJobId := m.signingJobId)
  }

  lemma JournalsAreAccepted(p: Plan, m: Meta)
    requires PlanOk(p) && Journals(p, m)
    ensures LoadMeta(m, false) == Ok(m) && IdentityProblem(m).None?
  {
    FirstJournalIsAccepted(p);
    ValidatorsAgree(FirstJournal(p));
    ValidatorsAgree(m);
    hide SourceKeyOk, SignedPrefixOk;
  }

  /** The update that create-ota-update is asked for. */
  function Requested(p: Plan, version: string): Ota {
    Ota("", "", "", p.thingArn, p.bucket, p.key, version, p.fileVersion, "", 0)
  }

  predicate Untouched(before: State, s: State) {
    s.log == before.log && s.otas == before.otas && s.jobs == before.jobs && s.objects == before.objects
  }

  /** What a run of this plan can have done by now: versions of its source key and, if
      its id was not in use, its update and the job of that update. */
  predicate Effects(p: Plan, before: State, s: State) {
    && (forall e :: e in before.objects ==> e in s.objects)
    && (forall e :: e in s.objects && e !in before.objects ==> IsKey(e, p.bucket, p.key))
    && Versioned(s)
    && if p.otaUpdateId in before.otas then SameUpdates(p, before, s) && s.jobs == before.jobs else OwnUpdate(p, before, s)
  }

  /** The same updates, whenever their background work is due. */
  predicate SameUpdates(p: Plan, s: State, t: State) {
    && t.otas - {p.otaUpdateId} == s.otas - {p.otaUpdateId}
    && (p.otaUpdateId in t.otas <==> p.otaUpdateId in s.otas)
    && (p.otaUpdateId in s.otas ==>
          t.otas[p.otaUpdateId] == s.otas[p.otaUpdateId].(due := t.otas[p.otaUpdateId].due))
  }

  predicate OwnUpdate(p: Plan, before: State, s: State) {
    && s.otas - {p.otaUpdateId} == before.otas - {p.otaUpdateId}
    && (forall j :: j in before.jobs ==> j in s.jobs && s.jobs[j] == before.jobs[j])
    && (forall j :: j in s.jobs && j !in before.jobs ==> p.otaUpdateId in s.otas && s.otas[p.otaUpdateId].jobId == j != "")
    && (p.otaUpdateId in s.otas ==> s.otas[p.otaUpdateId].jobId !in before.jobs || s.otas[p.otaUpdateId].jobId == "")
  }

  /** The journal describes the update, if there is one. */
  predicate Describes(p: Plan, m: Meta, s: State) {
    if p.otaUpdateId in s.otas then
      var ota := s.otas[p.otaUpdateId];
      && OtaMayExist(m) && Requests(p, ota) && Honest(ota) && !BeingDeleted(s, p.otaUpdateId)
      && Agrees(m.version, ota.version) && Agrees(m.jobId, ota.jobId) && Agrees(m.jobArn, ota.jobArn)
    else m.jobId == "" && m.jobArn == ""
  }

  predicate Requests(p: Plan, ota: Ota) {
    && ota.thingArn == p.thingArn && ota.bucket == p.bucket && ota.key == p.key && ota.fileVersion == p.fileVersion
    && (p.custom ==> ota.signerJob == "")
  }

  /** The id was in use before: the journal has learnt nothing about an update, and asks
      for one only after the upload. */
  ghost predicate Occupied(p: Plan, m: Meta, s: State) {
    && m.otaStatus in {UPLOAD_REQUESTED, S3_UPLOADED, CREATE_REQUESTED} && m.jobId == "" && m.jobArn == ""
    && (OtaMayExist(m) ==> !KeyAbsent(s, p.bucket, p.key))
  }

  /** A journal of this plan that is true of the service. */
  ghost predicate Truthful(p: Plan, before: State, m: Meta, s: State) {
    Journals(p, m) && if p.otaUpdateId in before.otas then Occupied(p, m, s) else Describes(p, m, s)
  }

  /** The crash invariant, true at every program point: the service and the journal file
      are still as they were, or the journal is one of this plan and true of the
      service. */
  ghost predicate Sound(p: Plan, before: State, stale: Option<Meta>, disk: Option<Meta>, s: State) {
    && Effects(p, before, s)
    && ((disk == stale && Untouched(before, s)) || (disk.Some? && Truthful(p, before, disk.value, s)))
  }

  /** ota_meta_updates and write_meta on a reply of get-ota-update. */
  function Updated(m: Meta, live: Live): Meta {
    if live.NoInfo? then m
    else
      m.(otaStatus := Kept(m.otaStatus, live.status), jobId := Kept(m.jobId, live.jobId),
         jobArn := Kept(m.jobArn, live.jobArn), signingJobId := Kept(m.signingJobId, FirstSigner(live.files)))
  }

  function FirstSigner(files: FilesField): string {
    if files.Files? && files.files != [] && files.files[0].File? then files.files[0].signerJob else ""
  }

  lemma UpdatedDescribes(p: Plan, m: Meta, s: State, live: Live)
    requires Journals(p, m) && Describes(p, m, s) && p.otaUpdateId in s.otas
    requires View(p.otaUpdateId, s.otas[p.otaUpdateId], live)
    ensures Journals(p, Updated(m, live)) && Describes(p, Updated(m, live), s)
  {
    assert KNOWN !! PRECREATE;
  }

  /** Background work keeps the journal true. */
  lemma StillDescribed(p: Plan, m: Meta, before: State, s: State, t: State)
    requires Effects(p, before, s) && Describes(p, m, s) && Watched(s, t, p.otaUpdateId)
    requires StaysHonest(s, t, p.otaUpdateId) && p.otaUpdateId !in before.otas
    ensures Effects(p, before, t) && Describes(p, m, t)
  {
    hide Pending, Honest, OtaMayExist;
    assert t.otas - {p.otaUpdateId} == s.otas - {p.otaUpdateId};
  }

  /** Uploading the payload and journaling it: the first two journal entries and the
      first mutation.  None if the run stopped. */
  method Upload(cloud: Cloud, journal: Journal<Meta>, p: Plan) returns (m: Option<Meta>)
    requires PlanChecked(p) && Versioned(cloud.s)
    modifies cloud`s, cloud`failures, journal
    ensures m.Some? ==> cloud.failures == old(cloud.failures)
    ensures Sound(p, old(cloud.s), old(journal.disk), journal.disk, cloud.s) && cloud.s.otas == old(cloud.s).otas
    ensures cloud.s.log == old(cloud.s).log || cloud.s.log == old(cloud.s).log + [PutObject(p.bucket, p.key)]
    ensures m.Some? ==>
              && journal.disk == m && Truthful(p, old(cloud.s), m.value, cloud.s) && !KeyAbsent(cloud.s, p.bucket, p.key)
              && m.value.jobId == "" && m.value.jobArn == ""
              && cloud.s.log == old(cloud.s).log + [PutObject(p.bucket, p.key)]
    ensures m.Some? ==> journal.failedWrites == old(journal.failedWrites)
    ensures cloud.healthy && !journal.failing ==> m.Some?
  {
    hide LoadMeta, IdentityProblem, Honest, Requests, SourceKeyOk, SignedPrefixOk, KeyAbsent;
    ghost var start := cloud.s;
    var meta := FirstJournal(p);
    var written := journal.WriteJson(meta);
    if !written {
      return None;
    }
    var put, stored := cloud.Put(p.bucket, p.key);
    if stored.Some? {
      KeyPresent(cloud.s, stored.value, p.bucket, p.key);
    }
    var stops := journal.Stops();
    if put.PutFailed? || stops {
      return None;
    }
    meta := meta.(otaStatus := S3_UPLOADED, version := Kept(meta.version, put.version));
    written := journal.WriteJson(meta);
    return if written then Some(meta) else None;
  }

  lemma KeyPresent(s: State, e: S3Entry, bucket: string, key: string)
    requires e in s.objects && IsKey(e, bucket, key)
    ensures !KeyAbsent(s, bucket, key)
  {
  }

  /** Journaling the request, asking for the update, and journaling the reply. */
  method Submit(cloud: Cloud, journal: Journal<Meta>, p: Plan, m: Meta, ghost before: State, ghost stale: Option<Meta>)
    returns (after: Option<Meta>)
    requires PlanChecked(p) && Effects(p, before, cloud.s) && cloud.s.otas == before.otas
    requires journal.disk == Some(m) && Truthful(p, before, m, cloud.s) && !KeyAbsent(cloud.s, p.bucket, p.key)
    requires m.jobId == "" && m.jobArn == ""
    modifies cloud`s, cloud`failures, journal
    ensures after.Some? ==> cloud.failures == old(cloud.failures)
    ensures Sound(p, before, stale, journal.disk, cloud.s)
    ensures cloud.s.log == old(cloud.s).log || cloud.s.log == old(cloud.s).log + [CreateOta(p.otaUpdateId)]
    ensures after.Some? ==>
              && journal.disk == after && Journals(p, after.value) && Describes(p, after.value, cloud.s)
              && p.otaUpdateId in cloud.s.otas && p.otaUpdateId !in before.otas
              && cloud.s.log == old(cloud.s).log + [CreateOta(p.otaUpdateId)]
              && (cloud.healthy ==> DueSoon(cloud.s, p.otaUpdateId, cloud.latency))
              && after.value.otaStatus in {CREATE_SUBMITTED, "CREATE_PENDING"}
              && journal.failedWrites == old(journal.failedWrites)
    ensures cloud.healthy && !journal.failing ==>
              if p.otaUpdateId !in before.otas then after.Some?
              else && cloud.s.log == old(cloud.s).log + [CreateOta(p.otaUpdateId)]
                   && journal.disk.Some? && journal.disk.value.otaStatus == CREATE_REQUESTED
  {
    hide KeyAbsent, Honest, Requests, IsKey, Versioned;
    var meta := m;
    var stops := journal.Stops();
    if stops {
      return None;
    }
    meta := meta.(otaStatus := CREATE_REQUESTED);
    var written := journal.WriteJson(meta);
    if !written {
      return None;
    }
    ghost var asked := cloud.s;
    var created, reached := cloud.CreateOtaUpdate(p.otaUpdateId, Requested(p, meta.version));
    if p.otaUpdateId in before.otas {
      RefusedChangesNothing(p, meta, before, asked, cloud.s);
    } else {
      NewUpdateDescribed(p, meta, before, asked, cloud.s, reached);
    }
    stops := journal.Stops();
    if created.CreateCallFailed? || stops {
      return None;
    }
    meta := meta.(otaStatus := if created.status == "" then CREATE_SUBMITTED else created.status);
    written := journal.WriteJson(meta);
    return if written then Some(meta) else None;
  }

  lemma RefusedChangesNothing(p: Plan, m: Meta, before: State, s: State, t: State)
    requires Effects(p, before, s) && Occupied(p, m, s) && t == s.(clock := t.clock, log := t.log)
    ensures Effects(p, before, t) && Occupied(p, m, t)
  {
  }

  lemma NewUpdateDescribed(p: Plan, m: Meta, before: State, s: State, t: State, reached: bool)
    requires Effects(p, before, s) && s.otas == before.otas && Journals(p, m) && Describes(p, m, s)
    requires PlanChecked(p) && m.otaStatus == CREATE_REQUESTED && p.otaUpdateId !in before.otas
    requires t.objects == s.objects && t.jobs == s.jobs
    requires !reached ==> t.otas == s.otas
    requires reached ==>
               && p.otaUpdateId in t.otas && t.otas == s.otas[p.otaUpdateId := t.otas[p.otaUpdateId]]
               && t.otas[p.otaUpdateId] == Requested(p, m.version).(status := "CREATE_PENDING", jobId := "", jobArn := "",
                                                                    due := t.otas[p.otaUpdateId].due)
    ensures Effects(p, before, t) && Describes(p, m, t)
    ensures reached ==> forall status :: status in {CREATE_SUBMITTED, "CREATE_PENDING"} ==>
                          Describes(p, m.(otaStatus := status), t)
  {
    assert t.otas - {p.otaUpdateId} == before.otas - {p.otaUpdateId};
  }

  /** wait_for_ota: each look is journaled.  Some if a final state was reached. */
  method WaitForOta(cloud: Cloud, journal: Journal<Meta>, p: Plan, m: Meta, timeout: nat, poll: nat, ghost before: State)
    returns (done: Option<Meta>, status: string)
    requires 0 < poll && cloud.honest
    requires Effects(p, before, cloud.s) && p.otaUpdateId in cloud.s.otas && p.otaUpdateId !in before.otas
    requires journal.disk == Some(m) && Journals(p, m) && Describes(p, m, cloud.s)
    modifies cloud`s, cloud`failures, cloud`heard, journal
    ensures done.Some? ==> cloud.failures == old(cloud.failures)
    ensures Effects(p, before, cloud.s) && journal.disk.Some? && Journals(p, journal.disk.value)
    ensures Describes(p, journal.disk.value, cloud.s) && cloud.s.log == old(cloud.s).log
    ensures done.Some? ==> journal.failedWrites == old(journal.failedWrites)
    ensures done.Some? ==>
              && journal.disk == done && p.otaUpdateId in cloud.s.otas && status == cloud.s.otas[p.otaUpdateId].status
              && done.value.otaStatus == status
              && done.value.jobId == cloud.s.otas[p.otaUpdateId].jobId && status !in MUTATING
    ensures cloud.healthy && !journal.failing && DueSoon(old(cloud.s), p.otaUpdateId, cloud.latency) ==>
              cloud.latency + cloud.callTime + poll <= timeout ==> done.Some?
  {
    hide Pending, Journals, Describes, Effects, Watched, View, StaysHonest, Updated;
    var meta := m;
    status := "";
    var deadline := cloud.s.clock + timeout;
    ghost var start := cloud.s;
    ghost var log := cloud.s.log;
    NotDeleting(p, m, start);
    OnlyTime(start, start, p.otaUpdateId);
    ghost var prompt := cloud.healthy && !journal.failing && DueSoon(start, p.otaUpdateId, cloud.latency)
                        && cloud.latency + cloud.callTime + poll <= timeout;
    while cloud.s.clock < deadline
      invariant cloud.failures == old(cloud.failures)
      invariant Effects(p, before, cloud.s) && cloud.s.log == log
      invariant journal.disk == Some(meta) && Journals(p, meta) && Describes(p, meta, cloud.s)
      invariant Watched(start, cloud.s, p.otaUpdateId) && p.otaUpdateId in cloud.s.otas
      invariant prompt ==> cloud.s.clock < deadline
      invariant journal.failedWrites == old(journal.failedWrites)
      decreases Left(cloud.s.clock, deadline)
    {
      ghost var earlier := cloud.s;
      NotDeleting(p, meta, earlier);
      var reply := Observe(cloud, p.otaUpdateId);
      WatchedKeeps(earlier, cloud.s, p.otaUpdateId);
      WatchedTrans(start, earlier, cloud.s, p.otaUpdateId);
      PendingSince(start, cloud.s, p.otaUpdateId);
      PendingSince(earlier, cloud.s, p.otaUpdateId);
      StillThere(earlier, cloud.s, p.otaUpdateId);
      StillDescribed(p, meta, before, earlier, cloud.s);
      if !reply.OtaFound? {
        return None, status;
      }
      UpdatedDescribes(p, meta, cloud.s, reply.live);
      SeenIsRecorded(p, meta, cloud.s, reply.live);
      meta := Updated(meta, reply.live);
      var written := journal.WriteJson(meta);
      if !written {
        return None, status;
      }
      status := reply.live.status;
      if status in {CREATE_COMPLETE, CREATE_FAILED, DELETE_FAILED} {
        return Some(meta), status;
      }
      ghost var awake := cloud.s;
      NotFinished(p, meta, awake);
      cloud.Sleep(poll);
      OnlyTime(awake, cloud.s, p.otaUpdateId);
      WatchedTrans(start, awake, cloud.s, p.otaUpdateId);
      StillDescribed(p, meta, before, awake, cloud.s);
    }
    return None, status;
  }

  lemma StillThere(s: State, t: State, id: string)
    requires Watched(s, t, id) && !BeingDeleted(s, id)
    ensures id in s.otas ==> id in t.otas
  {
  }

  lemma NotFinished(p: Plan, m: Meta, s: State)
    requires Describes(p, m, s) && p.otaUpdateId in s.otas
    ensures s.otas[p.otaUpdateId].status in {CREATE_COMPLETE, CREATE_FAILED, DELETE_FAILED} || Pending(s, p.otaUpdateId)
  {
  }

  lemma NotDeleting(p: Plan, m: Meta, s: State)
    requires Describes(p, m, s)
    ensures !BeingDeleted(s, p.otaUpdateId)
  {
  }

  lemma SeenIsRecorded(p: Plan, m: Meta, s: State, live: Live)
    requires Describes(p, m, s) && p.otaUpdateId in s.otas && View(p.otaUpdateId, s.otas[p.otaUpdateId], live)
    ensures live.Info? && live.status == s.otas[p.otaUpdateId].status != ""
    ensures Updated(m, live).otaStatus == live.status && Updated(m, live).jobId == s.otas[p.otaUpdateId].jobId
  {
  }

  /** main.  Whatever fails and wherever the run stops, the crash invariant holds; the
      service is asked for at most one upload and then at most one update; and exit
      code 0 means a finished update that the journal identifies completely.  An id that
      is in use is found out only after the upload. */
  method Create(cloud: Cloud, journal: Journal<Meta>, p: Plan, timeout: nat, poll: nat) returns (exit: Option<int>)
    requires PlanChecked(p) && Versioned(cloud.s) && 0 < poll && cloud.honest
    modifies cloud`s, cloud`failures, cloud`heard, journal
    ensures exit.Some? ==> cloud.failures == old(cloud.failures)
    ensures Sound(p, old(cloud.s), old(journal.disk), journal.disk, cloud.s)
    ensures cloud.s.log <= old(cloud.s).log + [PutObject(p.bucket, p.key), CreateOta(p.otaUpdateId)]
    ensures exit in {None, Some(0), Some(1)}
    ensures exit.Some? ==>
              && journal.failedWrites == old(journal.failedWrites) && p.otaUpdateId in cloud.s.otas
              && cloud.s.otas[p.otaUpdateId].status !in MUTATING && journal.disk.Some?
              && journal.disk.value.otaStatus == cloud.s.otas[p.otaUpdateId].status
              && (exit == Some(0) <==> cloud.s.otas[p.otaUpdateId].status == CREATE_COMPLETE)
    ensures exit == Some(0) ==>
              && journal.disk.Some? && (PlanOk(p) ==> LoadMeta(journal.disk.value, true) == Ok(journal.disk.value))
              && p.otaUpdateId !in old(cloud.s).otas && p.otaUpdateId in cloud.s.otas
              && cloud.s.otas[p.otaUpdateId].status == CREATE_COMPLETE
              && journal.disk.value.jobId == cloud.s.otas[p.otaUpdateId].jobId
    ensures cloud.healthy && !journal.failing && cloud.latency + cloud.callTime + poll <= timeout ==>
              && cloud.s.log == old(cloud.s).log + [PutObject(p.bucket, p.key), CreateOta(p.otaUpdateId)]
              && p.otaUpdateId in cloud.s.otas
              && (exit == Some(0) <==>
                    p.otaUpdateId !in old(cloud.s).otas && cloud.s.otas[p.otaUpdateId].status == CREATE_COMPLETE)
              && (p.otaUpdateId in old(cloud.s).otas ==>
                    journal.disk.Some? && journal.disk.value.otaStatus == CREATE_REQUESTED)
  {
    hide Truthful, Describes, Occupied, Effects, LoadMeta, PlanChecked, Journals;
    ghost var start, stale := cloud.s, journal.disk;
    var uploaded := Upload(cloud, journal, p);
    if uploaded.None? {
      return None;
    }
    ghost var put := cloud.s;
    SoundEffects(p, start, stale, journal.disk, put);
    var submitted := Submit(cloud, journal, p, uploaded.value, start, stale);
    SoundEffects(p, start, stale, journal.disk, cloud.s);
    if submitted.None? {
      return None;
    }
    ghost var asked := cloud.s;
    var done, status := WaitForOta(cloud, journal, p, submitted.value, timeout, poll, start);
    if done.None? {
      WaitedSound(p, start, stale, journal.disk, cloud.s);
      return None;
    }
    var stops := journal.Stops();
    var written := journal.WriteJson(done.value);
    WaitedSound(p, start, stale, journal.disk, cloud.s);
    FinishedNamesJob(p, done.value, cloud.s);
    if !written || stops || done.value.jobId == "" {
      return None;
    }
    if done.value.otaStatus == CREATE_COMPLETE {
      if PlanOk(p) {
        JournalsAreAccepted(p, done.value);
        ValidatorsAgree(done.value);
        JournalsAreComplete(p, done.value);
      }
      return Some(0);
    }
    return Some(1);
  }

  lemma SoundEffects(p: Plan, before: State, stale: Option<Meta>, disk: Option<Meta>, s: State)
    requires Sound(p, before, stale, disk, s)
    ensures Effects(p, before, s) && (p.otaUpdateId in before.otas ==> p.otaUpdateId in s.otas)
  {
  }

  lemma WaitedSound(p: Plan, before: State, stale: Option<Meta>, disk: Option<Meta>, s: State)
    requires Effects(p, before, s) && p.otaUpdateId !in before.otas
    requires disk.Some? && Journals(p, disk.value) && Describes(p, disk.value, s)
    ensures Sound(p, before, stale, disk, s)
  {
  }

  lemma FinishedNamesJob(p: Plan, m: Meta, s: State)
    requires Describes(p, m, s) && p.otaUpdateId in s.otas
    ensures s.otas[p.otaUpdateId].status == CREATE_COMPLETE ==> s.otas[p.otaUpdateId].jobId != ""
  {
  }

  lemma JournalsAreComplete(p: Plan, m: Meta)
    requires PlanOk(p) && Journals(p, m) && m.jobId != ""
    ensures Complete(m)
  {
    assert |SourceRoot(p.thingName, p.otaUpdateId)| > 0;
  }
}
