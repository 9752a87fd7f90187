/** cleanup_state: removing what a journal owns, and certifying that it is gone. */
module OtaCleanup {
  import opened Wrappers
  import opened OtaMeta
  import opened OtaReconcile
  import opened OtaCloud
  import opened OtaWaits
  import PagedListing

  // ---------------------------------------------------------------- the report

  /** What the summary lists under "actions". */
  datatype Action =
    | SignerVerified(id: string, status: string)
    | Delete(resource: Resource, mutation: Mutation, ok: bool)

  /** What the summary lists under "errors". */
  datatype Trouble = Identity(problem: Problem) | Failed(operation: string, resource: Resource)

  datatype Summary = Summary(
    checked: seq<Resource>,
    actions: seq<Action>,
    errors: seq<Trouble>,
    absence: map<Resource, bool>,
    passed: bool)

  /** The mutations that the reported actions stand for. */
  function Issued(actions: seq<Action>): seq<Mutation> {
    if actions == [] then []
    else
      match actions[|actions| - 1]
      case SignerVerified(_, _) => Issued(actions[..|actions| - 1])
      case Delete(_, m, _) => Issued(actions[..|actions| - 1]) + [m]
  }

  lemma {:induction false} IssuedJoin(a: seq<Action>, b: seq<Action>)
    ensures Issued(a + b) == Issued(a) + Issued(b)
  {
    if b == [] {
      assert a + b == a;
    } else {
      var n := |b| - 1;
      assert (a + b)[..|a| + n] == a + b[..n];
      IssuedJoin(a, b[..n]);
    }
  }

  /** The mutation is on the resource it is reported for, and the journal owns that. */
  predicate OwnsMutation(m: Meta, resource: Resource, mutation: Mutation) {
    match mutation
    case DeleteOta(id) => resource == OtaUpdate && id != "" && id == m.otaUpdateId
    case DeleteJob(id) => resource == IotJob && id != "" && id == m.jobId
    case DeleteObject(bucket, key, _) =>
      && OwnsObject(m, bucket, key)
      && (if resource == SourceObject then key == m.key
          else resource == SignerPrefix && m.signedPrefix != "" && StartsWith(key, m.signedPrefix))
    case _ => false
  }

  predicate OwnsAction(m: Meta, a: Action) {
    a.Delete? ==> OwnsMutation(m, a.resource, a.mutation)
  }

  ghost predicate OwnsAll(m: Meta, actions: seq<Action>) {
    forall a :: a in actions ==> OwnsAction(m, a)
  }

  /** A mutation that failed is never passed over in silence. */
  ghost predicate Reported(actions: seq<Action>, errors: seq<Trouble>) {
    (exists a :: a in actions && a.Delete? && !a.ok) ==> errors != []
  }

  // ---------------------------------------------------------------- AWS Signer

  predicate Terminal(status: string) {
    status in {"Succeeded", "Failed"}
  }

  /** signing_job_identity_errors reports nothing. */
  predicate SigningIdentityOk(m: Meta, reply: SigningReply)
    requires reply.Signing?
  {
    && reply.jobId == m.signingJobId
    && reply.sourceBucket == m.bucket && reply.sourceKey == m.key && Agrees(m.version, reply.sourceVersion)
    && (Terminal(reply.status) || reply.status == "InProgress")
    && (reply.status == "Succeeded" ==>
          reply.signedBucket == m.bucket && m.signedPrefix != "" && StartsWith(reply.signedKey, m.signedPrefix))
  }

  /** A job of ours that is still running. */
  predicate StillSigning(m: Meta, reply: SigningReply) {
    reply.Signing? && SigningIdentityOk(m, reply) && !Terminal(reply.status)
  }

  /** The first reply that ends the wait. */
  ghost function SigningDecided(m: Meta, replies: seq<SigningReply>): Option<SigningReply> {
    if replies == [] then None
    else
      var front, last := SigningDecided(m, replies[..|replies| - 1]), replies[|replies| - 1];
      if front.Some? then front else if StillSigning(m, last) then None else Some(last)
  }

  /** The wait was ended by our own job in a final state. */
  ghost predicate SignerFinished(m: Meta, replies: seq<SigningReply>) {
    match SigningDecided(m, replies)
    case Some(reply) => reply.Signing? && SigningIdentityOk(m, reply) && Terminal(reply.status)
    case None => false
  }

  /** The reply is about the journaled job, and about the journaled source object as far
      as its version is known. */
  predicate OfOurJob(m: Meta, reply: SigningReply) {
    && reply.Signing? && reply.jobId == m.signingJobId && reply.sourceBucket == m.bucket && reply.sourceKey == m.key
    && (reply.sourceVersion == m.version || m.version == "")
  }

  /** What one reply decides: it is waited on exactly while it is ours and in progress,
      and it lets cleanup go on exactly if it is ours and failed, or is ours and succeeded
      with its output below the journaled prefix. */
  lemma ReplyDecides(m: Meta, reply: SigningReply)
    ensures StillSigning(m, reply) <==> OfOurJob(m, reply) && reply.status == "InProgress"
    ensures SignerFinished(m, [reply]) <==>
              && OfOurJob(m, reply)
              && (|| reply.status == "Failed"
                  || (&& reply.status == "Succeeded" && reply.signedBucket == m.bucket && m.signedPrefix != ""
                      && |m.signedPrefix| <= |reply.signedKey|
                      && reply.signedKey[..|m.signedPrefix|] == m.signedPrefix))
  {
    assert [reply][..0] == [] && SigningDecided(m, []) == None;
    assert SigningDecided(m, [reply]) == if StillSigning(m, reply) then None else Some(reply);
    if reply.Signing? {
      assert StartsWith(reply.signedKey, m.signedPrefix) <==>
               |m.signedPrefix| <= |reply.signedKey| && reply.signedKey[..|m.signedPrefix|] == m.signedPrefix;
    }
  }

  /** wait_for_signing_job_terminal: the job, exactly if it is ours and has finished. */
  method WaitForSigningJob(cloud: Cloud, m: Meta, timeout: nat, poll: nat) returns (r: Option<SigningReply>)
    requires 0 < poll
    modifies cloud`s, cloud`failures, cloud`heard
    ensures r.Some? ==> cloud.failures == old(cloud.failures)
    ensures cloud.s == old(cloud.s).(clock := cloud.s.clock) && old(cloud.s).clock <= cloud.s.clock
    ensures old(cloud.heard) <= cloud.heard
    ensures forall e :: e in cloud.heard[|old(cloud.heard)|..] ==> e.HeardSigner?
    ensures var replies := SigningReplies(cloud.heard[|old(cloud.heard)|..], |cloud.s.log|, m.signingJobId);
            && (r.Some? <==> SignerFinished(m, replies))
            && (r.Some? ==> r == SigningDecided(m, replies))
    ensures r.Some? ==> r.value.Signing? && SigningIdentityOk(m, r.value) && Terminal(r.value.status)
  {
    ghost var start, said := cloud.s, cloud.heard;
    ghost var news: seq<Heard> := [];
    var deadline := cloud.s.clock + timeout;
    while true
      invariant cloud.failures == old(cloud.failures)
      invariant cloud.s == start.(clock := cloud.s.clock) && start.clock <= cloud.s.clock
      invariant cloud.heard == said + news && forall e :: e in news ==> e.HeardSigner?
      invariant SigningDecided(m, SigningReplies(news, |start.log|, m.signingJobId)).None?
      decreases Left(cloud.s.clock, deadline)
    {
      hide SigningReplies, SigningDecided, SigningIdentityOk;
      var reply := cloud.DescribeSigningJob(m.signingJobId);
      OneMoreSigning(m, news, |start.log|, reply);
      news := news + [HeardSigner(|start.log|, m.signingJobId, reply)];
      assert cloud.heard == said + news && cloud.heard[|said|..] == news;
      if !reply.Signing? || !SigningIdentityOk(m, reply) {
        return None;
      }
      if Terminal(reply.status) {
        return Some(reply);
      }
      if cloud.s.clock >= deadline {
        return None;
      }
      cloud.Sleep(poll);
    }
  }

  lemma OneMoreSigning(m: Meta, news: seq<Heard>, at: nat, reply: SigningReply)
    requires SigningDecided(m, SigningReplies(news, at, m.signingJobId)).None?
    ensures var more := SigningReplies(news + [HeardSigner(at, m.signingJobId, reply)], at, m.signingJobId);
            SigningDecided(m, more) == if StillSigning(m, reply) then None else Some(reply)
  {
    var e := HeardSigner(at, m.signingJobId, reply);
    assert (news + [e])[..|news|] == news;
    var replies := SigningReplies(news, at, m.signingJobId);
    assert (replies + [reply])[..|replies|] == replies;
  }

  // ---------------------------------------------------------------- the OTA update

  /** Deleting the update and waiting for it to be gone. */
  method DeleteUpdate(cloud: Cloud, m: Meta, timeout: nat, poll: nat)
    returns (absent: bool, actions: seq<Action>, errors: seq<Trouble>)
    requires 0 < poll && OwnsMutation(m, OtaUpdate, DeleteOta(m.otaUpdateId))
    modifies cloud`s, cloud`failures, cloud`heard
    ensures old(cloud.failures) <= cloud.failures && (errors == [] <==> cloud.failures == old(cloud.failures))
    ensures old(cloud.heard) <= cloud.heard && HeardLater(cloud.heard[|old(cloud.heard)|..], |old(cloud.s).log|)
    ensures OwnsAll(m, actions) && Reported(actions, errors)
    ensures cloud.s.log == old(cloud.s).log + Issued(actions) && Issued(actions) == [DeleteOta(m.otaUpdateId)]
    ensures UpdateConfined(old(cloud.s), cloud.s, m.otaUpdateId)
    ensures absent ==> m.otaUpdateId !in cloud.s.otas
    ensures !absent ==> errors != [] || old(cloud.s).clock + timeout <= cloud.s.clock
    ensures cloud.healthy && cloud.latency + cloud.callTime <= timeout && !Pending(old(cloud.s), m.otaUpdateId) ==>
              && absent && errors == []
              && cloud.s.jobs.Keys == old(cloud.s).jobs.Keys
  {
    hide *;
    var id := m.otaUpdateId;
    errors := [];
    ghost var s0, said := cloud.s, cloud.heard;
    var ack, taken := cloud.DeleteOtaUpdate(id);
    if ack.AckFailed? {
      errors := errors + [Failed("delete", OtaUpdate)];
    }
    actions := [Delete(OtaUpdate, DeleteOta(id), !ack.AckFailed?)];
    ghost var s1 := cloud.s;
    IssuedDelete(cloud, s0, s1, id, taken);
    if cloud.healthy && !Pending(s0, id) {
      DeletionIsDue(s0, s1, id, taken, cloud.latency);
    }
    var gone := WaitUntilOtaAbsent(cloud, id, timeout, poll);
    if gone.None? {
      errors := errors + [Failed("verify_absent", OtaUpdate)];
    }
    absent := gone.Some? && gone.value;
    DeletedThenWatched(s0, s1, cloud.s, id, taken);
    AllLater(cloud.heard[|said|..], |cloud.s.log|, |s0.log|);
    OneDelete(m, OtaUpdate, DeleteOta(id), !ack.AckFailed?, errors);
  }

  lemma OneDelete(m: Meta, resource: Resource, mutation: Mutation, ok: bool, errors: seq<Trouble>)
    requires OwnsMutation(m, resource, mutation) && (ok || errors != [])
    ensures var actions := [Delete(resource, mutation, ok)];
            OwnsAll(m, actions) && Reported(actions, errors) && Issued(actions) == [mutation]
  {
    assert [Delete(resource, mutation, ok)][..0] == [];
  }

  lemma AllLater(news: seq<Heard>, at: nat, before: nat)
    requires before < at && forall e :: e in news ==> e.at == at
    ensures HeardLater(news, before)
  {
  }

  lemma IssuedDelete(cloud: Cloud, s: State, t: State, id: string, taken: Option<(nat, bool)>)
    requires cloud.s == t && cloud.TimePassed(s)
    requires taken.None? ==> t == s.(clock := t.clock, log := s.log + [DeleteOta(id)])
    requires taken.Some? ==>
               && id in s.otas
               && t == Deleted(s, id, taken.value.0, taken.value.1).(clock := t.clock, log := s.log + [DeleteOta(id)])
    ensures DeleteIssued(s, t, id, taken)
  {
  }

  /** What deleting update `id` may change: that update, and its job. */
  ghost predicate UpdateConfined(s: State, t: State, id: string) {
    && t.objects == s.objects && s.clock <= t.clock
    && t.otas - {id} == s.otas - {id} && (id in t.otas ==> id in s.otas && OfSameRequest(s.otas[id], t.otas[id]))
    && forall j :: j in s.jobs && !(id in s.otas && s.otas[id].jobId == j) ==> j in t.jobs && t.jobs[j] == s.jobs[j]
  }

  /** The same update at another time: what was asked for is the same, and a job id that
      is known stays. */
  predicate OfSameRequest(a: Ota, b: Ota) {
    && b == a.(status := b.status, jobId := b.jobId, jobArn := b.jobArn, due := b.due)
    && Agrees(a.jobId, b.jobId) && Agrees(a.jobArn, b.jobArn) && (Plausible(a) ==> Plausible(b))
  }

  /** The state right after the delete request: unchanged but for the log, or deleting. */
  ghost predicate DeleteIssued(s: State, t: State, id: string, taken: Option<(nat, bool)>) {
    && s.clock <= t.clock
    && (taken.None? ==> t == s.(clock := t.clock, log := s.log + [DeleteOta(id)]))
    && (taken.Some? ==>
          && id in s.otas
          && t == Deleted(s, id, taken.value.0, taken.value.1).(clock := t.clock, log := s.log + [DeleteOta(id)]))
  }

  lemma DeletedThenWatched(s: State, t: State, u: State, id: string, taken: Option<(nat, bool)>)
    requires DeleteIssued(s, t, id, taken) && Watched(t, u, id)
    ensures UpdateConfined(s, u, id) && u.log == s.log + [DeleteOta(id)]
    ensures (taken.Some? || id !in s.otas) && id !in u.otas ==> u.jobs.Keys == s.jobs.Keys
  {
    assert t.otas - {id} == s.otas - {id};
    if (taken.Some? || id !in s.otas) && id !in u.otas {
      assert forall j :: j in u.jobs ==> j in t.jobs;
    }
  }

  /** The deletion that was asked for is all there is to wait for. */
  lemma DeletionIsDue(s: State, t: State, id: string, taken: Option<(nat, bool)>, latency: nat)
    requires DeleteIssued(s, t, id, taken) && !Pending(s, id)
    requires taken.Some? <==> id in s.otas
    requires taken.Some? ==> taken.value.0 <= t.clock + latency
    ensures DueSoon(t, id, latency) && (id in t.otas ==> BeingDeleted(t, id))
  {
  }

  // ---------------------------------------------------------------- the job

  /** What removing job `id` may change: that job. */
  ghost predicate JobConfined(s: State, t: State, id: string) {
    && t == s.(clock := t.clock, log := t.log, jobs := t.jobs) && s.clock <= t.clock
    && t.jobs - {id} == s.jobs - {id} && (id in t.jobs ==> id in s.jobs)
  }

  /** Waiting for the job to be gone, and deleting it if it is not. */
  method DeleteIotJob(cloud: Cloud, m: Meta, timeout: nat, poll: nat)
    returns (absent: bool, actions: seq<Action>, errors: seq<Trouble>)
    requires 0 < poll && m.jobId != ""
    modifies cloud`s, cloud`failures
    ensures old(cloud.failures) <= cloud.failures && (errors == [] <==> cloud.failures == old(cloud.failures))
    ensures OwnsAll(m, actions) && Reported(actions, errors)
    ensures cloud.s.log == old(cloud.s).log + Issued(actions)
    ensures JobConfined(old(cloud.s), cloud.s, m.jobId)
    ensures absent ==> m.jobId !in cloud.s.jobs
    ensures !absent ==> errors != [] || old(cloud.s).clock + timeout <= cloud.s.clock
    ensures cloud.healthy && cloud.latency + cloud.callTime <= timeout ==> absent && errors == []
  {
    hide *;
    var id := m.jobId;
    NothingDone(m, []);
    actions, errors := [], [];
    ghost var s0 := cloud.s;
    var gone := WaitUntilJobAbsent(cloud, id, timeout, poll);
    ghost var s1 := cloud.s;
    WatchedIsConfined(s0, s1, id);
    if gone.None? {
      errors := errors + [Failed("verify_absent", IotJob)];
      ReportedWith(actions, errors);
    }
    absent := gone.Some? && gone.value;
    if !absent {
      var ack, due := cloud.ForceDeleteJob(id);
      ghost var s2 := cloud.s;
      JobDeleteIssued(cloud, s0, s1, s2, id, due);
      if ack.AckFailed? {
        errors := errors + [Failed("delete", IotJob)];
      }
      actions := [Delete(IotJob, DeleteJob(id), !ack.AckFailed?)];
      gone := WaitUntilJobAbsent(cloud, id, timeout, poll);
      WatchedIsConfined(s2, cloud.s, id);
      JobConfinedTrans(s0, s2, cloud.s, id);
      if gone.None? {
        errors := errors + [Failed("verify_absent_after_delete", IotJob)];
      }
      absent := gone.Some? && gone.value;
      OwnsItsJob(m);
      OneDelete(m, IotJob, DeleteJob(id), !ack.AckFailed?, errors);
    }
  }

  lemma OwnsItsJob(m: Meta)
    requires m.jobId != ""
    ensures OwnsMutation(m, IotJob, DeleteJob(m.jobId))
  {
  }

  lemma NothingDone(m: Meta, errors: seq<Trouble>)
    ensures OwnsAll(m, []) && Reported([], errors) && Issued([]) == []
  {
  }

  lemma WatchedIsConfined(s: State, t: State, id: string)
    requires JobWatched(s, t, id)
    ensures JobConfined(s, t, id) && t.log == s.log && (id in t.jobs ==> id in s.jobs && t.jobs[id] == s.jobs[id])
  {
  }

  lemma JobDeleteIssued(cloud: Cloud, s: State, t: State, u: State, id: string, due: Option<nat>)
    requires JobConfined(s, t, id) && cloud.s == u && cloud.TimePassed(t)
    requires due.None? ==> u == t.(clock := u.clock, log := t.log + [DeleteJob(id)])
    requires due.Some? ==>
               && id in t.jobs
               && u == t.(clock := u.clock, log := t.log + [DeleteJob(id)], jobs := t.jobs[id := Deleting(due.value)])
    ensures JobConfined(s, u, id) && u.log == t.log + [DeleteJob(id)]
  {
  }

  lemma JobConfinedTrans(s: State, t: State, u: State, id: string)
    requires JobConfined(s, t, id) && JobConfined(t, u, id)
    ensures JobConfined(s, u, id)
  {
  }

  // ---------------------------------------------------------------- the source object

  /** What removing one key may change: that key. */
  ghost predicate KeyConfined(s: State, t: State, bucket: string, key: string) {
    && t == s.(clock := t.clock, log := t.log, objects := t.objects) && s.clock <= t.clock
    && forall e :: !IsKey(e, bucket, key) ==> (e in t.objects <==> e in s.objects)
  }

  /** Every entry of the key is among these listed ones. */
  ghost predicate AllListed(s: State, bucket: string, key: string, entries: seq<PagedListing.Entry>) {
    forall e :: e in s.objects && IsKey(e, bucket, key) ==> AsListed(e) in entries
  }

  /** One deletion for each listed version, in order. */
  function VersionCalls(bucket: string, versions: seq<PagedListing.Entry>): (calls: seq<Mutation>)
    ensures |calls| == |versions|
  {
    seq(|versions|, i requires 0 <= i < |versions| => DeleteObject(bucket, versions[i].key, versions[i].versionId))
  }

  /** Deleting one listed version after the other. */
  method DeleteVersions(cloud: Cloud, m: Meta, versions: seq<PagedListing.Entry>)
    returns (actions: seq<Action>, errors: seq<Trouble>)
    requires Versioned(cloud.s) && m.bucket != "" && m.key != ""
    requires forall v :: v in versions ==> v.key == m.key && v.versionId != ""
    modifies cloud`s, cloud`failures
    ensures old(cloud.failures) <= cloud.failures && (errors == [] <==> cloud.failures == old(cloud.failures))
    ensures OwnsAll(m, actions) && Reported(actions, errors) && Versioned(cloud.s)
    ensures cloud.s.log == old(cloud.s).log + Issued(actions) && Issued(actions) == VersionCalls(m.bucket, versions)
    ensures KeyConfined(old(cloud.s), cloud.s, m.bucket, m.key)
    ensures cloud.healthy ==> errors == []
    ensures cloud.healthy && AllListed(old(cloud.s), m.bucket, m.key, versions) ==> KeyAbsent(cloud.s, m.bucket, m.key)
  {
    actions, errors := [], [];
    ghost var start := cloud.s;
    for i := 0 to |versions|
      invariant old(cloud.failures) <= cloud.failures && (errors == [] <==> cloud.failures == old(cloud.failures))
      invariant OwnsAll(m, actions) && Reported(actions, errors) && Versioned(cloud.s)
      invariant cloud.s.log == start.log + Issued(actions) && Issued(actions) == VersionCalls(m.bucket, versions[..i])
      invariant KeyConfined(start, cloud.s, m.bucket, m.key)
      invariant cloud.healthy ==> errors == []
      invariant cloud.healthy && AllListed(start, m.bucket, m.key, versions) ==>
                  AllListed(cloud.s, m.bucket, m.key, versions[i..])
    {
      ghost var before := cloud.s;
      assert versions[i] in versions;
      var ok := cloud.DeleteS3(m.bucket, m.key, versions[i].versionId);
      if !ok {
        errors := errors + [Failed("delete_version", SourceObject)];
      }
      if cloud.healthy && AllListed(start, m.bucket, m.key, versions) {
        OneFewer(before, cloud.s, m.bucket, m.key, versions[i..]);
        assert versions[i..][1..] == versions[i + 1..];
      }
      ghost var done := actions;
      actions := actions + [Delete(SourceObject, DeleteObject(m.bucket, m.key, versions[i].versionId), ok)];
      assert actions[..|done|] == done;
      assert VersionCalls(m.bucket, versions[..i + 1])
          == VersionCalls(m.bucket, versions[..i]) + [DeleteObject(m.bucket, m.key, versions[i].versionId)];
    }
    assert versions[|versions|..] == [] && versions[..|versions|] == versions;
  }

  lemma OneFewer(s: State, t: State, bucket: string, key: string, entries: seq<PagedListing.Entry>)
    requires entries != [] && AllListed(s, bucket, key, entries)
    requires t.objects == WithoutVersion(s.objects, bucket, key, entries[0].versionId)
    ensures AllListed(t, bucket, key, entries[1..])
  {
    forall e | e in t.objects && IsKey(e, bucket, key)
      ensures AsListed(e) in entries[1..]
    {
      assert AsListed(e) in entries && AsListed(e) != entries[0];
    }
  }

  /** The versions to delete: what was listed, and the journaled one in any case. */
  function Known(m: Meta, listed: seq<PagedListing.Entry>): seq<PagedListing.Entry> {
    listed + if m.version != "" && forall v :: v in listed ==> v.versionId != m.version
             then [PagedListing.Entry(PagedListing.Version, m.key, m.version)] else []
  }

  /** What is to be deleted of the source key, given what was heard about it: every known
      version, or the current object if there is one and no version is known. */
  function SourceCalls(m: Meta, heard: seq<Heard>): seq<Mutation> {
    if heard == [] || !heard[0].HeardSource? || heard[0].listed.None? then []
    else
      var versions := Known(m, heard[0].listed.value);
      if versions != [] then VersionCalls(m.bucket, versions)
      else if 1 < |heard| && heard[1].HeardHead? && heard[1].current.Present? then [DeleteObject(m.bucket, m.key, "")]
      else []
  }

  /** Asking for what there is of the source key, and deleting it. */
  method DeleteListed(cloud: Cloud, m: Meta) returns (actions: seq<Action>, errors: seq<Trouble>, listed: bool)
    requires Versioned(cloud.s) && m.bucket != "" && m.key != ""
    modifies cloud`s, cloud`failures, cloud`heard
    ensures old(cloud.failures) <= cloud.failures && (errors == [] <==> cloud.failures == old(cloud.failures))
    ensures OwnsAll(m, actions) && Reported(actions, errors) && Versioned(cloud.s)
    ensures cloud.s.log == old(cloud.s).log + Issued(actions)
    ensures KeyConfined(old(cloud.s), cloud.s, m.bucket, m.key)
    ensures old(cloud.heard) <= cloud.heard
    ensures var news := cloud.heard[|old(cloud.heard)|..];
            && OfSource(news) && news != [] && news[0].HeardSource? && Issued(actions) == SourceCalls(m, news)
            && (listed <==> news[0].listed.Some?) && (listed && Known(m, news[0].listed.value) == [] ==> |news| == 2)
    ensures if listed then m.version != "" ==> DeleteObject(m.bucket, m.key, m.version) in Issued(actions)
            else actions == [] && errors == [Failed("discover_versions", SourceObject)]
    ensures cloud.healthy ==> listed && KeyAbsent(cloud.s, m.bucket, m.key) && errors == []
  {
    hide Reported, OwnsAll, Issued, OwnsMutation;
    NothingDone(m, []);
    NothingDone(m, [Failed("discover_versions", SourceObject)]);
    actions, errors := [], [];
    ghost var said := cloud.heard;
    var reply := cloud.ListKey(m.bucket, m.key);
    assert cloud.heard[|said|..] == [HeardSource(|cloud.s.log|, reply)];
    listed := reply.Some?;
    if !listed {
      errors := [Failed("discover_versions", SourceObject)];
      return;
    }
    var versions := reply.value;
    if m.version != "" && forall v :: v in versions ==> v.versionId != m.version {
      versions := versions + [PagedListing.Entry(PagedListing.Version, m.key, m.version)];
    }
    assert versions == Known(m, reply.value) && forall v :: v in versions ==> v.key == m.key && v.versionId != "";
    if m.version != "" {
      JournaledIsKnown(m, reply.value);
    }
    hide Known, VersionCalls, ListsKey;
    if versions != [] {
      actions, errors := DeleteVersions(cloud, m, versions);
    } else {
      ghost var first := cloud.heard[|said|..];
      ghost var current;
      actions, errors, current := DeleteCurrent(cloud, m);
      assert cloud.heard[|said|..] == first + [current];
    }
  }

  lemma JournaledIsKnown(m: Meta, listed: seq<PagedListing.Entry>)
    requires m.version != ""
    ensures Known(m, listed) != []
    ensures (forall v :: v in listed ==> v.key == m.key) ==>
              DeleteObject(m.bucket, m.key, m.version) in VersionCalls(m.bucket, Known(m, listed))
  {
    var versions := Known(m, listed);
    var v := PagedListing.Entry(PagedListing.Version, m.key, m.version);
    if forall w :: w in listed ==> w.versionId != m.version {
      assert versions[|listed|] == v;
    } else {
      var i :| 0 <= i < |listed| && listed[i].versionId == m.version;
      assert versions[i] == listed[i];
    }
    var i :| 0 <= i < |versions| && versions[i].versionId == m.version;
    assert VersionCalls(m.bucket, versions)[i] == DeleteObject(m.bucket, versions[i].key, m.version);
  }

  /** With no version known: deleting the current object, if there is one. */
  method DeleteCurrent(cloud: Cloud, m: Meta)
    returns (actions: seq<Action>, errors: seq<Trouble>, ghost heard: Heard)
    requires Versioned(cloud.s) && m.bucket != "" && m.key != ""
    modifies cloud`s, cloud`failures, cloud`heard
    ensures old(cloud.failures) <= cloud.failures && (errors == [] <==> cloud.failures == old(cloud.failures))
    ensures OwnsAll(m, actions) && Reported(actions, errors) && Versioned(cloud.s)
    ensures cloud.s.log == old(cloud.s).log + Issued(actions)
    ensures KeyConfined(old(cloud.s), cloud.s, m.bucket, m.key)
    ensures cloud.heard == old(cloud.heard) + [heard] && heard.HeardHead?
    ensures Issued(actions) == if heard.current.Present? then [DeleteObject(m.bucket, m.key, "")] else []
    ensures cloud.healthy && KeyAbsent(old(cloud.s), m.bucket, m.key) ==>
              KeyAbsent(cloud.s, m.bucket, m.key) && errors == []
  {
    hide Reported, OwnsAll, Issued, OwnsMutation;
    NothingDone(m, []);
    actions, errors := [], [];
    var current := cloud.Head(m.bucket, m.key);
    heard := HeardHead(|cloud.s.log|, current);
    if current.CallFailed? {
      errors := errors + [Failed("discover_current", SourceObject)];
      ReportedWith(actions, errors);
    }
    if current.Present? {
      var ok := cloud.DeleteS3(m.bucket, m.key, "");
      if !ok {
        errors := errors + [Failed("delete", SourceObject)];
      }
      actions := [Delete(SourceObject, DeleteObject(m.bucket, m.key, ""), ok)];
      OwnsItsKey(m, "");
      OneDelete(m, SourceObject, DeleteObject(m.bucket, m.key, ""), ok, errors);
    }
  }

  lemma OwnsItsKey(m: Meta, version: string)
    requires m.bucket != "" && m.key != ""
    ensures OwnsMutation(m, SourceObject, DeleteObject(m.bucket, m.key, version))
  {
  }

  /** Removing every version of the source key. */
  method DeleteSource(cloud: Cloud, m: Meta, timeout: nat, poll: nat)
    returns (absent: bool, actions: seq<Action>, errors: seq<Trouble>)
    requires 0 < poll && Versioned(cloud.s) && m.bucket != "" && m.key != ""
    modifies cloud`s, cloud`failures, cloud`heard
    ensures old(cloud.failures) <= cloud.failures && (errors == [] <==> cloud.failures == old(cloud.failures))
    ensures OwnsAll(m, actions) && Reported(actions, errors) && Versioned(cloud.s)
    ensures cloud.s.log == old(cloud.s).log + Issued(actions)
    ensures KeyConfined(old(cloud.s), cloud.s, m.bucket, m.key)
    ensures absent ==> KeyAbsent(cloud.s, m.bucket, m.key)
    ensures old(cloud.heard) <= cloud.heard && OfSource(cloud.heard[|old(cloud.heard)|..])
    ensures Issued(actions) == SourceCalls(m, cloud.heard[|old(cloud.heard)|..])
    ensures m.version != "" ==>
              || DeleteObject(m.bucket, m.key, m.version) in Issued(actions)
              || errors == [Failed("discover_versions", SourceObject)]
    ensures !absent ==> errors != [] || old(cloud.s).clock + timeout <= cloud.s.clock
    ensures cloud.healthy ==> absent && errors == []
  {
    hide Reported, OwnsAll, Issued, IsKey, KeyAbsent;
    var listed;
    ghost var said := cloud.heard;
    actions, errors, listed := DeleteListed(cloud, m);
    ghost var asked := cloud.heard;
    if !listed {
      return false, actions, errors;
    }
    var gone := WaitUntilKeyAbsent(cloud, m.bucket, m.key, timeout, poll);
    ghost var found := errors;
    assert cloud.heard[|said|..] == asked[|said|..] + cloud.heard[|asked|..];
    if gone.None? {
      errors := errors + [Failed("verify_all_versions_absent", SourceObject)];
    }
    ReportedMore(actions, found, errors);
    absent := gone.Some? && gone.value;
  }

  lemma ReportedMore(actions: seq<Action>, errors: seq<Trouble>, more: seq<Trouble>)
    requires Reported(actions, errors) && errors <= more
    ensures Reported(actions, more)
  {
  }

  // ---------------------------------------------------------------- the AWS Signer output

  /** What draining the prefix may change: what lies below it. */
  ghost predicate PrefixConfined(s: State, t: State, bucket: string, prefix: string) {
    && t == s.(clock := t.clock, log := t.log, objects := t.objects) && s.clock <= t.clock
    && forall e :: !Below(e, bucket, prefix) ==> (e in t.objects <==> e in s.objects)
  }

  /** The keys whose deletion the versions have not taken care of. */
  function KeyCalls(bucket: string, keys: seq<string>, versioned: set<string>): seq<Mutation> {
    if keys == [] then []
    else
      KeyCalls(bucket, keys[..|keys| - 1], versioned)
      + if keys[|keys| - 1] in versioned then [] else [DeleteObject(bucket, keys[|keys| - 1], "")]
  }

  function KeysOf(versions: seq<PagedListing.Entry>): set<string> {
    set v | v in versions :: v.key
  }

  /** What one pass issues. */
  function PassCalls(bucket: string, versions: seq<PagedListing.Entry>, keys: seq<string>): seq<Mutation> {
    VersionCalls(bucket, versions) + KeyCalls(bucket, keys, KeysOf(versions))
  }

  lemma {:induction false} VersionedNeedNoCall(bucket: string, keys: seq<string>, versioned: set<string>)
    requires forall k :: k in keys ==> k in versioned
    ensures KeyCalls(bucket, keys, versioned) == []
  {
    if keys != [] {
      VersionedNeedNoCall(bucket, keys[..|keys| - 1], versioned);
    }
  }

  /** A pass over a listing that is not empty deletes something. */
  lemma PassCallsSomething(bucket: string, versions: seq<PagedListing.Entry>, keys: seq<string>)
    requires versions != [] || keys != []
    ensures PassCalls(bucket, versions, keys) != []
  {
    if versions == [] {
      assert keys[|keys| - 1] !in KeysOf(versions);
    }
  }

  /** One pass over what was listed: every version, then the keys that had none. */
  method DeletePass(cloud: Cloud, m: Meta, versions: seq<PagedListing.Entry>, keys: seq<string>)
    returns (actions: seq<Action>, errors: seq<Trouble>)
    requires Versioned(cloud.s) && m.bucket != "" && m.signedPrefix != ""
    requires forall v :: v in versions ==> PagedListing.OwnedBy(v, m.signedPrefix)
    requires forall k :: k in keys ==> StartsWith(k, m.signedPrefix)
    modifies cloud`s, cloud`failures
    ensures old(cloud.failures) <= cloud.failures && (errors == [] <==> cloud.failures == old(cloud.failures))
    ensures OwnsAll(m, actions) && Reported(actions, errors) && Versioned(cloud.s)
    ensures cloud.s.log == old(cloud.s).log + Issued(actions)
    ensures Issued(actions) == PassCalls(m.bucket, versions, keys)
    ensures PrefixConfined(old(cloud.s), cloud.s, m.bucket, m.signedPrefix)
    ensures cloud.healthy ==> errors == [] && NoneListed(cloud.s, m.bucket, versions)
    ensures cloud.healthy && (forall k :: k in keys ==> k in KeysOf(versions)) ==>
              cloud.s.objects <= old(cloud.s).objects
  {
    hide NoneListed, PrefixConfined, OwnsAll, Reported, Issued, KeysOf, KeyCalls;
    actions, errors := [], [];
    ghost var start := cloud.s;
    NothingDone(m, []);
    NothingListed(start, m.bucket);
    assert PrefixConfined(start, start, m.bucket, m.signedPrefix) by {
      SameConfined(start, m.bucket, m.signedPrefix);
    }
    var versioned: set<string> := {};
    assert versions[..0] == [] && KeysOf([]) == {} by {
      NoKeys(m.bucket, {});
    }
    for i := 0 to |versions|
      invariant old(cloud.failures) <= cloud.failures && (errors == [] <==> cloud.failures == old(cloud.failures))
      invariant OwnsAll(m, actions) && Reported(actions, errors) && Versioned(cloud.s)
      invariant cloud.s.log == start.log + Issued(actions) && Issued(actions) == VersionCalls(m.bucket, versions[..i])
      invariant PrefixConfined(start, cloud.s, m.bucket, m.signedPrefix)
      invariant versioned == KeysOf(versions[..i])
      invariant cloud.healthy ==> errors == [] && NoneListed(cloud.s, m.bucket, versions[..i])
      invariant cloud.healthy ==> cloud.s.objects <= start.objects
    {
      var v := versions[i];
      assert v in versions && versions[..i + 1] == versions[..i] + [v];
      OneMoreKey(m.bucket, versions[..i], v);
      versioned := versioned + {v.key};
      ghost var before, noted := cloud.s, errors;
      var ok := cloud.DeleteS3(m.bucket, v.key, v.versionId);
      if ok {
        OneMoreGone(before, cloud.s, m.bucket, versions[..i], v);
      } else {
        errors := errors + [Failed("delete_version", SignerPrefix)];
      }
      PassStep(m, start, before, cloud.s, actions, noted, errors, v.key, v.versionId, ok);
      actions := actions + [Delete(SignerPrefix, DeleteObject(m.bucket, v.key, v.versionId), ok)];
    }
    assert versions[..|versions|] == versions && keys[..0] == [];
    ghost var calls := VersionCalls(m.bucket, versions);
    ghost var shrunk := cloud.s.objects;
    NoKeys(m.bucket, versioned);
    assert calls + [] == calls;
    for i := 0 to |keys|
      invariant old(cloud.failures) <= cloud.failures && (errors == [] <==> cloud.failures == old(cloud.failures))
      invariant OwnsAll(m, actions) && Reported(actions, errors) && Versioned(cloud.s)
      invariant cloud.s.log == start.log + Issued(actions)
      invariant Issued(actions) == calls + KeyCalls(m.bucket, keys[..i], versioned)
      invariant PrefixConfined(start, cloud.s, m.bucket, m.signedPrefix)
      invariant cloud.healthy ==> errors == [] && NoneListed(cloud.s, m.bucket, versions)
      invariant (forall k :: k in keys ==> k in versioned) ==> cloud.s.objects == shrunk
    {
      assert keys[i] in keys && keys[..i + 1] == keys[..i] + [keys[i]];
      OneMoreKeyCall(m.bucket, keys[..i], keys[i], versioned);
      if keys[i] !in versioned {
        ghost var before, noted := cloud.s, errors;
        var ok := cloud.DeleteS3(m.bucket, keys[i], "");
        NotAmong(versions, keys[i]);
        StillNoneListed(before, cloud.s, m.bucket, versions, keys[i]);
        if !ok {
          errors := errors + [Failed("delete", SignerPrefix)];
        }
        PassStep(m, start, before, cloud.s, actions, noted, errors, keys[i], "", ok);
        actions := actions + [Delete(SignerPrefix, DeleteObject(m.bucket, keys[i], ""), ok)];
      }
    }
    assert keys[..|keys|] == keys;
  }

  lemma NoKeys(bucket: string, versioned: set<string>)
    ensures KeysOf([]) == {} && KeyCalls(bucket, [], versioned) == []
  {
  }

  lemma OneMoreKey(bucket: string, versions: seq<PagedListing.Entry>, v: PagedListing.Entry)
    ensures KeysOf(versions + [v]) == KeysOf(versions) + {v.key}
    ensures VersionCalls(bucket, versions + [v])
         == VersionCalls(bucket, versions) + [DeleteObject(bucket, v.key, v.versionId)]
  {
    forall k | k in KeysOf(versions) + {v.key}
      ensures k in KeysOf(versions + [v])
    {
      var w :| w in versions + [v] && w.key == k;
    }
  }

  lemma OneMoreKeyCall(bucket: string, keys: seq<string>, key: string, versioned: set<string>)
    ensures KeyCalls(bucket, keys + [key], versioned)
         == KeyCalls(bucket, keys, versioned) + if key in versioned then [] else [DeleteObject(bucket, key, "")]
  {
    assert (keys + [key])[..|keys|] == keys;
  }

  lemma NotAmong(versions: seq<PagedListing.Entry>, key: string)
    requires key !in KeysOf(versions)
    ensures forall v :: v in versions ==> v.key != key
  {
  }

  lemma SameConfined(s: State, bucket: string, prefix: string)
    ensures PrefixConfined(s, s, bucket, prefix)
  {
  }

  /** One deletion below the prefix, with its note in the report. */
  lemma PassStep(
      m: Meta, start: State, s: State, t: State, actions: seq<Action>, errors: seq<Trouble>, more: seq<Trouble>,
      key: string, version: string, ok: bool)
    requires OwnsAll(m, actions) && Reported(actions, errors) && s.log == start.log + Issued(actions)
    requires PrefixConfined(start, s, m.bucket, m.signedPrefix)
    requires m.bucket != "" && m.signedPrefix != "" && StartsWith(key, m.signedPrefix)
    requires t == s.(clock := t.clock, log := s.log + [DeleteObject(m.bucket, key, version)], objects := t.objects)
    requires s.clock <= t.clock && forall e :: !IsKey(e, m.bucket, key) ==> (e in t.objects <==> e in s.objects)
    requires if ok then more == errors else more != []
    ensures var all := actions + [Delete(SignerPrefix, DeleteObject(m.bucket, key, version), ok)];
            && OwnsAll(m, all) && Reported(all, more) && t.log == start.log + Issued(all)
            && Issued(all) == Issued(actions) + [DeleteObject(m.bucket, key, version)]
            && PrefixConfined(start, t, m.bucket, m.signedPrefix)
  {
    var a := Delete(SignerPrefix, DeleteObject(m.bucket, key, version), ok);
    assert (actions + [a])[..|actions|] == actions;
    assert PrefixConfined(start, t, m.bucket, m.signedPrefix) by {
      forall e | !Below(e, m.bucket, m.signedPrefix)
        ensures e in t.objects <==> e in start.objects
      {
        assert !IsKey(e, m.bucket, key);
      }
    }
    hide PrefixConfined;
    OneDelete(m, SignerPrefix, DeleteObject(m.bucket, key, version), ok, more);
    OwnsJoin(m, actions, [a]);
    ReportedJoin(actions, errors, [a], more);
    assert Reported(actions + [a], more) by {
      if more == [] {
        assert errors + more == more;
      }
    }
  }

  /** Nothing of what was listed is left. */
  ghost predicate NoneListed(s: State, bucket: string, listed: seq<PagedListing.Entry>) {
    forall e :: e in s.objects && e.bucket == bucket ==> AsListed(e) !in listed
  }

  lemma NothingListed(s: State, bucket: string)
    ensures NoneListed(s, bucket, [])
  {
  }

  lemma OneMoreGone(s: State, t: State, bucket: string, gone: seq<PagedListing.Entry>, v: PagedListing.Entry)
    requires t.objects == WithoutVersion(s.objects, bucket, v.key, v.versionId)
    ensures NoneListed(s, bucket, gone) ==> NoneListed(t, bucket, gone + [v])
  {
  }

  lemma StillNoneListed(s: State, t: State, bucket: string, listed: seq<PagedListing.Entry>, key: string)
    requires forall v :: v in listed ==> v.key != key
    requires forall e :: !IsKey(e, bucket, key) ==> (e in t.objects <==> e in s.objects)
    ensures NoneListed(s, bucket, listed) ==> NoneListed(t, bucket, listed)
  {
    forall e | e in t.objects && e.bucket == bucket && e.key != key
      ensures e in s.objects
    {
      assert !IsKey(e, bucket, key);
    }
  }

  /** How many deletion passes began at or after the deadline: listings after which
      something was issued before the next one, `end` being where the log ends. */
  ghost function LatePasses(heard: seq<Heard>, end: nat, deadline: nat): nat {
    if heard == [] then 0
    else
      var last := heard[|heard| - 1];
      if last.HeardVersions? then
        LatePasses(heard[..|heard| - 1], last.at, deadline)
        + if last.at < end && deadline <= last.clock then 1 else 0
      else LatePasses(heard[..|heard| - 1], end, deadline)
  }

  /** The last n turns each deleted something, and the listings of all but the first of
      them were past the deadline. */
  ghost predicate Trail(heard: seq<Heard>, n: nat, end: nat, deadline: nat) {
    n == 0
    || (&& 2 <= |heard|
        && var versions := heard[|heard| - 2];
           && versions.HeardVersions? && versions.at < end && (1 < n ==> deadline <= versions.clock)
           && Trail(heard[..|heard| - 2], n - 1, versions.at, deadline))
  }

  /** Three deletion passes that ended past the deadline, and then one more listing. */
  ghost predicate GaveUp(heard: seq<Heard>, end: nat, deadline: nat) {
    && 2 <= |heard|
    && var versions := heard[|heard| - 2];
       && versions.HeardVersions? && versions.at == end && deadline <= versions.clock
       && Trail(heard[..|heard| - 2], 3, end, deadline)
  }

  /** How many listings found something newly published. */
  ghost function Publications(heard: seq<Heard>): nat {
    if heard == [] then 0
    else
      var last := heard[|heard| - 1];
      Publications(heard[..|heard| - 1])
      + if (last.HeardVersions? || last.HeardKeys?) && last.published != {} then 1 else 0
  }

  lemma {:induction false} PublicationsJoin(a: seq<Heard>, b: seq<Heard>)
    ensures Publications(a + b) == Publications(a) + Publications(b)
  {
    if b == [] {
      assert a + b == a;
    } else {
      assert (a + b)[..|a + b| - 1] == a + b[..|b| - 1];
      PublicationsJoin(a, b[..|b| - 1]);
    }
  }

  /** One turn more: what it adds to the history, with `end` where the log ends after it. */
  lemma OneTurn(news: seq<Heard>, turn: seq<Heard>, at: nat, clock: nat, early: set<S3Entry>, late: set<S3Entry>)
    requires turn == [HeardVersions(at, clock, early), HeardKeys(at, late)]
    ensures forall end: nat, deadline: nat ::
              LatePasses(news + turn, end, deadline)
              == LatePasses(news, at, deadline) + if at < end && deadline <= clock then 1 else 0
    ensures Publications(news + turn)
         == Publications(news) + (if early != {} then 1 else 0) + if late != {} then 1 else 0
    ensures forall before: nat :: HeardLater(news, before) ==> HeardLater(news + turn, before)
  {
    var all := news + turn;
    assert all[..|all| - 1] == news + [turn[0]] && all[..|all| - 2] == news;
    assert (news + [turn[0]])[..|news|] == news;
    assert all[|all| - 2] == turn[0] && all[|all| - 1] == turn[1];
  }

  /** A turn that deletes something makes the trail longer; one that stops ends it. */
  lemma TrailGrows(
      news: seq<Heard>, turn: seq<Heard>, at: nat, clock: nat, early: set<S3Entry>, late: set<S3Entry>,
      n: nat, end: nat, deadline: nat)
    requires turn == [HeardVersions(at, clock, early), HeardKeys(at, late)]
    requires Trail(news, n, at, deadline) && (0 < n ==> deadline <= clock)
    ensures at < end ==> Trail(news + turn, n + 1, end, deadline)
    ensures n == 3 && deadline <= clock ==> GaveUp(news + turn, at, deadline)
  {
    var all := news + turn;
    assert all[..|all| - 2] == news && all[|all| - 2] == turn[0];
  }

  lemma NoTrail(news: seq<Heard>, end: nat, deadline: nat)
    ensures Trail(news, 0, end, deadline)
  {
  }

  /** What the drain has done is all reported, and confined to the prefix. */
  ghost predicate Audited(
      m: Meta, start: State, s: State, news: seq<Heard>, actions: seq<Action>, errors: seq<Trouble>) {
    && HeardLater(news, |start.log|) && OwnsAll(m, actions) && Reported(actions, errors) && Versioned(s)
    && s.log == start.log + Issued(actions) && PrefixConfined(start, s, m.bucket, m.signedPrefix)
  }

  /** How the passes so far agree with what was heard.  Every pass needs something to
      delete, and on a service that answers one publication is enough for two of them. */
  ghost predicate Counted(
      m: Meta, s: State, healthy: bool, news: seq<Heard>, latePasses: nat, passes: nat, deadline: nat) {
    && LatePasses(news, |s.log|, deadline) <= latePasses <= passes && latePasses <= 3
    && Trail(news, latePasses, |s.log|, deadline) && (0 < latePasses ==> deadline <= s.clock)
    && (healthy ==>
          passes + (if PrefixAbsent(s, m.bucket, m.signedPrefix) then 0 else 1) <= 2 * Publications(news) + 1)
  }

  /** One turn of the loop up to its listings. */
  ghost predicate TurnListed(
      m: Meta, s: State, t: State, healthy: bool, turn: seq<Heard>, empty: bool, early: set<S3Entry>, late: set<S3Entry>) {
    && t.log == s.log && Versioned(t) && PrefixConfined(s, t, m.bucket, m.signedPrefix)
    && (exists clock: nat ::
          s.clock <= clock <= t.clock && turn == [HeardVersions(|t.log|, clock, early), HeardKeys(|t.log|, late)])
    && (empty ==> PrefixAbsent(t, m.bucket, m.signedPrefix))
    && (healthy && PrefixAbsent(s, m.bucket, m.signedPrefix) && early == {} && late == {} ==> empty)
  }

  lemma ListingCounted(
      m: Meta, start: State, s: State, t: State, healthy: bool, news: seq<Heard>, turn: seq<Heard>, empty: bool,
      early: set<S3Entry>, late: set<S3Entry>, latePasses: nat, passes: nat, deadline: nat, actions: seq<Action>,
      errors: seq<Trouble>)
    requires Counted(m, s, healthy, news, latePasses, passes, deadline) && Audited(m, start, s, news, actions, [])
    requires TurnListed(m, s, t, healthy, turn, empty, early, late)
    ensures Audited(m, start, t, news + turn, actions, errors)
    ensures LatePasses(news + turn, |t.log|, deadline) <= 3
    ensures empty && t.clock < deadline ==> Counted(m, t, healthy, news + turn, latePasses, passes, deadline)
    ensures latePasses == 3 ==>
              && GaveUp(news + turn, |t.log|, deadline)
              && (healthy && !empty ==> 2 <= Publications(news + turn))
  {
    hide OwnsAll, LatePasses, PrefixConfined, PrefixAbsent, Issued, HeardLater, Versioned, Below, Trail, GaveUp;
    hide Publications;
    var clock: nat :| s.clock <= clock <= t.clock
                      && turn == [HeardVersions(|t.log|, clock, early), HeardKeys(|t.log|, late)];
    OneTurn(news, turn, |t.log|, clock, early, late);
    TrailGrows(news, turn, |t.log|, clock, early, late, latePasses, |t.log|, deadline);
    NoTrail(news + turn, |t.log|, deadline);
    PrefixConfinedTrans(start, s, t, m.bucket, m.signedPrefix);
  }

  lemma PassCounted(
      m: Meta, start: State, s: State, t: State, u: State, healthy: bool, news: seq<Heard>, turn: seq<Heard>,
      early: set<S3Entry>, late: set<S3Entry>, latePasses: nat, passes: nat, deadline: nat, actions: seq<Action>,
      more: seq<Action>, errors: seq<Trouble>)
    requires Counted(m, s, healthy, news, latePasses, passes, deadline) && Audited(m, start, s, news, actions, [])
    requires TurnListed(m, s, t, healthy, turn, false, early, late) && latePasses < 3
    requires PrefixConfined(t, u, m.bucket, m.signedPrefix) && Versioned(u)
    requires OwnsAll(m, more) && Reported(more, errors) && u.log == t.log + Issued(more) && Issued(more) != []
    requires healthy && late == {} ==> PrefixAbsent(u, m.bucket, m.signedPrefix)
    ensures Audited(m, start, u, news + turn, actions + more, errors)
    ensures LatePasses(news + turn, |u.log|, deadline) <= 3
    ensures Counted(m, u, healthy, news + turn, if deadline <= u.clock then latePasses + 1 else latePasses, passes + 1,
                    deadline)
  {
    hide OwnsAll, LatePasses, PrefixAbsent, Issued, HeardLater, Versioned, Below, Trail, GaveUp, Publications;
    hide Reported;
    var clock: nat :| s.clock <= clock <= t.clock
                      && turn == [HeardVersions(|t.log|, clock, early), HeardKeys(|t.log|, late)];
    OneTurn(news, turn, |t.log|, clock, early, late);
    TrailGrows(news, turn, |t.log|, clock, early, late, latePasses, |u.log|, deadline);
    NoTrail(news + turn, |u.log|, deadline);
    PrefixConfinedTrans(start, s, t, m.bucket, m.signedPrefix);
    PrefixConfinedTrans(start, t, u, m.bucket, m.signedPrefix);
    IssuedJoin(actions, more);
    OwnsJoin(m, actions, more);
    ReportedJoin(actions, [], more, errors);
    assert [] + errors == errors;
  }

  lemma SleepCounted(
      m: Meta, start: State, s: State, t: State, healthy: bool, news: seq<Heard>, latePasses: nat, passes: nat,
      deadline: nat, actions: seq<Action>)
    requires Counted(m, s, healthy, news, latePasses, passes, deadline) && Audited(m, start, s, news, actions, [])
    requires t == s.(clock := t.clock) && s.clock <= t.clock
    ensures Counted(m, t, healthy, news, latePasses, passes, deadline) && Audited(m, start, t, news, actions, [])
  {
    hide OwnsAll, Reported, LatePasses, Issued, HeardLater, Trail, Publications;
  }

  lemma NothingCounted(m: Meta, s: State, healthy: bool, deadline: nat)
    requires Versioned(s)
    ensures Counted(m, s, healthy, [], 0, 0, deadline) && Audited(m, s, s, [], [], [])
    ensures LatePasses([], |s.log|, deadline) == 0
  {
    NothingHeard(|s.log|, deadline);
  }

  lemma ThatIsAll(
      m: Meta, start: State, s: State, said: seq<Heard>, heard: seq<Heard>, news: seq<Heard>, actions: seq<Action>,
      errors: seq<Trouble>)
    requires Audited(m, start, s, news, actions, errors) && heard == said + news
    ensures said <= heard && heard[|said|..] == news && HeardLater(news, |start.log|)
    ensures OwnsAll(m, actions) && Reported(actions, errors) && Versioned(s) && s.log == start.log + Issued(actions)
    ensures PrefixConfined(start, s, m.bucket, m.signedPrefix)
  {
  }

  lemma AuditedIsVersioned(
      m: Meta, start: State, s: State, news: seq<Heard>, actions: seq<Action>, errors: seq<Trouble>)
    requires Audited(m, start, s, news, actions, errors)
    ensures Versioned(s)
  {
  }

  lemma ListedTurn(
      m: Meta, s: State, t: State, healthy: bool, turn: seq<Heard>, empty: bool, early: set<S3Entry>, late: set<S3Entry>,
      clock: nat)
    requires t.log == s.log && Versioned(t) && PrefixConfined(s, t, m.bucket, m.signedPrefix)
    requires s.clock <= clock <= t.clock && turn == [HeardVersions(|t.log|, clock, early), HeardKeys(|t.log|, late)]
    requires empty ==> PrefixAbsent(t, m.bucket, m.signedPrefix)
    requires healthy && PrefixAbsent(s, m.bucket, m.signedPrefix) && early == {} && late == {} ==> empty
    ensures TurnListed(m, s, t, healthy, turn, empty, early, late)
  {
    hide PrefixConfined, PrefixAbsent, Versioned;
  }

  lemma TimeGoesOn(clock: nat, later: nat, deadline: nat)
    requires clock <= later
    ensures Left(later, deadline) <= Left(clock, deadline)
    ensures clock < later && clock < deadline ==> Left(later, deadline) < Left(clock, deadline)
  {
  }

  /** One turn of the drain: both listings, and a deletion pass over what they found. */
  method DrainTurn(
      cloud: Cloud, m: Meta, deadline: nat, poll: nat, before: seq<Action>, lateBefore: nat, ghost start: State,
      ghost news: seq<Heard>, ghost passesBefore: nat)
    returns (over: bool, absent: bool, actions: seq<Action>, errors: seq<Trouble>, latePasses: nat,
             ghost turn: seq<Heard>, ghost passes: nat)
    requires 0 < poll && m.bucket != "" && m.signedPrefix != ""
    requires Audited(m, start, cloud.s, news, before, [])
    requires Counted(m, cloud.s, cloud.healthy, news, lateBefore, passesBefore, deadline) && lateBefore <= 3
    modifies cloud`s, cloud`failures, cloud`heard
    ensures old(cloud.failures) <= cloud.failures && (errors == [] <==> cloud.failures == old(cloud.failures))
    ensures cloud.heard == old(cloud.heard) + turn && old(cloud.s).clock <= cloud.s.clock && latePasses <= 3
    ensures Audited(m, start, cloud.s, news + turn, actions, errors)
    ensures LatePasses(news + turn, |cloud.s.log|, deadline) <= 3
    ensures !over ==>
              && errors == [] && Counted(m, cloud.s, cloud.healthy, news + turn, latePasses, passes, deadline)
              && Left(cloud.s.clock, deadline) + (3 - latePasses) < Left(old(cloud.s).clock, deadline) + (3 - lateBefore)
    ensures over && absent ==>
              errors == [] && PrefixAbsent(cloud.s, m.bucket, m.signedPrefix) && deadline <= cloud.s.clock
    ensures over && !absent && errors == [] ==>
              && GaveUp(news + turn, |cloud.s.log|, deadline)
              && (cloud.healthy ==> 2 <= Publications(news + turn))
    ensures cloud.healthy ==> errors == []
  {
    hide *;
    over, absent, actions, latePasses, passes := true, false, before, lateBefore, passesBefore;
    ghost var top := cloud.s;
    AuditedIsVersioned(m, start, top, news, actions, []);
    var versions, keys;
    ghost var clock, early, late;
    versions, keys, errors, clock, early, late := ListBelow(cloud, m);
    ghost var listed := cloud.s;
    turn := [HeardVersions(|listed.log|, clock, early), HeardKeys(|listed.log|, late)];
    ghost var empty := versions == [] && keys == [] && errors == [];
    ListedTurn(m, top, listed, cloud.healthy, turn, empty, early, late, clock);
    ListingCounted(m, start, top, listed, cloud.healthy, news, turn, empty, early, late, latePasses, passes,
                   deadline, actions, errors);
    if errors != [] {
      return;
    }
    if versions == [] && keys == [] {
      if cloud.s.clock >= deadline {
        absent := true;
        return;
      }
      cloud.Sleep(poll);
      SleepCounted(m, start, listed, cloud.s, cloud.healthy, news + turn, latePasses, passes, deadline, actions);
      TimeGoesOn(top.clock, cloud.s.clock, deadline);
      over := false;
      return;
    }
    if latePasses >= 3 {
      return;
    }
    var more;
    more, errors := DeletePass(cloud, m, versions, keys);
    ghost var passed := cloud.s;
    PassCallsSomething(m.bucket, versions, keys);
    if cloud.healthy && late == {} {
      PassEmpties(listed, passed, m.bucket, m.signedPrefix, versions);
    }
    PassCounted(m, start, top, listed, passed, cloud.healthy, news, turn, early, late, latePasses, passes,
                deadline, actions, more, errors);
    ClockMoves(listed, passed, m.bucket, m.signedPrefix);
    actions, passes := actions + more, passes + 1;
    if errors != [] {
      return;
    }
    over := false;
    if cloud.s.clock >= deadline {
      latePasses := latePasses + 1;
      TimeGoesOn(top.clock, cloud.s.clock, deadline);
    } else {
      cloud.Sleep(poll);
      SleepCounted(m, start, passed, cloud.s, cloud.healthy, news + turn, latePasses, passes, deadline, actions);
      TimeGoesOn(top.clock, cloud.s.clock, deadline);
    }
  }

  /** Draining the prefix for the whole wait window: an empty listing is believed only
      once the window is over, and it gives up only after three deletion passes that
      ended past it.  On a service that answers it does not give up unless at least two
      of its listings found something newly published. */
  method DrainPrefix(cloud: Cloud, m: Meta, timeout: nat, poll: nat)
    returns (absent: bool, actions: seq<Action>, errors: seq<Trouble>)
    requires 0 < poll && Versioned(cloud.s) && m.bucket != "" && m.signedPrefix != ""
    modifies cloud`s, cloud`failures, cloud`heard
    ensures old(cloud.failures) <= cloud.failures && (errors == [] <==> cloud.failures == old(cloud.failures))
    ensures old(cloud.heard) <= cloud.heard && HeardLater(cloud.heard[|old(cloud.heard)|..], |old(cloud.s).log|)
    ensures LatePasses(cloud.heard[|old(cloud.heard)|..], |cloud.s.log|, old(cloud.s).clock + timeout) <= 3
    ensures OwnsAll(m, actions) && Reported(actions, errors) && Versioned(cloud.s)
    ensures cloud.s.log == old(cloud.s).log + Issued(actions)
    ensures PrefixConfined(old(cloud.s), cloud.s, m.bucket, m.signedPrefix)
    ensures absent ==>
              && PrefixAbsent(cloud.s, m.bucket, m.signedPrefix)
              && old(cloud.s).clock + timeout <= cloud.s.clock && errors == []
    ensures !absent && errors == [] ==>
              GaveUp(cloud.heard[|old(cloud.heard)|..], |cloud.s.log|, old(cloud.s).clock + timeout)
    ensures cloud.healthy ==> errors == []
    ensures cloud.healthy && Publications(cloud.heard[|old(cloud.heard)|..]) <= 1 ==> absent
  {
    hide *;
    absent, actions, errors := false, [], [];
    var latePasses := 0;
    ghost var start, said, news, passes := cloud.s, cloud.heard, [], 0;
    var deadline := cloud.s.clock + timeout;
    NothingCounted(m, cloud.s, cloud.healthy, deadline);
    var over := false;
    while !over
      invariant old(cloud.failures) <= cloud.failures && (errors == [] <==> cloud.failures == old(cloud.failures))
      invariant cloud.heard == said + news && start.clock <= cloud.s.clock && latePasses <= 3
      invariant Audited(m, start, cloud.s, news, actions, errors)
      invariant LatePasses(news, |cloud.s.log|, deadline) <= 3 && (cloud.healthy ==> errors == [])
      invariant !over ==>
                  errors == [] && Counted(m, cloud.s, cloud.healthy, news, latePasses, passes, deadline)
      invariant over && absent ==>
                  errors == [] && PrefixAbsent(cloud.s, m.bucket, m.signedPrefix) && deadline <= cloud.s.clock
      invariant over && !absent && errors == [] ==>
                  && GaveUp(news, |cloud.s.log|, deadline)
                  && (cloud.healthy ==> 2 <= Publications(news))
      decreases !over, Left(cloud.s.clock, deadline) + (3 - latePasses)
    {
      ghost var turn;
      over, absent, actions, errors, latePasses, turn, passes :=
        DrainTurn(cloud, m, deadline, poll, actions, latePasses, start, news, passes);
      news := news + turn;
    }
    ThatIsAll(m, start, cloud.s, said, cloud.heard, news, actions, errors);
  }

  /** Everything below the prefix is among the listed versions. */
  ghost predicate AllBelowListed(s: State, bucket: string, prefix: string, versions: seq<PagedListing.Entry>) {
    forall e :: e in s.objects && Below(e, bucket, prefix) ==> AsListed(e) in versions
  }

  lemma PassEmpties(s: State, t: State, bucket: string, prefix: string, versions: seq<PagedListing.Entry>)
    requires AllBelowListed(s, bucket, prefix, versions) && NoneListed(t, bucket, versions) && t.objects <= s.objects
    ensures PrefixAbsent(t, bucket, prefix)
  {
  }

  /** Both listings of one turn, with what was published before each of them.  If both
      are empty, nothing is below the prefix now; and if nothing was published in between,
      the versions are all there is. */
  method ListBelow(cloud: Cloud, m: Meta)
    returns (versions: seq<PagedListing.Entry>, keys: seq<string>, errors: seq<Trouble>,
             ghost clock: nat, ghost early: set<S3Entry>, ghost late: set<S3Entry>)
    requires Versioned(cloud.s)
    modifies cloud`s, cloud`failures, cloud`heard
    ensures old(cloud.failures) <= cloud.failures && (errors == [] <==> cloud.failures == old(cloud.failures))
    ensures cloud.s.log == old(cloud.s).log && Versioned(cloud.s)
    ensures PrefixConfined(old(cloud.s), cloud.s, m.bucket, m.signedPrefix)
    ensures old(cloud.s).clock <= clock <= cloud.s.clock
    ensures cloud.heard
         == old(cloud.heard) + [HeardVersions(|cloud.s.log|, clock, early), HeardKeys(|cloud.s.log|, late)]
    ensures forall v :: v in versions ==> PagedListing.OwnedBy(v, m.signedPrefix)
    ensures forall k :: k in keys ==> StartsWith(k, m.signedPrefix)
    ensures errors == [] && versions == [] && keys == [] ==> PrefixAbsent(cloud.s, m.bucket, m.signedPrefix)
    ensures errors == [] && late == {} ==> AllBelowListed(cloud.s, m.bucket, m.signedPrefix, versions)
    ensures cloud.healthy ==> errors == []
    ensures cloud.healthy && late == {} ==> forall k :: k in keys ==> k in KeysOf(versions)
    ensures cloud.healthy && PrefixAbsent(old(cloud.s), m.bucket, m.signedPrefix) ==>
              early == {} && late == {} ==>
                && versions == [] && keys == [] && PrefixAbsent(cloud.s, m.bucket, m.signedPrefix)
  {
    hide PagedListing.OwnedBy, StartsWith, Versioned;
    ghost var before := cloud.s;
    versions, keys, errors := [], [], [];
    var listed, current;
    listed, early := cloud.ListVersions(m.bucket, m.signedPrefix);
    ghost var between := cloud.s;
    clock := between.clock;
    current, late := cloud.ListCurrent(m.bucket, m.signedPrefix);
    if listed.None? {
      errors := errors + [Failed("discover_versions", SignerPrefix)];
    } else {
      versions := listed.value;
    }
    if current.None? {
      errors := errors + [Failed("discover_current", SignerPrefix)];
    } else {
      keys := current.value;
    }
    if late == {} {
      assert cloud.s.objects == between.objects;
      if cloud.healthy && early == {} && PrefixAbsent(before, m.bucket, m.signedPrefix) {
        assert between.objects == before.objects == cloud.s.objects;
        ListedIsThere(between, m.bucket, m.signedPrefix, versions);
        KeyIsThere(cloud.s, m.bucket, m.signedPrefix, keys);
      }
      if cloud.healthy {
        forall k | k in keys
          ensures k in KeysOf(versions)
        {
          var e :| e in cloud.s.objects && Below(e, m.bucket, m.signedPrefix) && e.key == k;
          assert AsListed(e) in versions && AsListed(e).key == k;
        }
      }
    }
  }

  lemma ListedIsThere(s: State, bucket: string, prefix: string, versions: seq<PagedListing.Entry>)
    requires ListsPrefix(s, bucket, prefix, versions, true)
    ensures PrefixAbsent(s, bucket, prefix) ==> versions == []
  {
    if versions != [] {
      assert versions[0] in versions;
    }
  }

  lemma KeyIsThere(s: State, bucket: string, prefix: string, keys: seq<string>)
    requires ListsObjects(s, bucket, prefix, keys)
    ensures PrefixAbsent(s, bucket, prefix) ==> keys == []
  {
    if keys != [] {
      assert keys[0] in keys;
    }
  }

  lemma NothingHeard(at: nat, deadline: nat)
    ensures HeardLater([], at) && LatePasses([], at, deadline) == 0
    ensures Trail([], 0, at, deadline) && Publications([]) == 0
  {
  }

  lemma SleptConfined(s: State, t: State, u: State, bucket: string, prefix: string)
    requires PrefixConfined(s, t, bucket, prefix) && u == t.(clock := u.clock) && t.clock <= u.clock
    ensures PrefixConfined(s, u, bucket, prefix) && (Versioned(t) ==> Versioned(u))
    ensures PrefixAbsent(t, bucket, prefix) <==> PrefixAbsent(u, bucket, prefix)
  {
  }

  lemma ClockMoves(s: State, t: State, bucket: string, prefix: string)
    requires PrefixConfined(s, t, bucket, prefix)
    ensures s.clock <= t.clock
  {
  }

  lemma PrefixConfinedTrans(s: State, t: State, u: State, bucket: string, prefix: string)
    requires PrefixConfined(s, t, bucket, prefix)
    requires PrefixConfined(t, u, bucket, prefix)
    ensures PrefixConfined(s, u, bucket, prefix)
  {
  }

  lemma OwnsJoin(m: Meta, a: seq<Action>, b: seq<Action>)
    requires OwnsAll(m, a) && OwnsAll(m, b)
    ensures OwnsAll(m, a + b)
  {
  }

  lemma ReportedWith(actions: seq<Action>, errors: seq<Trouble>)
    requires errors != []
    ensures Reported(actions, errors)
  {
  }

  lemma ReportedJoin(a: seq<Action>, e: seq<Trouble>, b: seq<Action>, f: seq<Trouble>)
    requires Reported(a, e) && Reported(b, f)
    ensures Reported(a + b, e + f)
  {
    if x :| x in a + b && x.Delete? && !x.ok {
      assert x in a || x in b;
    }
  }
}
