/** cleanup_state as a whole: preflight, removal in order, and the verdict. */
module OtaCleanupState {
  import opened Wrappers
  import opened OtaMeta
  import opened OtaReconcile
  import opened OtaCloud
  import opened OtaWaits
  import opened OtaCleanup

  // ---------------------------------------------------------------- preflight

  /** The journal after preflight identifies the same run; gaps may have been filled. */
  predicate SameRun(m: Meta, after: Meta) {
    && after == m.(otaStatus := after.otaStatus, jobId := after.jobId, jobArn := after.jobArn, version := after.version,
                   signingJobId := after.signingJobId)
    && Agrees(m.jobId, after.jobId) && Agrees(m.version, after.version)
    && OtaMayExist(after) == OtaMayExist(m)
  }

  lemma ReconciledIsSameRun(m: Meta, live: Live, after: Meta)
    requires Compatible(m, live) && EnrichedFrom(m, live, after) && OtaMayExist(m)
    ensures SameRun(m, after) && (live.jobId != "" ==> after.jobId == live.jobId)
    ensures after.jobId == m.jobId || after.jobId == live.jobId
    ensures IdentityProblem(m).None? ==> IdentityProblem(after).None?
  {
    RecordedFieldsStay(m, live, after);
    EnrichmentKeepsOwnership(m, live, after, "", "");
    assert PRECREATE !! KNOWN;
  }

  /** The live update is the journaled one. */
  predicate Matches(m: Meta, ota: Ota) {
    && ota.thingArn == m.thingArn && m.bucket != "" && ota.bucket == m.bucket && m.key != "" && ota.key == m.key
    && Agrees(m.version, ota.version) && Agrees(m.fileVersion, ota.fileVersion)
    && Agrees(m.jobId, ota.jobId) && Agrees(m.jobArn, ota.jobArn) && ota.signerJob == ""
  }

  /** What a custom-signing journal must say for cleanup to succeed: its identity is
      sound, and an update that exists under its id is the one it describes. */
  predicate Recoverable(m: Meta, s: State) {
    && IdentityProblem(m).None? && m.mode == CUSTOM && m.otaUpdateId != ""
    && (m.otaUpdateId in s.otas ==>
          OtaMayExist(m) && Matches(m, s.otas[m.otaUpdateId]) && Honest(s.otas[m.otaUpdateId]))
  }

  lemma StaysRecoverable(m: Meta, s: State, t: State)
    requires Recoverable(m, s) && Watched(s, t, m.otaUpdateId) && StaysHonest(s, t, m.otaUpdateId)
    ensures Recoverable(m, t)
  {
    hide SourceKeyOk, SignedPrefixOk, IdentityProblem;
  }

  /** An honest reply about the journaled update stops cleanup in exactly one case: the
      update is finished, or failed to be deleted, and names no job. */
  lemma HonestReplyIsCompatible(m: Meta, s: State, live: Live)
    requires IdentityProblem(m).None? && m.mode == CUSTOM && m.otaUpdateId != ""
    requires m.otaUpdateId in s.otas && !Pending(s, m.otaUpdateId) && Matches(m, s.otas[m.otaUpdateId])
    requires View(m.otaUpdateId, s.otas[m.otaUpdateId], live)
    ensures Compatible(m, live) <==> Honest(s.otas[m.otaUpdateId])
  {
    if live.files.Files? {
      var files := live.files.files;
      assert files == [FileOf(s.otas[m.otaUpdateId])];
      assert files[..0] == [];
      assert SignerIds(files) == {};
    }
  }

  /** Discovery found no update, or one that contradicts nothing. */
  ghost predicate DiscoveryClear(m: Meta, heard: seq<Heard>, at: nat) {
    OtaMayExist(m) ==>
      match Discovered(OtaReplies(heard, at, m.otaUpdateId))
      case Err(_) => false
      case Ok(None) => true
      case Ok(Some(live)) => Compatible(m, live)
  }

  /** A known signing job was heard to have finished, and is ours. */
  ghost predicate SignerClear(m: Meta, heard: seq<Heard>, at: nat) {
    m.mode == AWS_SIGNER && m.signingJobId != "" ==> SignerFinished(m, SigningReplies(heard, at, m.signingJobId))
  }

  /** What must have been heard before the first mutation is issued. */
  ghost predicate Clear(m: Meta, after: Meta, heard: seq<Heard>, at: nat) {
    IdentityProblem(m).None? && DiscoveryClear(m, heard, at) && SignerClear(after, heard, at)
  }

  /** The journal is enriched exactly by an update that contradicts nothing. */
  ghost predicate Enrichment(m: Meta, after: Meta, heard: seq<Heard>, at: nat) {
    if IdentityProblem(m).None? && OtaMayExist(m) then
      match Discovered(OtaReplies(heard, at, m.otaUpdateId))
      case Ok(Some(live)) => if Compatible(m, live) then EnrichedFrom(m, live, after) else after == m
      case _ => after == m
    else after == m
  }

  /** What preflight reports. */
  ghost predicate PreflightReport(m: Meta, after: Meta, heard: seq<Heard>, at: nat, errors: seq<Trouble>) {
    if IdentityProblem(m).Some? then errors == [Identity(IdentityProblem(m).value)]
    else if OtaMayExist(m) && Discovered(OtaReplies(heard, at, m.otaUpdateId)).Err? then
      errors == [Failed("discover", OtaUpdate)]
    else if !DiscoveryClear(m, heard, at) then errors != [] && forall e :: e in errors ==> e.Identity?
    else errors == if SignerClear(after, heard, at) then [] else [Failed("verify_terminal", SignerJob)]
  }

  /** On the state itself: the update under the journaled id, as it was or as background
      work has moved it, contradicts nothing. */
  ghost predicate LiveAgrees(m: Meta, s: State)
    requires m.otaUpdateId in s.otas
  {
    exists ota: Ota, live: Live ::
      && SameUpdate(s.otas[m.otaUpdateId], ota) && (!Pending(s, m.otaUpdateId) ==> ota == s.otas[m.otaUpdateId])
      && View(m.otaUpdateId, ota, live) && Compatible(m, live)
  }

  lemma FoundLiveAgrees(m: Meta, s: State, t: State, live: Live)
    requires Watched(s, t, m.otaUpdateId) && m.otaUpdateId in t.otas && m.otaUpdateId in s.otas
    requires View(m.otaUpdateId, t.otas[m.otaUpdateId], live) && Compatible(m, live)
    ensures LiveAgrees(m, s)
  {
    hide View, Compatible;
    assert SameUpdate(s.otas[m.otaUpdateId], t.otas[m.otaUpdateId]);
  }

  lemma StaysUnlessDeleted(s: State, t: State, id: string)
    requires Watched(s, t, id)
    ensures id in s.otas && !BeingDeleted(s, id) ==> id in t.otas
    ensures id in t.otas ==> id in s.otas
  {
  }

  /** The part of preflight that asks for the update. */
  method DiscoverUpdate(cloud: Cloud, m: Meta, timeout: nat, poll: nat)
    returns (after: Meta, otaAbsent: bool, errors: seq<Trouble>)
    requires 0 < poll && IdentityProblem(m).None? && OtaMayExist(m)
    modifies cloud`s, cloud`failures, cloud`heard
    ensures errors == [] ==> cloud.failures == old(cloud.failures)
    ensures Watched(old(cloud.s), cloud.s, m.otaUpdateId)
    ensures old(cloud.heard) <= cloud.heard
    ensures var news, at := cloud.heard[|old(cloud.heard)|..], |old(cloud.s).log|;
            && (forall e :: e in news ==> e.HeardOta?)
            && (errors == [] <==> DiscoveryClear(m, news, at)) && Enrichment(m, after, news, at)
            && (if Discovered(OtaReplies(news, at, m.otaUpdateId)).Err? then errors == [Failed("discover", OtaUpdate)]
                else forall e :: e in errors ==> e.Identity?)
    ensures SameRun(m, after) && IdentityProblem(after).None?
    ensures otaAbsent ==> m.otaUpdateId !in cloud.s.otas
    ensures cloud.honest && errors == [] && m.otaUpdateId in old(cloud.s).otas ==>
              !BeingDeleted(old(cloud.s), m.otaUpdateId) ==>
              LiveAgrees(m, old(cloud.s))
    ensures cloud.healthy && DueSoon(old(cloud.s), m.otaUpdateId, cloud.latency) ==>
              cloud.latency + cloud.callTime <= timeout ==>
                && !Pending(cloud.s, m.otaUpdateId)
                && (BeingDeleted(old(cloud.s), m.otaUpdateId) ==> otaAbsent && after == m)
                && (Recoverable(m, old(cloud.s)) ==> errors == [])
                && (errors == [] ==> LearnsJob(m, after, cloud.s))
  {
    hide IdentityProblem, Watched, View, StaysHonest, Compatible, EnrichedFrom, Matches, Honest, OtaReplies, SameRun;
    hide LiveAgrees, DueSoon, Recoverable;
    ghost var start := cloud.s;
    after, otaAbsent, errors := m, false, [];
    SameRunAsItself(m);
    var discovered := WaitForDiscovery(cloud, m.otaUpdateId, timeout, poll);
    WatchedLog(start, cloud.s, m.otaUpdateId);
    StaysUnlessDeleted(start, cloud.s, m.otaUpdateId);
    ghost var prompt := cloud.healthy && DueSoon(start, m.otaUpdateId, cloud.latency)
                        && cloud.latency + cloud.callTime <= timeout;
    match discovered
    case Err(_) =>
      errors := [Failed("discover", OtaUpdate)];
    case Ok(None) =>
      otaAbsent := true;
    case Ok(Some(live)) =>
      var problems;
      problems, after := Reconcile(m, live);
      if prompt && Recoverable(m, start) {
        RecoverableReply(m, start, cloud.s, live);
      }
      if problems == [] {
        ReconciledIsSameRun(m, live, after);
        if prompt {
          ViewJob(m.otaUpdateId, cloud.s.otas[m.otaUpdateId], live);
        }
        if cloud.honest {
          FoundLiveAgrees(m, start, cloud.s, live);
        }
      } else {
        errors := seq(|problems|, i requires 0 <= i < |problems| => Identity(problems[i]));
      }
  }

  lemma SameRunAsItself(m: Meta)
    ensures SameRun(m, m)
  {
  }

  /** The journal has learnt the job of the update, if there is one. */
  predicate LearnsJob(m: Meta, after: Meta, s: State) {
    && (m.otaUpdateId in s.otas && s.otas[m.otaUpdateId].jobId != "" ==> after.jobId == s.otas[m.otaUpdateId].jobId)
    && (after.jobId == m.jobId || (m.otaUpdateId in s.otas && s.otas[m.otaUpdateId].jobId == after.jobId))
  }

  lemma RecoverableReply(m: Meta, s: State, t: State, live: Live)
    requires Recoverable(m, s) && Watched(s, t, m.otaUpdateId) && StaysHonest(s, t, m.otaUpdateId)
    requires m.otaUpdateId in t.otas && !Pending(t, m.otaUpdateId) && View(m.otaUpdateId, t.otas[m.otaUpdateId], live)
    ensures Compatible(m, live)
  {
    StaysRecoverable(m, s, t);
    hide IdentityProblem, View, Compatible, Watched, StaysHonest, Honest;
    HonestReplyIsCompatible(m, t, live);
  }

  /** Everything before the first mutation: it is passed exactly if the metadata is
      sound, discovery found nothing that contradicts the journal, and a known signing
      job has finished. */
  method Preflight(cloud: Cloud, m: Meta, timeout: nat, poll: nat)
    returns (after: Meta, otaAbsent: bool, actions: seq<Action>, errors: seq<Trouble>)
    requires 0 < poll
    modifies cloud`s, cloud`failures, cloud`heard
    ensures errors == [] ==> cloud.failures == old(cloud.failures)
    ensures Watched(old(cloud.s), cloud.s, m.otaUpdateId)
    ensures old(cloud.heard) <= cloud.heard
    ensures var news, at := cloud.heard[|old(cloud.heard)|..], |old(cloud.s).log|;
            && (errors == [] <==> Clear(m, after, news, at)) && Enrichment(m, after, news, at)
            && PreflightReport(m, after, news, at, errors)
    ensures IdentityProblem(m).Some? ==> errors != [] && cloud.s == old(cloud.s)
    ensures !OtaMayExist(m) ==> cloud.s == old(cloud.s).(clock := cloud.s.clock)
    ensures Issued(actions) == [] && OwnsAll(after, actions) && Reported(actions, errors)
    ensures SameRun(m, after) && (errors == [] ==> IdentityProblem(after).None?)
    ensures otaAbsent ==> OtaMayExist(m) && m.otaUpdateId !in cloud.s.otas
    ensures cloud.honest && errors == [] && OtaMayExist(m) && m.otaUpdateId in old(cloud.s).otas ==>
              BeingDeleted(old(cloud.s), m.otaUpdateId) || LiveAgrees(m, old(cloud.s))
    ensures cloud.healthy && DueSoon(old(cloud.s), m.otaUpdateId, cloud.latency) ==>
              cloud.latency + cloud.callTime <= timeout ==>
                && (errors == [] && OtaMayExist(m) ==> !Pending(cloud.s, m.otaUpdateId) && LearnsJob(m, after, cloud.s))
                && (errors == [] && BeingDeleted(old(cloud.s), m.otaUpdateId) ==>
                      after == m && (OtaMayExist(m) ==> otaAbsent))
                && (Recoverable(m, old(cloud.s)) ==> errors == [])
  {
    hide IdentityProblem, Watched, Compatible, EnrichedFrom, OtaReplies, SigningReplies, SigningDecided, SameRun;
    hide LiveAgrees, DueSoon, Recoverable, LearnsJob, Pending, BeingDeleted, Issued, OwnsAll, Reported, SignerFinished;
    ghost var start, said := cloud.s, cloud.heard;
    after, otaAbsent, actions, errors := m, false, [], [];
    OnlyTime(start, start, m.otaUpdateId);
    SameRunAsItself(m);
    NothingDone(m, []);
    CustomHasNoSigner(m, m, start);
    var problem := IdentityProblem(m);
    if problem.Some? {
      errors := [Identity(problem.value)];
      NothingDone(m, errors);
      return;
    }
    if OtaMayExist(m) {
      after, otaAbsent, errors := DiscoverUpdate(cloud, m, timeout, poll);
    }
    ghost var between, found := cloud.s, cloud.heard[|said|..];
    WatchedLog(start, between, m.otaUpdateId);
    SplitHeard(found, [], |start.log|, m.otaUpdateId, after.signingJobId);
    assert found + [] == found;
    NothingDone(after, errors);
    CustomHasNoSigner(m, after, start);
    if errors == [] && after.mode == AWS_SIGNER && after.signingJobId != "" {
      ghost var heardBefore := cloud.heard;
      var job := WaitForSigningJob(cloud, after, timeout, poll);
      ghost var signed := cloud.heard[|heardBefore|..];
      assert cloud.heard[|said|..] == found + signed;
      SplitHeard(found, signed, |start.log|, m.otaUpdateId, after.signingJobId);
      OnlyTime(between, cloud.s, m.otaUpdateId);
      WatchedTrans(start, between, cloud.s, m.otaUpdateId);
      StillSettled(between, cloud.s, m, after);
      if job.None? {
        errors := [Failed("verify_terminal", SignerJob)];
        NothingDone(after, errors);
        return;
      }
      actions := [SignerVerified(after.signingJobId, job.value.status)];
      VerifiedIssuesNothing(after, actions[0]);
    }
  }

  lemma CustomHasNoSigner(m: Meta, after: Meta, s: State)
    requires SameRun(m, after)
    ensures after.mode == m.mode && (Recoverable(m, s) ==> m.mode != AWS_SIGNER && IdentityProblem(m).None?)
  {
  }

  lemma StillSettled(s: State, t: State, m: Meta, after: Meta)
    requires t == s.(clock := t.clock)
    ensures Pending(t, m.otaUpdateId) == Pending(s, m.otaUpdateId)
    ensures LearnsJob(m, after, t) == LearnsJob(m, after, s)
  {
  }

  lemma VerifiedIssuesNothing(m: Meta, a: Action)
    requires a.SignerVerified?
    ensures Issued([a]) == [] && OwnsAll(m, [a]) && Reported([a], [])
  {
    assert [a][..0] == [];
  }

  lemma ViewJob(id: string, ota: Ota, live: Live)
    requires View(id, ota, live)
    ensures live.Info? && live.jobId == ota.jobId
  {
  }

  // ---------------------------------------------------------------- the verdict

  /** The resource is really gone. */
  ghost predicate Gone(m: Meta, s: State, r: Resource) {
    match r
    case OtaUpdate => m.otaUpdateId !in s.otas
    case IotJob => m.jobId !in s.jobs
    case SourceObject => KeyAbsent(s, m.bucket, m.key)
    case SignerPrefix => PrefixAbsent(s, m.bucket, m.signedPrefix)
    case SignerJob => true
  }

  /** Nothing outside the journal's ownership has changed: no other update, no object
      it does not own, no job but its own two names for it. */
  ghost predicate Confined(m: Meta, s: State, t: State) {
    && s.clock <= t.clock
    && t.otas - {m.otaUpdateId} == s.otas - {m.otaUpdateId}
    && (m.otaUpdateId in t.otas ==>
          m.otaUpdateId in s.otas && OfSameRequest(s.otas[m.otaUpdateId], t.otas[m.otaUpdateId]))
    && (forall e: S3Entry :: !OwnsObject(m, e.bucket, e.key) ==> (e in t.objects <==> e in s.objects))
    && (forall j :: j in s.jobs && j != m.jobId && !(m.otaUpdateId in s.otas && s.otas[m.otaUpdateId].jobId == j) ==>
          j in t.jobs && t.jobs[j] == s.jobs[j])
  }

  /** The job id of the update, whether it was known before or assigned meanwhile, is
      no job of anyone else. */
  lemma ConfinedSteps(m: Meta, s: State, a: State, b: State, c: State, d: State, e: State)
    requires Watched(s, a, m.otaUpdateId)
    requires b == a || UpdateConfined(a, b, m.otaUpdateId)
    requires c == b || JobConfined(b, c, m.jobId)
    requires d == c || (m.bucket != "" && m.key != "" && KeyConfined(c, d, m.bucket, m.key))
    requires e == d || (m.bucket != "" && m.signedPrefix != "" && PrefixConfined(d, e, m.bucket, m.signedPrefix))
    ensures Confined(m, s, e)
  {
    hide Pending;
    forall j | j in s.jobs && j != m.jobId && !(m.otaUpdateId in s.otas && s.otas[m.otaUpdateId].jobId == j)
      ensures j in e.jobs && e.jobs[j] == s.jobs[j]
    {
      assert j in a.jobs && a.jobs[j] == s.jobs[j];
      assert !(m.otaUpdateId in a.otas && a.otas[m.otaUpdateId].jobId == j);
      assert j in b.jobs && b.jobs[j] == s.jobs[j];
      assert j in c.jobs - {m.jobId} || j !in c.jobs || c.jobs == b.jobs;
      assert c.jobs == b.jobs || c.jobs - {m.jobId} == b.jobs - {m.jobId};
    }
    assert b.otas - {m.otaUpdateId} == s.otas - {m.otaUpdateId};
  }

  /** The source key is never below the signer prefix of the same journal. */
  lemma SourceNotBelowPrefix(m: Meta)
    requires IdentityProblem(m).None? && m.key != "" && m.signedPrefix != ""
    ensures !StartsWith(m.key, m.signedPrefix)
  {
    var n := |"ota/" + m.thingName| + 2;
    assert SourceRoot(m.thingName, m.otaUpdateId)[n] == 'o';
    assert SignedRoot(m.thingName, m.otaUpdateId)[n] == 'i';
    assert m.key[n] == SourceRoot(m.thingName, m.otaUpdateId)[n];
    assert m.signedPrefix[n] == SignedRoot(m.thingName, m.otaUpdateId)[n];
  }

  /** What is left of the run after a successful recovery from state s: nothing. */
  ghost predicate Recovered(m: Meta, s: State, t: State) {
    && m.otaUpdateId !in t.otas && (m.bucket != "" && m.key != "" ==> KeyAbsent(t, m.bucket, m.key))
    && t.jobs.Keys <= s.jobs.Keys
    && (m.jobId != "" ==> m.jobId !in t.jobs)
    && (m.otaUpdateId in s.otas && !BeingDeleted(s, m.otaUpdateId) && s.otas[m.otaUpdateId].jobId != "" ==>
          s.otas[m.otaUpdateId].jobId !in t.jobs)
  }

  predicate Unresolved(m: Meta) {
    m.mode == AWS_SIGNER && m.signingJobId == "" && m.otaStatus !in PRECREATE
  }

  predicate AllAbsent(absence: map<Resource, bool>) {
    absence != map[] && forall r :: r in absence ==> absence[r]
  }

  /** Removing the update and its job. */
  method RemoveUpdate(cloud: Cloud, m: Meta, otaAbsent: bool, timeout: nat, poll: nat)
    returns (actions: seq<Action>, errors: seq<Trouble>, absence: map<Resource, bool>, ghost mid: State)
    requires 0 < poll
    requires otaAbsent ==> OtaMayExist(m) && m.otaUpdateId !in cloud.s.otas
    modifies cloud`s, cloud`failures, cloud`heard
    ensures old(cloud.failures) <= cloud.failures && (errors == [] <==> cloud.failures == old(cloud.failures))
    ensures old(cloud.heard) <= cloud.heard && HeardLater(cloud.heard[|old(cloud.heard)|..], |old(cloud.s).log|)
    ensures cloud.s.log == old(cloud.s).log + Issued(actions) && OwnsAll(m, actions) && Reported(actions, errors)
    ensures forall r :: r in absence <==> Checked(m, r) && r in {OtaUpdate, IotJob}
    ensures forall r :: r in absence && absence[r] ==> Gone(m, cloud.s, r)
    ensures mid == old(cloud.s) || UpdateConfined(old(cloud.s), mid, m.otaUpdateId)
    ensures cloud.s == mid || JobConfined(mid, cloud.s, m.jobId)
    ensures cloud.s.objects == old(cloud.s).objects
    ensures !OtaMayExist(m) ==> cloud.s.otas == old(cloud.s).otas && (m.jobId == "" ==> cloud.s.jobs == old(cloud.s).jobs)
    ensures otaAbsent || !OtaMayExist(m) ==> OtherJobsKept(m, old(cloud.s), cloud.s)
    ensures cloud.healthy && cloud.latency + cloud.callTime <= timeout ==>
              (OtaMayExist(m) ==> !Pending(old(cloud.s), m.otaUpdateId)) ==>
                && errors == [] && (forall r :: r in absence ==> absence[r])
                && (OtaMayExist(m) ==> m.otaUpdateId !in cloud.s.otas) && (m.jobId != "" ==> m.jobId !in cloud.s.jobs)
                && cloud.s.jobs.Keys <= old(cloud.s).jobs.Keys
                && (m.jobId == "" && m.otaUpdateId !in old(cloud.s).otas ==> cloud.s.jobs == old(cloud.s).jobs)
  {
    hide OwnsAction, Pending, Issued, UpdateConfined, JobConfined;
    NothingDone(m, []);
    actions, errors, absence := [], [], map[];
    ghost var s0, said := cloud.s, cloud.heard;
    NothingHeard(|s0.log|, 0);
    if OtaMayExist(m) {
      if otaAbsent {
        absence := absence[OtaUpdate := true];
      } else {
        var gone;
        gone, actions, errors := DeleteUpdate(cloud, m, timeout, poll);
        absence := absence[OtaUpdate := gone];
      }
    }
    mid := cloud.s;
    UpdateFrame(s0, mid, m.otaUpdateId);
    if m.jobId != "" {
      var gone, more, troubles := DeleteIotJob(cloud, m, timeout, poll);
      JoinLog(s0, mid, cloud.s, actions, more);
      actions, errors := Add(m, actions, errors, more, troubles);
      absence := absence[IotJob := gone];
    }
    JobFrame(mid, cloud.s, m.jobId);
    if mid == s0 {
      OneJobAtMost(m, s0, cloud.s);
    }
  }

  /** No job but the journaled one has changed. */
  predicate OtherJobsKept(m: Meta, s: State, t: State) {
    t.jobs - {m.jobId} == s.jobs - {m.jobId}
  }

  lemma OneJobAtMost(m: Meta, s: State, t: State)
    requires t == s || JobConfined(s, t, m.jobId)
    ensures OtherJobsKept(m, s, t)
  {
  }

  /** Removing the source object and the signer output. */
  method RemoveObjects(cloud: Cloud, m: Meta, timeout: nat, poll: nat)
    returns (actions: seq<Action>, errors: seq<Trouble>, absence: map<Resource, bool>, ghost mid: State)
    requires 0 < poll && Versioned(cloud.s) && IdentityProblem(m).None?
    modifies cloud`s, cloud`failures, cloud`heard
    ensures old(cloud.failures) <= cloud.failures && (errors == [] <==> cloud.failures == old(cloud.failures))
    ensures old(cloud.heard) <= cloud.heard && HeardLater(cloud.heard[|old(cloud.heard)|..], |old(cloud.s).log|)
    ensures cloud.s.log == old(cloud.s).log + Issued(actions) && OwnsAll(m, actions) && Reported(actions, errors)
    ensures forall r :: r in absence <==> Checked(m, r) && r in {SourceObject, SignerPrefix}
    ensures forall r :: r in absence && absence[r] ==> Gone(m, cloud.s, r)
    ensures mid == old(cloud.s) || (m.bucket != "" && m.key != "" && KeyConfined(old(cloud.s), mid, m.bucket, m.key))
    ensures cloud.s == mid
            || (m.bucket != "" && m.signedPrefix != "" && PrefixConfined(mid, cloud.s, m.bucket, m.signedPrefix))
    ensures cloud.s.otas == old(cloud.s).otas && cloud.s.jobs == old(cloud.s).jobs && Versioned(cloud.s)
    ensures cloud.healthy ==> errors == []
    ensures cloud.healthy && (m.mode == CUSTOM || Publications(cloud.heard[|old(cloud.heard)|..]) <= 1) ==>
              forall r :: r in absence ==> absence[r]
  {
    hide IdentityProblem, OwnsAction, Issued, KeyConfined, PrefixConfined;
    PrefixNeedsBucket(m);
    NothingDone(m, []);
    actions, errors, absence := [], [], map[];
    ghost var s0, said := cloud.s, cloud.heard;
    NothingHeard(|s0.log|, 0);
    if m.bucket != "" && m.key != "" {
      var gone;
      gone, actions, errors := DeleteSource(cloud, m, timeout, poll);
      absence := absence[SourceObject := gone];
    }
    mid := cloud.s;
    ghost var heard1 := cloud.heard;
    KeyFrame(s0, mid, m.bucket, m.key);
    if m.signedPrefix != "" {
      var gone, more, troubles := DrainPrefix(cloud, m, timeout, poll);
      JoinLog(s0, mid, cloud.s, actions, more);
      actions, errors := Add(m, actions, errors, more, troubles);
      absence := absence[SignerPrefix := gone];
    }
    PrefixFrame(m, mid, cloud.s);
    assert cloud.heard[|said|..] == heard1[|said|..] + cloud.heard[|heard1|..];
    SourceIsHeardLater(heard1[|said|..], cloud.heard[|heard1|..], |s0.log|, |mid.log|);
  }

  /** What is heard about the source object is of no other concern. */
  lemma SourceIsHeardLater(early: seq<Heard>, late: seq<Heard>, at: nat, more: nat)
    requires OfSource(early) && (late == [] || HeardLater(late, more)) && at <= more
    ensures HeardLater(early + late, at) && Publications(late) <= Publications(early + late)
  {
    PublicationsJoin(early, late);
  }

  lemma PrefixNeedsBucket(m: Meta)
    requires IdentityProblem(m).None?
    ensures m.signedPrefix != "" ==> m.bucket != "" && m.mode != CUSTOM
  {
  }

  lemma JoinLog(s: State, t: State, u: State, a: seq<Action>, b: seq<Action>)
    requires t.log == s.log + Issued(a) && u.log == t.log + Issued(b)
    ensures u.log == s.log + (Issued(a) + Issued(b))
  {
  }

  lemma UpdateFrame(s: State, t: State, id: string)
    ensures UpdateConfined(s, t, id) ==> t.objects == s.objects && (id !in s.otas ==> id !in t.otas)
    ensures UpdateConfined(s, t, id) && id !in s.otas && t.jobs.Keys == s.jobs.Keys ==> t.jobs == s.jobs
  {
  }

  lemma JobFrame(s: State, t: State, id: string)
    ensures JobConfined(s, t, id) ==>
              && t.objects == s.objects && t.otas == s.otas && t.jobs.Keys <= s.jobs.Keys
  {
    if JobConfined(s, t, id) {
      forall j | j in t.jobs
        ensures j in s.jobs
      {
        assert j == id || j in t.jobs - {id};
      }
    }
  }

  lemma KeyFrame(s: State, t: State, bucket: string, key: string)
    ensures KeyConfined(s, t, bucket, key) ==> t.otas == s.otas && t.jobs == s.jobs
  {
  }

  lemma PrefixFrame(m: Meta, s: State, t: State)
    requires IdentityProblem(m).None? && (m.signedPrefix == "" ==> s == t)
    requires m.signedPrefix != "" ==> PrefixConfined(s, t, m.bucket, m.signedPrefix)
    ensures t.otas == s.otas && t.jobs == s.jobs
    ensures m.key != "" && KeyAbsent(s, m.bucket, m.key) ==> KeyAbsent(t, m.bucket, m.key)
  {
    if m.signedPrefix != "" && m.key != "" {
      SourceNotBelowPrefix(m);
      forall e | e in t.objects && IsKey(e, m.bucket, m.key)
        ensures e in s.objects
      {
        assert !Below(e, m.bucket, m.signedPrefix);
      }
    }
  }

  /** Joining the lists of two removals. */
  method Add(m: Meta, actions: seq<Action>, errors: seq<Trouble>, more: seq<Action>, troubles: seq<Trouble>)
    returns (allActions: seq<Action>, allErrors: seq<Trouble>)
    requires OwnsAll(m, actions) && Reported(actions, errors) && OwnsAll(m, more) && Reported(more, troubles)
    ensures OwnsAll(m, allActions) && Reported(allActions, allErrors)
    ensures Issued(allActions) == Issued(actions) + Issued(more)
    ensures allErrors == errors + troubles
  {
    IssuedJoin(actions, more);
    OwnsJoin(m, actions, more);
    ReportedJoin(actions, errors, more, troubles);
    return actions + more, errors + troubles;
  }

  // ---------------------------------------------------------------- the whole tool

  lemma GoneStays(m: Meta, s: State, t: State, absence: map<Resource, bool>)
    requires t.otas == s.otas && t.jobs == s.jobs
    requires forall r :: r in absence && absence[r] ==> Gone(m, s, r)
    requires forall r :: r in absence ==> r in {OtaUpdate, IotJob}
    ensures forall r :: r in absence && absence[r] ==> Gone(m, t, r)
  {
  }

  /** The service ends with nothing of journal m, the update itself excepted if the
      journal says that it was never asked for. */
  ghost predicate NothingLeft(m: Meta, s: State, t: State) {
    && (OtaMayExist(m) ==> m.otaUpdateId !in t.otas) && (m.jobId != "" ==> m.jobId !in t.jobs)
    && t.jobs.Keys <= s.jobs.Keys
    && (m.bucket != "" && m.key != "" ==> KeyAbsent(t, m.bucket, m.key))
    && (m.bucket != "" && m.signedPrefix != "" ==> PrefixAbsent(t, m.bucket, m.signedPrefix))
  }

  /** The whole removal phase. */
  method RemoveOwned(cloud: Cloud, m: Meta, otaAbsent: bool, timeout: nat, poll: nat, ghost start: State)
    returns (actions: seq<Action>, errors: seq<Trouble>, absence: map<Resource, bool>)
    requires 0 < poll && Versioned(cloud.s) && IdentityProblem(m).None? && Watched(start, cloud.s, m.otaUpdateId)
    requires otaAbsent ==> OtaMayExist(m) && m.otaUpdateId !in cloud.s.otas
    modifies cloud`s, cloud`failures, cloud`heard
    ensures old(cloud.failures) <= cloud.failures && (errors == [] <==> cloud.failures == old(cloud.failures))
    ensures old(cloud.heard) <= cloud.heard && HeardLater(cloud.heard[|old(cloud.heard)|..], |old(cloud.s).log|)
    ensures Confined(m, start, cloud.s) && Versioned(cloud.s)
    ensures cloud.s.log == old(cloud.s).log + Issued(actions) && OwnsAll(m, actions) && Reported(actions, errors)
    ensures forall r :: r in absence <==> Checked(m, r)
    ensures forall r :: r in absence && absence[r] ==> Gone(m, cloud.s, r)
    ensures !OtaMayExist(m) ==> cloud.s.otas == old(cloud.s).otas && (m.jobId == "" ==> cloud.s.jobs == old(cloud.s).jobs)
    ensures otaAbsent || !OtaMayExist(m) ==> OtherJobsKept(m, old(cloud.s), cloud.s)
    ensures cloud.healthy && (m.mode == CUSTOM || Publications(cloud.heard[|old(cloud.heard)|..]) <= 1) ==>
              cloud.latency + cloud.callTime <= timeout && (OtaMayExist(m) ==> !Pending(old(cloud.s), m.otaUpdateId)) ==>
                && errors == [] && (forall r :: r in absence ==> absence[r]) && NothingLeft(m, old(cloud.s), cloud.s)
                && (m.jobId == "" && m.otaUpdateId !in old(cloud.s).otas ==> cloud.s.jobs == old(cloud.s).jobs)
  {
    hide *;
    ghost var s1, said := cloud.s, cloud.heard;
    var updateAbsence, objectAbsence, more, troubles;
    ghost var mid, mid2;
    actions, errors, updateAbsence, mid := RemoveUpdate(cloud, m, otaAbsent, timeout, poll);
    ghost var s2, heard2 := cloud.s, cloud.heard;
    VersionsKept(s1, s2);
    more, troubles, objectAbsence, mid2 := RemoveObjects(cloud, m, timeout, poll);
    LaterToo(said, heard2, cloud.heard, s1.log, s2.log);
    ConfinedSteps(m, start, s1, mid, s2, mid2, cloud.s);
    GoneStays(m, s2, cloud.s, updateAbsence);
    JoinLog(s1, s2, cloud.s, actions, more);
    ghost var updateErrors := errors;
    actions, errors := Add(m, actions, errors, more, troubles);
    absence := updateAbsence + objectAbsence;
    SplitChecked(m, updateAbsence, objectAbsence);
    OtherJobsKeptStill(m, s1, s2, cloud.s);
    LeftFrom(m, s1, s2, cloud.s, absence);
  }

  lemma OtherJobsKeptStill(m: Meta, s: State, t: State, u: State)
    requires u.jobs == t.jobs
    ensures OtherJobsKept(m, s, t) ==> OtherJobsKept(m, s, u)
  {
  }

  lemma LaterToo(a: seq<Heard>, b: seq<Heard>, c: seq<Heard>, log: seq<Mutation>, more: seq<Mutation>)
    requires a <= b <= c && log <= more
    requires HeardLater(b[|a|..], |log|) && HeardLater(c[|b|..], |more|)
    ensures a <= c && HeardLater(c[|a|..], |log|) && Publications(c[|b|..]) <= Publications(c[|a|..])
  {
    assert c[|a|..] == b[|a|..] + c[|b|..];
    PublicationsJoin(b[|a|..], c[|b|..]);
  }

  lemma VersionsKept(s: State, t: State)
    requires Versioned(s) && t.objects == s.objects
    ensures Versioned(t)
  {
  }

  /** The two halves of the verdict cover what is checked. */
  lemma SplitChecked(m: Meta, a: map<Resource, bool>, b: map<Resource, bool>)
    requires forall r :: r in a <==> Checked(m, r) && r in {OtaUpdate, IotJob}
    requires forall r :: r in b <==> Checked(m, r) && r in {SourceObject, SignerPrefix}
    ensures forall r :: r in a + b <==> Checked(m, r)
    ensures forall r :: r in a + b ==> (r in a && (a + b)[r] == a[r]) || (r in b && (a + b)[r] == b[r])
  {
  }

  lemma LeftFrom(m: Meta, s: State, t: State, u: State, absence: map<Resource, bool>)
    requires u.otas == t.otas && u.jobs == t.jobs
    requires forall r :: r in absence <==> Checked(m, r)
    requires forall r :: r in absence && absence[r] ==> Gone(m, u, r)
    ensures (OtaMayExist(m) ==> m.otaUpdateId !in t.otas) && (m.jobId != "" ==> m.jobId !in t.jobs) ==>
              t.jobs.Keys <= s.jobs.Keys ==> (forall r :: r in absence ==> absence[r]) ==> NothingLeft(m, s, u)
  {
    hide KeyAbsent, PrefixAbsent;
    if forall r :: r in absence ==> absence[r] {
      assert m.bucket != "" && m.key != "" ==> Checked(m, SourceObject) && Gone(m, u, SourceObject);
      assert m.bucket != "" && m.signedPrefix != "" ==> Checked(m, SignerPrefix) && Gone(m, u, SignerPrefix);
    }
  }

  lemma RecoveredAtEnd(m: Meta, after: Meta, s: State, t: State, u: State)
    requires Recoverable(m, s) && Watched(s, t, m.otaUpdateId) && SameRun(m, after) && NothingLeft(after, t, u)
    requires LearnsJob(m, after, t) && (m.otaUpdateId in u.otas ==> m.otaUpdateId in s.otas)
    ensures Recovered(m, s, u) && JobIsOwn(m, after, s)
  {
    hide Pending, KeyAbsent, OtaMayExist, IdentityProblem, Matches, Honest;
    forall j | j in u.jobs
      ensures j in s.jobs
    {
      assert j in t.jobs;
    }
  }

  /** The job that cleanup removes is the journaled one, that of the update, or one that
      did not exist before. */
  predicate JobIsOwn(m: Meta, after: Meta, s: State) {
    || after.jobId == m.jobId || after.jobId == "" || after.jobId !in s.jobs
    || (m.otaUpdateId in s.otas && s.otas[m.otaUpdateId].jobId == after.jobId)
  }

  /** What a recoverable journal is before the removal phase. */
  lemma RecoverableRun(m: Meta, after: Meta, s: State, t: State)
    requires Recoverable(m, s) && Watched(s, t, m.otaUpdateId) && SameRun(m, after)
    ensures m.mode == CUSTOM && (!OtaMayExist(m) ==> m.otaUpdateId !in t.otas)
    ensures !OtaMayExist(m) && after == m ==> LearnsJob(m, after, t)
  {
    hide IdentityProblem, Matches, Honest;
  }

  lemma RunKept(m: Meta, after: Meta)
    requires SameRun(m, after)
    ensures after.otaUpdateId == m.otaUpdateId && OtaMayExist(after) == OtaMayExist(m) && after.mode == m.mode
    ensures m.mode == CUSTOM ==> !Unresolved(after)
  {
  }

  /** Without an update to look for the journal stays as it is. */
  lemma NothingToEnrich(m: Meta, after: Meta, heard: seq<Heard>, at: nat)
    requires Enrichment(m, after, heard, at) && !OtaMayExist(m)
    ensures after == m
  {
  }

  /** What is heard during removal tells nothing about what was heard before. */
  lemma HeardBefore(m: Meta, after: Meta, early: seq<Heard>, late: seq<Heard>, at: nat)
    requires HeardLater(late, at)
    ensures Clear(m, after, early + late, at) == Clear(m, after, early, at)
    ensures Enrichment(m, after, early + late, at) == Enrichment(m, after, early, at)
    ensures forall errors :: PreflightReport(m, after, early + late, at, errors) == PreflightReport(m, after, early, at, errors)
  {
    LaterIsNotEarly(early, late, at, m.otaUpdateId);
    LaterIsNotEarly(early, late, at, after.signingJobId);
    hide OtaReplies, SigningReplies, IdentityProblem, Compatible, EnrichedFrom, Discovered, SignerFinished;
  }

  /** cleanup_state.
      Fail closed: it is blocked exactly if the metadata is unsound, discovery failed or
      found an update that contradicts the journal, or a known signing job was not heard
      to have finished as ours; then no mutation is issued.  Audit: the reported actions
      are exactly the mutations issued, all of them on what the journal owns.  Verdict:
      `passed` means that every checked resource is really gone and nothing went wrong.
      Recovery: a healthy service and a journal that describes the run make it pass and
      leave nothing behind; with AWS Signer, unless it goes on publishing, or a submission
      that was never journaled has to be reported. */
  method CleanupState(cloud: Cloud, m: Meta, timeout: nat, poll: nat)
    returns (summary: Summary, after: Meta, ghost blocked: bool)
    requires 0 < poll && Versioned(cloud.s)
    modifies cloud`s, cloud`failures, cloud`heard
    ensures summary.errors == [] ==> cloud.failures == old(cloud.failures)
    ensures SameRun(m, after) && old(cloud.heard) <= cloud.heard
    ensures var news, at := cloud.heard[|old(cloud.heard)|..], |old(cloud.s).log|;
            && (!blocked <==> Clear(m, after, news, at))
            && (cloud.s.log != old(cloud.s).log ==> Clear(m, after, news, at))
            && (blocked ==> PreflightReport(m, after, news, at, summary.errors))
            && Enrichment(m, after, news, at)
    ensures IdentityProblem(m).Some? ==> cloud.s == old(cloud.s)
    ensures blocked ==>
              && Watched(old(cloud.s), cloud.s, m.otaUpdateId) && summary.errors != []
              && summary == Summary(CleanupResources(after), [], summary.errors, map[], false)
    ensures !blocked ==> Confined(after, old(cloud.s), cloud.s)
    ensures cloud.honest && !blocked && OtaMayExist(m) && m.otaUpdateId in old(cloud.s).otas ==>
              BeingDeleted(old(cloud.s), m.otaUpdateId) || LiveAgrees(m, old(cloud.s))
    ensures !OtaMayExist(m) ==>
              cloud.s.otas == old(cloud.s).otas && (m.jobId == "" ==> cloud.s.jobs == old(cloud.s).jobs)
    ensures cloud.s.log == old(cloud.s).log + Issued(summary.actions) && OwnsAll(after, summary.actions)
    ensures Reported(summary.actions, summary.errors) && Versioned(cloud.s)
    ensures forall r :: r in summary.checked <==> Checked(after, r)
    ensures !blocked ==> forall r :: r in summary.absence <==> Checked(after, r)
    ensures forall r :: r in summary.absence && summary.absence[r] ==> Gone(after, cloud.s, r)
    ensures summary.passed <==> AllAbsent(summary.absence) && summary.errors == []
    ensures summary.passed ==> !blocked && !Unresolved(after)
    ensures cloud.healthy && (m.mode == CUSTOM || Publications(cloud.heard[|old(cloud.heard)|..]) <= 1) ==>
              DueSoon(old(cloud.s), m.otaUpdateId, cloud.latency) && cloud.latency + cloud.callTime <= timeout ==>
                && (!blocked ==> RemovesAll(m, after, old(cloud.s), cloud.s, summary))
                && (!blocked && BeingDeleted(old(cloud.s), m.otaUpdateId) ==> OtherJobsKept(m, old(cloud.s), cloud.s))
                && (Recoverable(m, old(cloud.s)) ==>
                      !blocked && Recovered(m, old(cloud.s), cloud.s) && JobIsOwn(m, after, old(cloud.s)))
  {
    hide *;
    ghost var s0, said := cloud.s, cloud.heard;
    var otaAbsent, verified, errors;
    after, otaAbsent, verified, errors := Preflight(cloud, m, timeout, poll);
    ghost var s1, heard1 := cloud.s, cloud.heard;
    WatchedKeeps(s0, s1, m.otaUpdateId);
    RunKept(m, after);
    var checked := CleanupResources(after);
    if errors != [] {
      NothingDone(after, errors);
      summary := Summary(checked, [], errors, map[], false);
      blocked := true;
      NotAllAbsent();
      return;
    }
    blocked := false;
    if !OtaMayExist(m) {
      NothingToEnrich(m, after, heard1[|said|..], |s0.log|);
    }
    var removed, troubles, absence := RemoveOwned(cloud, after, otaAbsent, timeout, poll, s0);
    assert cloud.heard[|said|..] == heard1[|said|..] + cloud.heard[|heard1|..];
    HeardBefore(m, after, heard1[|said|..], cloud.heard[|heard1|..], |s0.log|);
    JoinLog(s0, s1, cloud.s, verified, removed);
    var actions;
    actions, errors := Add(after, verified, errors, removed, troubles);
    if Unresolved(after) {
      errors := errors + [Failed("verify_terminal", SignerJob)];
      ReportedWith(actions, errors);
    }
    summary := Summary(checked, actions, errors, absence, AllAbsent(absence) && errors == []);
    ghost var soon := DueSoon(s0, m.otaUpdateId, cloud.latency) && cloud.latency + cloud.callTime <= timeout;
    PublicationsJoin(heard1[|said|..], cloud.heard[|heard1|..]);
    if cloud.healthy && soon && (m.mode == CUSTOM || Publications(cloud.heard[|said|..]) <= 1) {
      AllRemoved(m, after, s0, s1, cloud.s, summary);
      DeletedIsNotPendingCreation(m, s0, s1, cloud.s);
      if Recoverable(m, s0) {
        RecoverableRun(m, after, s0, s1);
        OnlyIfBefore(after, s0, cloud.s);
        RecoveredAtEnd(m, after, s0, s1, cloud.s);
      }
    }
  }

  /** Everything that is checked is gone.  The one thing that may still be reported is
      that an AWS Signer job may have been submitted which the journal does not know. */
  ghost predicate RemovesAll(m: Meta, after: Meta, s: State, t: State, summary: Summary) {
    && summary.errors == (if Unresolved(after) then [Failed("verify_terminal", SignerJob)] else [])
    && (forall r :: r in summary.absence ==> summary.absence[r])
    && (OtaMayExist(m) ==> m.otaUpdateId !in t.otas) && (after.jobId != "" ==> after.jobId !in t.jobs)
    && (m.bucket != "" && m.key != "" ==> KeyAbsent(t, m.bucket, m.key))
    && (m.bucket != "" && m.signedPrefix != "" ==> PrefixAbsent(t, m.bucket, m.signedPrefix))
  }

  lemma AllRemoved(m: Meta, after: Meta, s: State, t: State, u: State, summary: Summary)
    requires SameRun(m, after) && NothingLeft(after, t, u)
    requires summary.errors == if Unresolved(after) then [Failed("verify_terminal", SignerJob)] else []
    requires forall r :: r in summary.absence ==> summary.absence[r]
    ensures RemovesAll(m, after, s, u, summary)
  {
  }

  /** Watching an update that is being deleted brings no job. */
  lemma DeletedIsNotPendingCreation(m: Meta, s: State, t: State, u: State)
    requires Watched(s, t, m.otaUpdateId)
    ensures BeingDeleted(s, m.otaUpdateId) && (m.otaUpdateId !in t.otas || t.jobs == s.jobs) && OtherJobsKept(m, t, u) ==>
              OtherJobsKept(m, s, u)
  {
    if BeingDeleted(s, m.otaUpdateId) && m.otaUpdateId !in t.otas {
      assert t.jobs == s.jobs;
    }
  }

  lemma OnlyIfBefore(m: Meta, s: State, t: State)
    requires Confined(m, s, t)
    ensures m.otaUpdateId in t.otas ==> m.otaUpdateId in s.otas
  {
  }

  lemma NotAllAbsent()
    ensures !AllAbsent(map[])
  {
  }

  lemma WatchedKeeps(s: State, t: State, id: string)
    requires Watched(s, t, id)
    ensures t.log == s.log && t.objects == s.objects && (Versioned(s) ==> Versioned(t))
  {
  }
}
