/** reconcile_live_ota_identity: comparing the journal with what the service says about
the OTA update, and enriching the journal only when everything agrees. */
module OtaReconcile {
  import opened Wrappers
  import opened OtaMeta

  datatype S3Location = S3Location(bucket: string, key: string, version: string)

  datatype S3Field = NoLocation | Location(s3: S3Location)

  datatype FileEntry = NotAFile | File(location: S3Field, fileVersion: string, signerJob: string)

  datatype FilesField = NoFiles | FilesMalformed | Files(files: seq<FileEntry>)

  datatype TargetsField = NoTargets | TargetsMalformed | Targets(arns: seq<string>)

  /** Untrusted reply of get-ota-update; an absent field is the empty string. */
  datatype Live =
    | NoInfo
    | Info(otaUpdateId: string, status: string, jobId: string, jobArn: string, targets: TargetsField, files: FilesField)

  // ---------------------------------------------------------------- specification

  /** A recorded value is never contradicted. */
  predicate Agrees(recorded: string, live: string) {
    recorded == "" || recorded == live
  }

  function Enriched(recorded: string, live: string): string {
    if recorded == "" then live else recorded
  }

  function SignerIds(files: seq<FileEntry>): set<string> {
    if files == [] then {}
    else
      SignerIds(files[..|files| - 1])
      + if files[|files| - 1].File? && files[|files| - 1].signerJob != "" then {files[|files| - 1].signerJob} else {}
  }

  function LiveSigners(live: Live): set<string>
    requires live.Info?
  {
    if live.files.Files? then SignerIds(live.files.files) else {}
  }

  function S3Files(files: seq<FileEntry>): seq<FileEntry> {
    if files == [] then []
    else
      S3Files(files[..|files| - 1])
      + if files[|files| - 1].File? && files[|files| - 1].location.Location? then [files[|files| - 1]] else []
  }

  predicate JobAgrees(m: Meta, live: Live)
    requires live.Info?
  {
    if live.jobId == "" then live.status == CREATE_FAILED else Agrees(m.jobId, live.jobId)
  }

  predicate JobArnAgrees(m: Meta, live: Live)
    requires live.Info?
  {
    if live.jobArn == "" then m.jobArn == "" || live.status == CREATE_FAILED else Agrees(m.jobArn, live.jobArn)
  }

  /** At most one signer job, none for custom signing, and not another one than recorded. */
  ghost predicate SignerAgrees(m: Meta, live: Live)
    requires live.Info?
  {
    && |LiveSigners(live)| <= 1
    && forall s :: s in LiveSigners(live) ==> Agrees(m.signingJobId, s) && m.mode != CUSTOM
  }

  predicate TargetsAgree(m: Meta, live: Live)
    requires live.Info?
  {
    || m.thingArn == "" || (live.status == CREATE_FAILED && live.targets == NoTargets)
    || live.targets == Targets([m.thingArn])
  }

  predicate FilesGone(live: Live)
    requires live.Info?
  {
    live.status == CREATE_FAILED && live.files == NoFiles
  }

  /** The one file of the update is the journaled source object. */
  predicate TheFile(m: Meta, files: FilesField) {
    && files.Files? && |files.files| == 1 && files.files[0].File? && files.files[0].location.Location?
    && files.files[0].location.s3.bucket == m.bucket && files.files[0].location.s3.key == m.key
    && Agrees(m.version, files.files[0].location.s3.version) && Agrees(m.fileVersion, files.files[0].fileVersion)
  }

  predicate SourceAgrees(m: Meta, live: Live)
    requires live.Info?
  {
    && (m.bucket == "") == (m.key == "") && (m.version != "" ==> m.bucket != "" && m.key != "")
    && (m.bucket != "" && m.key != "" ==> FilesGone(live) || TheFile(m, live.files))
  }

  /** Nothing that is recorded is contradicted by the live update. */
  ghost predicate Compatible(m: Meta, live: Live) {
    && live.Info? && live.otaUpdateId != "" && live.otaUpdateId == m.otaUpdateId && live.status in KNOWN
    && JobAgrees(m, live) && JobArnAgrees(m, live) && SignerAgrees(m, live) && TargetsAgree(m, live)
    && SourceAgrees(m, live)
  }

  function VersionAfter(m: Meta, live: Live): string
    requires live.Info? && SourceAgrees(m, live)
  {
    if m.bucket != "" && m.key != "" && !FilesGone(live) then Enriched(m.version, live.files.files[0].location.s3.version)
    else m.version
  }

  /** The journal after a successful comparison: the live status, and every recorded
      field as it was, gaps filled from the live update. */
  ghost predicate EnrichedFrom(m: Meta, live: Live, after: Meta)
    requires Compatible(m, live)
  {
    && after == m.(otaStatus := live.status, jobId := after.jobId, jobArn := after.jobArn, version := after.version,
                   signingJobId := after.signingJobId)
    && after.jobId == Enriched(m.jobId, live.jobId) && after.jobArn == Enriched(m.jobArn, live.jobArn)
    && after.version == VersionAfter(m, live)
    && (m.signingJobId != "" || LiveSigners(live) == {} ==> after.signingJobId == m.signingJobId)
    && (m.signingJobId == "" && LiveSigners(live) != {} ==> after.signingJobId in LiveSigners(live))
  }

  // ---------------------------------------------------------------- the code

  /** ota_signing_job_id. */
  method SigningJobId(files: FilesField) returns (ids: set<string>)
    ensures ids == if files.Files? then SignerIds(files.files) else {}
  {
    ids := {};
    if !files.Files? {
      return;
    }
    for i := 0 to |files.files|
      invariant ids == SignerIds(files.files[..i])
    {
      assert files.files[..i + 1][..i] == files.files[..i];
      var entry := files.files[i];
      if entry.File? && entry.signerJob != "" {
        ids := ids + {entry.signerJob};
      }
    }
    assert files.files[..|files.files|] == files.files;
  }

  /** The files whose S3 location can be read. */
  method CollectS3Files(files: FilesField) returns (found: seq<FileEntry>)
    ensures found == if files.Files? then S3Files(files.files) else []
    ensures forall f :: f in found ==> f.File? && f.location.Location?
  {
    found := [];
    if !files.Files? {
      return;
    }
    for i := 0 to |files.files|
      invariant found == S3Files(files.files[..i])
      invariant forall f :: f in found ==> f.File? && f.location.Location?
    {
      assert files.files[..i + 1][..i] == files.files[..i];
      var entry := files.files[i];
      if entry.File? && entry.location.Location? {
        found := found + [entry];
      }
    }
    assert files.files[..|files.files|] == files.files;
  }

  /** The comparison of the source object. */
  method ReconcileSource(m: Meta, live: Live) returns (problems: seq<Problem>, version: string)
    requires live.Info?
    ensures problems == [] <==> SourceAgrees(m, live)
    ensures problems == [] ==> version == VersionAfter(m, live)
  {
    hide S3Files;
    problems := [];
    version := m.version;
    if (m.bucket == "") != (m.key == "") {
      problems := problems + [BucketWithoutKey];
    } else if m.version != "" && (m.bucket == "" || m.key == "") {
      problems := problems + [VersionWithoutKey];
    } else if m.bucket != "" && m.key != "" {
      var found := CollectS3Files(live.files);
      var gone := live.status == CREATE_FAILED && live.files == NoFiles;
      TheOnlyFile(live.files, found);
      var matching := |found| == 1 && found[0].location.s3.bucket == m.bucket && found[0].location.s3.key == m.key;
      if !gone && (!live.files.Files? || |live.files.files| != 1 || |found| != 1 || !matching) {
        problems := problems + [NotOneFile];
      } else if !gone {
        var s3, liveFileVersion := found[0].location.s3, found[0].fileVersion;
        if m.version != "" && s3.version != m.version {
          problems := problems + [VersionDiffers];
        } else if m.version == "" && s3.version != "" {
          version := s3.version;
        }
        if m.fileVersion != "" && liveFileVersion != m.fileVersion {
          problems := problems + [FileVersionDiffers];
        }
      }
    }
  }

  /** The one readable file, if the reply holds one file only, is that file. */
  lemma TheOnlyFile(files: FilesField, found: seq<FileEntry>)
    requires found == if files.Files? then S3Files(files.files) else []
    ensures files.Files? && |files.files| == 1 && |found| == 1 ==>
              && found[0] == files.files[0] && found[0].File? && found[0].location.Location?
    ensures files.Files? && |files.files| == 1 && |found| != 1 ==>
              !(files.files[0].File? && files.files[0].location.Location?)
  {
    if files.Files? && |files.files| == 1 {
      OneFile(files.files);
    }
  }

  lemma OneFile(files: seq<FileEntry>)
    requires |files| == 1
    ensures S3Files(files) == if files[0].File? && files[0].location.Location? then [files[0]] else []
  {
    assert files[..0] == [];
  }

  /** The comparison of the AWS Signer job. */
  method ReconcileSigner(m: Meta, live: Live) returns (problems: seq<Problem>, signingJobId: string)
    requires live.Info?
    ensures problems == [] <==> SignerAgrees(m, live)
    ensures problems == [] ==>
              && (m.signingJobId != "" || LiveSigners(live) == {} ==> signingJobId == m.signingJobId)
              && (m.signingJobId == "" && LiveSigners(live) != {} ==> signingJobId in LiveSigners(live))
  {
    problems := [];
    signingJobId := m.signingJobId;
    var ids := SigningJobId(live.files);
    var liveSigner := "";
    if |ids| > 1 {
      problems := problems + [ManySignerJobs];
    } else if ids != {} {
      var s :| s in ids;
      OneElement(ids, s);
      liveSigner := s;
    }
    assert live.files.Files? ==> forall s :: s in ids ==> s != "" by {
      if live.files.Files? {
        SignersNamed(live.files.files);
      }
    }
    if m.signingJobId != "" && liveSigner != "" && m.signingJobId != liveSigner {
      problems := problems + [SignerJobDiffers];
    } else if m.signingJobId == "" && liveSigner != "" {
      signingJobId := liveSigner;
    }
    if m.mode == CUSTOM && liveSigner != "" {
      problems := problems + [SignerJobUnexpected];
    }
  }

  lemma OneElement<T>(s: set<T>, x: T)
    requires |s| <= 1 && x in s
    ensures s == {x}
  {
    assert |s - {x}| == 0;
    assert s == (s - {x}) + {x};
  }

  lemma {:induction false} SignersNamed(files: seq<FileEntry>)
    ensures forall s :: s in SignerIds(files) ==> s != ""
  {
    if files != [] {
      SignersNamed(files[..|files| - 1]);
    }
  }

  /** The comparison of the IoT job. */
  method ReconcileJob(m: Meta, live: Live) returns (problems: seq<Problem>, jobId: string, jobArn: string)
    requires live.Info?
    ensures problems == [] <==> JobAgrees(m, live) && JobArnAgrees(m, live)
    ensures problems == [] ==> jobId == Enriched(m.jobId, live.jobId) && jobArn == Enriched(m.jobArn, live.jobArn)
  {
    problems := [];
    jobId, jobArn := m.jobId, m.jobArn;
    if live.jobId == "" {
      if live.status != CREATE_FAILED {
        problems := problems + [NoJobId];
      }
    } else if m.jobId != "" && m.jobId != live.jobId {
      problems := problems + [JobIdDiffers];
    } else if m.jobId == "" {
      jobId := live.jobId;
    }
    if m.jobArn != "" && live.jobArn != "" && live.jobArn != m.jobArn {
      problems := problems + [JobArnDiffers];
    } else if m.jobArn == "" && live.jobArn != "" {
      jobArn := live.jobArn;
    } else if m.jobArn != "" && live.jobArn == "" && live.status != CREATE_FAILED {
      problems := problems + [NoJobArn];
    }
  }

  /** reconcile_live_ota_identity: problems are collected, and the journal changes only
      if there is none. */
  method Reconcile(m: Meta, live: Live) returns (problems: seq<Problem>, after: Meta)
    ensures problems == [] <==> Compatible(m, live)
    ensures problems != [] ==> after == m
    ensures problems == [] ==> EnrichedFrom(m, live, after)
  {
    problems := [];
    after := m;
    if live.NoInfo? {
      return [NoOtaInfo], m;
    }
    if live.otaUpdateId == "" {
      problems := problems + [NoOtaId];
    } else if live.otaUpdateId != m.otaUpdateId {
      problems := problems + [OtaIdDiffers];
    }
    if live.status !in KNOWN {
      problems := problems + [UnknownStatus];
    }
    var jobProblems, jobId, jobArn := ReconcileJob(m, live);
    problems := problems + jobProblems;
    var signerProblems, signingJobId := ReconcileSigner(m, live);
    problems := problems + signerProblems;
    if m.thingArn != "" && !(live.status == CREATE_FAILED && live.targets == NoTargets)
       && live.targets != Targets([m.thingArn]) {
      problems := problems + [TargetsDiffer];
    }
    var sourceProblems, version := ReconcileSource(m, live);
    problems := problems + sourceProblems;
    if problems == [] {
      assert jobProblems == [] && signerProblems == [] && sourceProblems == [];
      after := m.(otaStatus := live.status, jobId := jobId, jobArn := jobArn, signingJobId := signingJobId,
                  version := version);
    }
  }

  // ---------------------------------------------------------------- properties

  /** Enrichment is monotone: apart from the status, no recorded field changes. */
  lemma RecordedFieldsStay(m: Meta, live: Live, after: Meta)
    requires Compatible(m, live) && EnrichedFrom(m, live, after)
    ensures after.region == m.region && after.thingName == m.thingName && after.thingArn == m.thingArn
    ensures after.otaUpdateId == m.otaUpdateId && after.bucket == m.bucket && after.key == m.key
    ensures after.signedPrefix == m.signedPrefix && after.mode == m.mode && after.fileVersion == m.fileVersion
    ensures Agrees(m.jobId, after.jobId) && Agrees(m.jobArn, after.jobArn) && Agrees(m.version, after.version)
    ensures Agrees(m.signingJobId, after.signingJobId)
    ensures after.otaStatus in KNOWN
  {
  }

  /** What the enriched journal may delete is what the journal could delete before. */
  lemma EnrichmentKeepsOwnership(m: Meta, live: Live, after: Meta, bucket: string, key: string)
    requires Compatible(m, live) && EnrichedFrom(m, live, after)
    ensures OwnsObject(after, bucket, key) == OwnsObject(m, bucket, key)
    ensures IdentityProblem(m).None? ==> IdentityProblem(after).None?
    ensures LoadMeta(m, false) == Ok(m) ==> LoadMeta(after, false) == Ok(after)
  {
    RecordedFieldsStay(m, live, after);
    ValidatorsAgree(m);
    ValidatorsAgree(after);
    hide SourceKeyOk, SignedPrefixOk, LoadMeta, Compatible, EnrichedFrom;
    assert HasKnownResource(m) ==> HasKnownResource(after);
  }

  /** Comparing once more with the same reply succeeds and changes nothing. */
  lemma EnrichmentIsIdempotent(m: Meta, live: Live, after: Meta, again: Meta)
    requires Compatible(m, live) && EnrichedFrom(m, live, after)
    ensures Compatible(after, live)
    ensures EnrichedFrom(after, live, again) ==> again == after
  {
    if m.signingJobId == "" && LiveSigners(live) != {} {
      OneElement(LiveSigners(live), after.signingJobId);
      if live.files.Files? {
        SignersNamed(live.files.files);
      }
    }
  }

  /** Two replies that a journal accepts one after the other never disagree on what they
      identify: the second finds every field of the first, or leaves it out in the one
      state that may. */
  lemma AcceptedRepliesAgree(m: Meta, first: Live, after: Meta, second: Live)
    requires Compatible(m, first) && EnrichedFrom(m, first, after) && Compatible(after, second)
    ensures first.jobId == "" || second.jobId == first.jobId || (second.jobId == "" && second.status == CREATE_FAILED)
    ensures first.jobArn == "" || second.jobArn == first.jobArn || (second.jobArn == "" && second.status == CREATE_FAILED)
    ensures LiveSigners(first) == {} || LiveSigners(second) == {} || LiveSigners(second) == LiveSigners(first)
    ensures m.bucket != "" && m.key != "" && !FilesGone(first) && !FilesGone(second) ==>
              Agrees(first.files.files[0].location.s3.version, second.files.files[0].location.s3.version)
  {
    if LiveSigners(first) != {} && LiveSigners(second) != {} {
      var s :| s in LiveSigners(first);
      var t :| t in LiveSigners(second);
      OneElement(LiveSigners(first), s);
      OneElement(LiveSigners(second), t);
      if first.files.Files? {
        SignersNamed(first.files.files);
      }
    }
  }
}
