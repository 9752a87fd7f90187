/** The OTA journal: which metadata is accepted, which S3 names it may own, and how a
live OTA update is compared with it.

A missing, null or empty field of the journal is the empty string. */
module OtaMeta {
  import opened Wrappers

  datatype Meta = Meta(
    region: string,
    thingName: string,
    thingArn: string,
    otaUpdateId: string,
    otaStatus: string,
    jobId: string,
    jobArn: string,
    bucket: string,
    key: string,
    version: string,
    signedPrefix: string,
    mode: string,
    signingJobId: string,
    fileVersion: string)

  const CUSTOM := "custom"
  const AWS_SIGNER := "aws-signer"
  const UPLOAD_REQUESTED := "UPLOAD_REQUESTED"
  const S3_UPLOADED := "S3_UPLOADED"
  const CREATE_REQUESTED := "CREATE_REQUESTED"
  const CREATE_SUBMITTED := "CREATE_SUBMITTED"
  const CREATE_COMPLETE := "CREATE_COMPLETE"
  const CREATE_FAILED := "CREATE_FAILED"
  const DELETE_FAILED := "DELETE_FAILED"
  const MUTATING: set<string> := {"CREATE_PENDING", "CREATE_IN_PROGRESS", "DELETE_IN_PROGRESS"}
  const KNOWN: set<string> := MUTATING + {CREATE_COMPLETE, CREATE_FAILED, DELETE_FAILED}
  const PRECREATE: set<string> := {UPLOAD_REQUESTED, S3_UPLOADED}

  // ---------------------------------------------------------------- owned names

  predicate StartsWith(s: string, prefix: string) {
    prefix <= s
  }

  predicate EndsWithSlash(s: string) {
    s != "" && s[|s| - 1] == '/'
  }

  function Root(thingName: string, kind: string, otaUpdateId: string): string {
    "ota/" + (thingName + ("/" + (kind + ("/" + (otaUpdateId + "/")))))
  }

  function SourceRoot(thingName: string, otaUpdateId: string): string {
    Root(thingName, "source", otaUpdateId)
  }

  function SignedRoot(thingName: string, otaUpdateId: string): string {
    Root(thingName, "signed", otaUpdateId)
  }

  /** What validate_source_key asks of the key itself, in both tools. */
  predicate SourceKeyOk(thingName: string, otaUpdateId: string, key: string) {
    var root := SourceRoot(thingName, otaUpdateId);
    StartsWith(key, root) && key != root && !EndsWithSlash(key)
  }

  predicate SignedPrefixOk(thingName: string, otaUpdateId: string, prefix: string) {
    StartsWith(prefix, SignedRoot(thingName, otaUpdateId)) && EndsWithSlash(prefix)
  }

  /** Below the root, and no folder. */
  lemma KeyBelow(root: string, s: string)
    ensures StartsWith(s, root) && s != root && !EndsWithSlash(s) <==>
              exists rest: string :: rest != "" && rest[|rest| - 1] != '/' && s == root + rest
  {
    if StartsWith(s, root) {
      assert s == root + s[|root|..];
    }
  }

  /** A folder at or below the root, which is one. */
  lemma FolderBelow(root: string, s: string)
    requires EndsWithSlash(root)
    ensures StartsWith(s, root) && EndsWithSlash(s) <==>
              exists rest: string :: (rest == "" || rest[|rest| - 1] == '/') && s == root + rest
  {
    if StartsWith(s, root) {
      assert s == root + s[|root|..];
    }
  }

  lemma RootsAsText(thingName: string, otaUpdateId: string)
    ensures SourceRoot(thingName, otaUpdateId) == "ota/" + thingName + "/source/" + otaUpdateId + "/"
    ensures SignedRoot(thingName, otaUpdateId) == "ota/" + thingName + "/signed/" + otaUpdateId + "/"
    ensures EndsWithSlash(SignedRoot(thingName, otaUpdateId))
  {
  }

  /** What the two checks ask of a key and of an output prefix, written out. */
  lemma KeysAreText(thingName: string, otaUpdateId: string, s: string)
    ensures SourceKeyOk(thingName, otaUpdateId, s) <==>
              exists rest: string ::
                && rest != "" && rest[|rest| - 1] != '/'
                && s == ("ota/" + thingName + "/source/" + otaUpdateId + "/") + rest
    ensures SignedPrefixOk(thingName, otaUpdateId, s) <==>
              exists rest: string ::
                && (rest == "" || rest[|rest| - 1] == '/')
                && s == ("ota/" + thingName + "/signed/" + otaUpdateId + "/") + rest
  {
    hide SourceRoot, SignedRoot, StartsWith, EndsWithSlash;
    RootsAsText(thingName, otaUpdateId);
    KeyBelow(SourceRoot(thingName, otaUpdateId), s);
    FolderBelow(SignedRoot(thingName, otaUpdateId), s);
  }

  predicate NoSlash(s: string) {
    '/' !in s
  }

  lemma SlashComesFirst(s: string, a: string, x: string)
    requires NoSlash(a) && s == a + ("/" + x)
    ensures |a| < |s| && s[|a|] == '/' && forall i :: 0 <= i < |a| ==> s[i] != '/'
    ensures a == s[..|a|] && x == s[|a| + 1..]
  {
    forall i | 0 <= i < |a|
      ensures s[i] != '/'
    {
      assert s[i] == a[i] && a[i] in a;
    }
  }

  lemma SplitAtSlash(a: string, x: string, b: string, y: string)
    requires NoSlash(a) && NoSlash(b) && a + ("/" + x) == b + ("/" + y)
    ensures a == b && x == y
  {
    SlashComesFirst(a + ("/" + x), a, x);
    SlashComesFirst(a + ("/" + x), b, y);
  }

  /** A key below the root of one run, with the rest of it. */
  lemma BelowRoot(s: string, thingName: string, kind: string, otaUpdateId: string) returns (rest: string)
    requires StartsWith(s, Root(thingName, kind, otaUpdateId))
    ensures s == "ota/" + (thingName + ("/" + (kind + ("/" + (otaUpdateId + ("/" + rest))))))
  {
    rest := s[|Root(thingName, kind, otaUpdateId)|..];
  }

  /** For slash-free names, a key lies below the root of one run and one kind only. */
  lemma RootsAreDisjoint(
      s: string, thing1: string, kind1: string, id1: string, thing2: string, kind2: string, id2: string)
    requires NoSlash(thing1) && NoSlash(kind1) && NoSlash(id1)
    requires NoSlash(thing2) && NoSlash(kind2) && NoSlash(id2)
    requires StartsWith(s, Root(thing1, kind1, id1)) && StartsWith(s, Root(thing2, kind2, id2))
    ensures thing1 == thing2 && kind1 == kind2 && id1 == id2
  {
    var rest1 := BelowRoot(s, thing1, kind1, id1);
    var rest2 := BelowRoot(s, thing2, kind2, id2);
    var tail1, tail2 := id1 + ("/" + rest1), id2 + ("/" + rest2);
    var mid1, mid2 := kind1 + ("/" + tail1), kind2 + ("/" + tail2);
    assert s[4..] == thing1 + ("/" + mid1) == thing2 + ("/" + mid2);
    SplitAtSlash(thing1, mid1, thing2, mid2);
    SplitAtSlash(kind1, tail1, kind2, tail2);
    SplitAtSlash(id1, rest1, id2, rest2);
  }

  /** An S3 name that a journal lets cleanup delete. */
  predicate OwnsObject(m: Meta, bucket: string, key: string) {
    && m.bucket != "" && bucket == m.bucket
    && ((m.key != "" && key == m.key) || (m.signedPrefix != "" && StartsWith(key, m.signedPrefix)))
  }

  /** No journal that passes the checks owns an object of another run, as long as the
      names hold no slash. */
  lemma NamespacesAreDisjoint(m: Meta, n: Meta, bucket: string, key: string)
    requires IdentityProblem(m).None? && IdentityProblem(n).None?
    requires NoSlash(m.thingName) && NoSlash(m.otaUpdateId) && NoSlash(n.thingName) && NoSlash(n.otaUpdateId)
    requires OwnsObject(m, bucket, key) && OwnsObject(n, bucket, key)
    ensures m.thingName == n.thingName && m.otaUpdateId == n.otaUpdateId
  {
    var kind1 := OwnedBelow(m, bucket, key);
    var kind2 := OwnedBelow(n, bucket, key);
    RootsAreDisjoint(key, m.thingName, kind1, m.otaUpdateId, n.thingName, kind2, n.otaUpdateId);
  }

  lemma OwnedBelow(m: Meta, bucket: string, key: string) returns (kind: string)
    requires IdentityProblem(m).None? && OwnsObject(m, bucket, key)
    ensures kind in {"source", "signed"} && StartsWith(key, Root(m.thingName, kind, m.otaUpdateId))
  {
    if m.key != "" && key == m.key {
      kind := "source";
    } else {
      kind := "signed";
    }
  }

  /** The slash-free names matter: here are two runs whose checked source keys are the
      same object. */
  lemma SlashedNamesCollide()
    ensures var key := "ota/x/source/y/source/z/f";
            SourceKeyOk("x", "y", key) && SourceKeyOk("x/source/y", "z", key)
  {
    assert SourceRoot("x", "y") == "ota/x/source/y/";
    assert SourceRoot("x/source/y", "z") == "ota/x/source/y/source/z/";
  }

  // ---------------------------------------------------------------- acceptance of a journal

  datatype Problem =
    | MissingFields | BadMode | PrefixMissing | PrefixUnexpected | BucketWithoutKey | VersionWithoutKey
    | PrefixWithoutBucket | NoKnownResource | KeyWithoutOwner | KeyOutside | PrefixWithoutOwner | PrefixOutside
    | NoOtaInfo | NoOtaId | OtaIdDiffers | UnknownStatus | NoJobId | JobIdDiffers | JobArnDiffers | NoJobArn
    | ManySignerJobs | SignerJobDiffers | SignerJobUnexpected | TargetsDiffer | NotOneFile | VersionDiffers
    | FileVersionDiffers

  /** validate_source_key of the cleanup tool. */
  function ValidateSourceKey(m: Meta): Result<Option<string>, Problem> {
    if m.key == "" then Ok(None)
    else if m.bucket == "" || m.thingName == "" || m.otaUpdateId == "" then Err(KeyWithoutOwner)
    else if !SourceKeyOk(m.thingName, m.otaUpdateId, m.key) then Err(KeyOutside)
    else Ok(Some(m.key))
  }

  /** validate_signed_prefix of the cleanup tool. */
  function ValidateSignedPrefix(m: Meta): Result<Option<string>, Problem> {
    if m.signedPrefix == "" then Ok(None)
    else if m.bucket == "" || m.thingName == "" || m.otaUpdateId == "" then Err(PrefixWithoutOwner)
    else if !SignedPrefixOk(m.thingName, m.otaUpdateId, m.signedPrefix) then Err(PrefixOutside)
    else Ok(Some(m.signedPrefix))
  }

  predicate Complete(m: Meta) {
    m.thingName != "" && m.otaUpdateId != "" && m.jobId != "" && m.bucket != "" && m.key != "" && m.mode != ""
  }

  predicate HasKnownResource(m: Meta) {
    || m.otaUpdateId != "" || m.jobId != "" || (m.bucket != "" && m.key != "")
    || (m.signedPrefix != "" && m.bucket != "")
  }

  /** load_meta. */
  function LoadMeta(m: Meta, requireComplete: bool): Result<Meta, Problem> {
    if m.region == "" || (requireComplete && !Complete(m)) then Err(MissingFields)
    else if m.mode !in {AWS_SIGNER, CUSTOM} then Err(BadMode)
    else if m.mode == AWS_SIGNER && m.signedPrefix == "" then Err(PrefixMissing)
    else if m.mode == CUSTOM && m.signedPrefix != "" then Err(PrefixUnexpected)
    else if !requireComplete && (m.bucket == "") != (m.key == "") then Err(BucketWithoutKey)
    else if !requireComplete && m.version != "" && (m.bucket == "" || m.key == "") then Err(VersionWithoutKey)
    else if !requireComplete && m.signedPrefix != "" && (m.bucket == "" || m.thingName == "") then Err(PrefixWithoutBucket)
    else if !requireComplete && !HasKnownResource(m) then Err(NoKnownResource)
    else
      match (ValidateSourceKey(m), ValidateSignedPrefix(m))
      case (Err(e), _) => Err(e)
      case (_, Err(e)) => Err(e)
      case _ => Ok(m)
  }

  /** validate_cleanup_metadata_identity: the first problem, if there is one. */
  function IdentityProblem(m: Meta): Option<Problem> {
    if (m.bucket == "") != (m.key == "") then Some(BucketWithoutKey)
    else if m.version != "" && (m.bucket == "" || m.key == "") then Some(VersionWithoutKey)
    else if ValidateSourceKey(m).Err? then Some(ValidateSourceKey(m).error)
    else if m.mode !in {AWS_SIGNER, CUSTOM} then Some(BadMode)
    else if m.mode == AWS_SIGNER && m.signedPrefix == "" then Some(PrefixMissing)
    else if m.mode == CUSTOM && m.signedPrefix != "" then Some(PrefixUnexpected)
    else if ValidateSignedPrefix(m).Err? then Some(ValidateSignedPrefix(m).error)
    else None
  }

  /** The two validators are written separately and agree: a journal is loaded for
      cleanup exactly if it names a region and a resource and its identity is sound,
      and what is complete is also good enough as partial metadata. */
  lemma ValidatorsAgree(m: Meta)
    ensures LoadMeta(m, false) == Ok(m) <==> m.region != "" && HasKnownResource(m) && IdentityProblem(m).None?
    ensures LoadMeta(m, true) == Ok(m) <==> LoadMeta(m, false) == Ok(m) && Complete(m)
  {
    hide SourceKeyOk, SignedPrefixOk;
  }

  /** Bucket and key go together and belong to a named run, as does the output prefix,
      which there is for AWS Signer and for no one else. */
  predicate SoundIdentity(m: Meta) {
    && (m.bucket == "" <==> m.key == "") && (m.version == "" || m.key != "")
    && (m.key == "" || (m.thingName != "" && m.otaUpdateId != "" && SourceKeyOk(m.thingName, m.otaUpdateId, m.key)))
    && (|| (m.mode == CUSTOM && m.signedPrefix == "")
        || (&& m.mode == AWS_SIGNER && m.signedPrefix != "" && m.bucket != "" && m.thingName != ""
            && m.otaUpdateId != "" && SignedPrefixOk(m.thingName, m.otaUpdateId, m.signedPrefix)))
  }

  /** What both validators come to: a journal is loaded for cleanup exactly if its
      identity is sound and it names a region and an update or a job. */
  lemma JournalIsExact(m: Meta)
    ensures IdentityProblem(m).None? <==> SoundIdentity(m)
    ensures LoadMeta(m, false) == Ok(m) <==> m.region != "" && SoundIdentity(m) && (m.otaUpdateId != "" || m.jobId != "")
    ensures LoadMeta(m, true) == Ok(m) <==>
              m.region != "" && SoundIdentity(m) && m.thingName != "" && m.jobId != "" && m.bucket != ""
              && m.otaUpdateId != ""
  {
    hide SourceKeyOk, SignedPrefixOk;
  }

  /** ota_resource_may_exist. */
  predicate OtaMayExist(m: Meta) {
    m.otaUpdateId != "" && m.otaStatus !in PRECREATE
  }

  datatype Resource = OtaUpdate | IotJob | SourceObject | SignerPrefix | SignerJob

  predicate Checked(m: Meta, r: Resource) {
    match r
    case OtaUpdate => OtaMayExist(m)
    case IotJob => m.jobId != ""
    case SourceObject => m.bucket != "" && m.key != ""
    case SignerPrefix => m.bucket != "" && m.signedPrefix != ""
    case SignerJob => false
  }

  function Kept(m: Meta, rs: seq<Resource>): seq<Resource> {
    if rs == [] then [] else (if Checked(m, rs[0]) then [rs[0]] else []) + Kept(m, rs[1..])
  }

  /** cleanup_resources. */
  function CleanupResources(m: Meta): (rs: seq<Resource>)
    ensures forall r :: r in rs <==> Checked(m, r)
  {
    var all := [OtaUpdate, IotJob, SourceObject, SignerPrefix];
    KeptExactly(m, all);
    assert forall r :: Checked(m, r) ==> r in all;
    Kept(m, all)
  }

  lemma {:induction false} KeptExactly(m: Meta, rs: seq<Resource>)
    ensures forall r :: r in Kept(m, rs) <==> r in rs && Checked(m, r)
  {
    if rs != [] {
      KeptExactly(m, rs[1..]);
    }
  }
}
