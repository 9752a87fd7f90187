/** build_context: which policy, and with which document, an OTA plan and a Thing journal
stand for. */
module PolicyContext {
  import opened Wrappers
  import opened ThingAlias
  import opened EventPolicy
  import opened PolicyLifecycle

  datatype OtaPlan = OtaPlan(
    projectId: string,
    pipelineId: string,
    planJobId: string,
    otaUpdateId: string,
    jobId: string,
    policyName: string,
    region: string,
    thingName: string)

  datatype AliasJournal = AliasJournal(
    region: string,
    project: string,
    pipeline: string,
    job: string,
    thingName: string,
    status: string,
    verified: bool,
    principal: string)

  // ---------------------------------------------------------------- the certificate ARN

  /** The groups of the certificate pattern. */
  datatype Certificate = Certificate(partition: string, region: string, account: string)

  const PARTITIONS: seq<string> := ["aws", "aws-us-gov", "aws-cn"]

  function ArnStart(partition: string): string {
    "arn:" + partition + ":iot:"
  }

  /** What stands before the kind of resource in every ARN of one account and region. */
  function Account(c: Certificate): string {
    ArnStart(c.partition) + (c.region + (":" + c.account))
  }

  predicate TwelveDigits(s: string) {
    |s| == 12 && Decimal(s)
  }

  /** The principal is this certificate, with this id. */
  predicate IsCertificate(principal: string, c: Certificate, id: string) {
    && c.partition in PARTITIONS && c.region != "" && ':' !in c.region && TwelveDigits(c.account)
    && id != "" && '/' !in id
    && principal == ArnStart(c.partition) + (c.region + (":" + (c.account + (CERT + id))))
  }

  function FirstColon(s: string): nat
    ensures FirstColon(s) <= |s| && ':' !in s[..FirstColon(s)]
    ensures FirstColon(s) < |s| ==> s[FirstColon(s)] == ':'
  {
    if s == "" || s[0] == ':' then 0
    else
      assert s[..1 + FirstColon(s[1..])] == [s[0]] + s[1..][..FirstColon(s[1..])];
      1 + FirstColon(s[1..])
  }

  /** The region, the account and the certificate id after the start of the ARN. */
  function MatchRest(partition: string, rest: string): Option<Certificate> {
    var n := FirstColon(rest);
    if n == 0 || |rest| < n + 1 + 12 + |CERT| + 1 then None
    else
      var account, tail := rest[n + 1..n + 13], rest[n + 13..];
      if TwelveDigits(account) && tail[..|CERT|] == CERT && '/' !in tail[|CERT|..]
      then Some(Certificate(partition, rest[..n], account)) else None
  }

  function MatchWith(principal: string, partition: string): Option<Certificate> {
    if ArnStart(partition) <= principal then MatchRest(partition, principal[|ArnStart(partition)|..]) else None
  }

  /** CERTIFICATE_ARN_PATTERN.fullmatch */
  function MatchCertificate(principal: string): Option<Certificate> {
    if MatchWith(principal, "aws").Some? then MatchWith(principal, "aws")
    else if MatchWith(principal, "aws-us-gov").Some? then MatchWith(principal, "aws-us-gov")
    else MatchWith(principal, "aws-cn")
  }

  lemma {:induction false} ColonComesFirst(s: string, region: string, tail: string)
    requires ':' !in region && s == region + (":" + tail)
    ensures FirstColon(s) == |region|
    decreases |region|
  {
    if region != "" {
      assert s[0] == region[0] && region[0] in region;
      assert s[1..] == region[1..] + (":" + tail);
      ColonComesFirst(s[1..], region[1..], tail);
    }
  }

  lemma RestIsMatched(partition: string, rest: string, c: Certificate, id: string)
    requires c.partition == partition && c.region != "" && ':' !in c.region && TwelveDigits(c.account)
    requires id != "" && '/' !in id && rest == c.region + (":" + (c.account + (CERT + id)))
    ensures MatchRest(partition, rest) == Some(c)
  {
    ColonComesFirst(rest, c.region, c.account + (CERT + id));
    var n := |c.region|;
    assert rest[..n] == c.region && rest[n + 1..] == c.account + (CERT + id);
    assert rest[n + 1..n + 13] == c.account && rest[n + 13..] == CERT + id;
    assert (CERT + id)[..|CERT|] == CERT && (CERT + id)[|CERT|..] == id;
  }

  lemma MatchedIsRest(partition: string, rest: string) returns (id: string)
    requires MatchRest(partition, rest).Some?
    ensures var c := MatchRest(partition, rest).value;
            && c.partition == partition && c.region != "" && ':' !in c.region && TwelveDigits(c.account)
            && id != "" && '/' !in id && rest == c.region + (":" + (c.account + (CERT + id)))
  {
    var n := FirstColon(rest);
    var tail := rest[n + 13..];
    id := tail[|CERT|..];
    assert tail == CERT + id;
    assert rest == rest[..n] + ([rest[n]] + (rest[n + 1..n + 13] + tail));
  }

  /** The three partitions start differently. */
  lemma StartsDiffer(principal: string, a: string, b: string)
    requires a in PARTITIONS && b in PARTITIONS && ArnStart(a) <= principal && ArnStart(b) <= principal
    ensures a == b
  {
    assert principal[7] == ArnStart(a)[7] == ArnStart(b)[7];
    assert principal[8] == ArnStart(a)[8] == ArnStart(b)[8];
  }

  lemma MatchIsSound(principal: string) returns (id: string)
    requires MatchCertificate(principal).Some?
    ensures IsCertificate(principal, MatchCertificate(principal).value, id)
  {
    var c := MatchCertificate(principal).value;
    MatchKeepsPartition(principal);
    hide MatchCertificate, MatchRest, TwelveDigits, ArnStart;
    var start := ArnStart(c.partition);
    id := MatchedIsRest(c.partition, principal[|start|..]);
    assert principal == start + principal[|start|..];
  }

  lemma MatchIsComplete(principal: string, c: Certificate, id: string)
    requires IsCertificate(principal, c, id)
    ensures MatchCertificate(principal) == Some(c)
  {
    hide TwelveDigits, MatchRest, ArnStart;
    var start := ArnStart(c.partition);
    assert start <= principal;
    var rest := principal[|start|..];
    assert rest == c.region + (":" + (c.account + (CERT + id)));
    RestIsMatched(c.partition, rest, c, id);
    assert MatchWith(principal, c.partition) == Some(c);
    forall p | p in PARTITIONS && ArnStart(p) <= principal
      ensures p == c.partition
    {
      StartsDiffer(principal, p, c.partition);
    }
    assert "aws" in PARTITIONS && "aws-us-gov" in PARTITIONS && "aws-cn" in PARTITIONS;
  }

  /** The pattern matches exactly the certificate ARNs, and its groups are unique. */
  lemma MatchIsExact(principal: string, c: Certificate)
    ensures MatchCertificate(principal) == Some(c) <==> exists id :: IsCertificate(principal, c, id)
  {
    hide *;
    if MatchCertificate(principal) == Some(c) {
      var id := MatchIsSound(principal);
    }
    if id :| IsCertificate(principal, c, id) {
      MatchIsComplete(principal, c, id);
    }
  }

  lemma MatchKeepsPartition(principal: string)
    ensures MatchCertificate(principal).Some? ==>
              var c := MatchCertificate(principal).value;
              c.partition in PARTITIONS && MatchWith(principal, c.partition) == Some(c)
  {
  }

  // ---------------------------------------------------------------- the context

  predicate JobIdOk(s: string) {
    1 <= |s| <= 64 && forall i :: 0 <= i < |s| ==> NameChar(s[i]) && s[i] != ':'
  }

  predicate PolicyNameOk(s: string) {
    1 <= |s| <= 128
    && forall i :: 0 <= i < |s| ==> (NameChar(s[i]) && s[i] != ':') || s[i] in "+=,.@"
  }

  function OtaId(pipeline: string, job: string): string {
    "rx671-software-ota-" + (pipeline + ("-" + job))
  }

  function PolicyName(pipeline: string, job: string): string {
    "rx671-ota-event-" + (pipeline + ("-" + job))
  }

  function JobEventsOf(account: string, jobId: string): Document {
    var topic := "$aws/events/job/" + jobId + "/cancellation_in_progress";
    JobEvents(account + ":topicfilter/" + topic, account + ":topic/" + topic)
  }

  /** build_context */
  function BuildContext(plan: OtaPlan, alias: AliasJournal, requireAliasReady: bool): Option<Context> {
    if !Decimal(plan.projectId) || !Decimal(plan.pipelineId) || !Decimal(plan.planJobId) then None
    else if plan.otaUpdateId != OtaId(plan.pipelineId, plan.planJobId) then None
    else if plan.jobId != "AFR_OTA-" + plan.otaUpdateId || !JobIdOk(plan.jobId) then None
    else if plan.policyName != PolicyName(plan.pipelineId, plan.planJobId) || !PolicyNameOk(plan.policyName) then None
    else if plan.region == "" || alias.region != plan.region then None
    else if alias.project != plan.projectId || alias.pipeline != plan.pipelineId || alias.job != plan.planJobId
            || alias.thingName != plan.thingName then None
    else if requireAliasReady && (alias.status != "ready" || !alias.verified) then None
    else
      match MatchCertificate(alias.principal)
      case None => None
      case Some(certificate) =>
        if certificate.region != plan.region then None
        else
          Some(Context(alias.principal, plan.policyName, PolicyArn(Account(certificate), plan.policyName),
                       OwnerAttributes(plan.projectId, plan.pipelineId, plan.planJobId),
                       JobEventsOf(Account(certificate), plan.jobId)))
  }

  /** The plan is that of its own pipeline job: three numbers, and the ids and names that
      follow from them. */
  predicate OwnNames(plan: OtaPlan) {
    && Decimal(plan.projectId) && Decimal(plan.pipelineId) && Decimal(plan.planJobId)
    && plan.otaUpdateId == "rx671-software-ota-" + plan.pipelineId + "-" + plan.planJobId
    && plan.jobId == "AFR_OTA-rx671-software-ota-" + plan.pipelineId + "-" + plan.planJobId
    && plan.policyName == "rx671-ota-event-" + plan.pipelineId + "-" + plan.planJobId
    && |plan.pipelineId| + |plan.planJobId| <= 36
  }

  /** The Thing journal is that of the same job, region and Thing. */
  predicate SameJob(plan: OtaPlan, alias: AliasJournal) {
    && plan.region != "" && alias.region == plan.region && alias.project == plan.projectId
    && alias.pipeline == plan.pipelineId && alias.job == plan.planJobId && alias.thingName == plan.thingName
  }

  /** The context of such a pair, in the account of the certificate. */
  function ContextOf(plan: OtaPlan, alias: AliasJournal, account: string): Context {
    var topic := "$aws/events/job/" + plan.jobId + "/cancellation_in_progress";
    Context(alias.principal, plan.policyName, account + ":policy/" + plan.policyName,
            map["safftiOwnerProjectId" := plan.projectId, "safftiOwnerPipelineId" := plan.pipelineId,
                "safftiOwnerJobId" := plan.planJobId],
            JobEvents(account + ":topicfilter/" + topic, account + ":topic/" + topic))
  }

  /** The principal is a certificate of this region; `account` is its ARN up to the kind
      of resource. */
  ghost predicate CertificateOf(principal: string, region: string, account: string) {
    exists partition: string, number: string, id: string ::
      && partition in {"aws", "aws-us-gov", "aws-cn"} && region != "" && ':' !in region && TwelveDigits(number)
      && id != "" && '/' !in id
      && account == "arn:" + partition + ":iot:" + region + ":" + number && principal == account + ":cert/" + id
  }

  /** A context is built exactly for a plan with its own names, a Thing journal of the
      same job that is ready where that is asked for, and a certificate of its region; and
      it is the one of that certificate's account. */
  lemma ContextIsExact(plan: OtaPlan, alias: AliasJournal, ready: bool, c: Context)
    ensures BuildContext(plan, alias, ready) == Some(c) <==>
              && OwnNames(plan) && SameJob(plan, alias) && (ready ==> alias.status == "ready" && alias.verified)
              && exists account: string ::
                   CertificateOf(alias.principal, plan.region, account) && c == ContextOf(plan, alias, account)
  {
    NamesAreOwn(plan);
    if BuildContext(plan, alias, ready) == Some(c) {
      var certificate := MatchCertificate(alias.principal).value;
      MatchIsCertificate(alias.principal, certificate);
      hide MatchCertificate, CertificateOf, JobIdOk, PolicyNameOk, OwnNames, OtaId, PolicyName;
      assert c == ContextOf(plan, alias, Account(certificate));
    }
    if account: string :|
        CertificateOf(alias.principal, plan.region, account) && c == ContextOf(plan, alias, account)
        && OwnNames(plan) && SameJob(plan, alias) && (ready ==> alias.status == "ready" && alias.verified) {
      var certificate := CertificateIsMatched(alias.principal, plan.region, account);
      hide MatchCertificate, CertificateOf, JobIdOk, PolicyNameOk, OwnNames, OtaId, PolicyName;
      assert c == ContextOf(plan, alias, Account(certificate));
    }
  }

  lemma MatchIsCertificate(principal: string, c: Certificate)
    requires MatchCertificate(principal) == Some(c)
    ensures CertificateOf(principal, c.region, Account(c))
  {
    hide MatchCertificate;
    var id := MatchIsSound(principal);
    CertificateInAccount(principal, c, id);
    assert Account(c) == "arn:" + c.partition + ":iot:" + c.region + ":" + c.account;
    assert principal == Account(c) + ":cert/" + id;
  }

  lemma CertificateIsMatched(principal: string, region: string, account: string) returns (c: Certificate)
    requires CertificateOf(principal, region, account)
    ensures MatchCertificate(principal) == Some(c) && c.region == region && Account(c) == account
  {
    hide MatchCertificate, TwelveDigits;
    var partition: string, number: string, id: string :|
      && partition in {"aws", "aws-us-gov", "aws-cn"} && region != "" && ':' !in region && TwelveDigits(number)
      && id != "" && '/' !in id
      && account == "arn:" + partition + ":iot:" + region + ":" + number && principal == account + ":cert/" + id;
    c := Certificate(partition, region, number);
    assert Account(c) == account;
    assert principal == ArnStart(partition) + (region + (":" + (number + (CERT + id))));
    MatchIsComplete(principal, c, id);
  }

  /** The checks on ids and names reduce to this one on their length. */
  lemma NamesAreOwn(plan: OtaPlan)
    ensures OwnNames(plan) <==>
              && Decimal(plan.projectId) && Decimal(plan.pipelineId) && Decimal(plan.planJobId)
              && plan.otaUpdateId == OtaId(plan.pipelineId, plan.planJobId)
              && plan.jobId == "AFR_OTA-" + plan.otaUpdateId && JobIdOk(plan.jobId)
              && plan.policyName == PolicyName(plan.pipelineId, plan.planJobId) && PolicyNameOk(plan.policyName)
  {
    hide JobIdOk, PolicyNameOk, Decimal, OtaId, PolicyName;
    NamesAsText(plan.pipelineId, plan.planJobId);
    if Decimal(plan.pipelineId) && Decimal(plan.planJobId) {
      NamesOk(plan.pipelineId, plan.planJobId);
    }
  }

  lemma NamesAsText(pipeline: string, job: string)
    ensures OtaId(pipeline, job) == "rx671-software-ota-" + pipeline + "-" + job
    ensures "AFR_OTA-" + OtaId(pipeline, job) == "AFR_OTA-rx671-software-ota-" + pipeline + "-" + job
    ensures PolicyName(pipeline, job) == "rx671-ota-event-" + pipeline + "-" + job
  {
  }

  lemma NamesOk(pipeline: string, job: string)
    requires Decimal(pipeline) && Decimal(job)
    ensures JobIdOk("AFR_OTA-rx671-software-ota-" + pipeline + "-" + job) <==> |pipeline| + |job| <= 36
    ensures |pipeline| + |job| <= 36 ==> PolicyNameOk("rx671-ota-event-" + pipeline + "-" + job)
  {
    hide JobIdOk, PolicyNameOk, Decimal, NameChar;
    var tail := pipeline + ("-" + job);
    TailChars(pipeline, job);
    FrontChars();
    Joined("AFR_OTA-rx671-software-ota-", tail);
    Joined("rx671-ota-event-", tail);
    assert "AFR_OTA-rx671-software-ota-" + pipeline + "-" + job == "AFR_OTA-rx671-software-ota-" + tail;
    assert "rx671-ota-event-" + pipeline + "-" + job == "rx671-ota-event-" + tail;
  }

  lemma FrontChars()
    ensures var a, b := "AFR_OTA-rx671-software-ota-", "rx671-ota-event-";
            && (forall i :: 0 <= i < |a| ==> NameChar(a[i]) && a[i] != ':')
            && (forall i :: 0 <= i < |b| ==> NameChar(b[i]) && b[i] != ':')
  {
  }

  lemma TailChars(pipeline: string, job: string)
    requires Decimal(pipeline) && Decimal(job)
    ensures var tail := pipeline + ("-" + job);
            |tail| == |pipeline| + 1 + |job| && forall i :: 0 <= i < |tail| ==> NameChar(tail[i]) && tail[i] != ':'
  {
  }

  lemma Joined(front: string, tail: string)
    requires forall i :: 0 <= i < |tail| ==> NameChar(tail[i]) && tail[i] != ':'
    requires front != "" && forall i :: 0 <= i < |front| ==> NameChar(front[i]) && front[i] != ':'
    ensures JobIdOk(front + tail) <==> |front| + |tail| <= 64
    ensures PolicyNameOk(front + tail) <==> |front| + |tail| <= 128
  {
  }

  /** Cleanup, which does not ask for a ready alias, works on the very policy that
      creation made. */
  lemma CleanupSeesTheSamePolicy(plan: OtaPlan, alias: AliasJournal, later: AliasJournal)
    requires BuildContext(plan, alias, true).Some?
    requires later == alias.(status := later.status, verified := later.verified)
    ensures BuildContext(plan, later, false) == BuildContext(plan, alias, true)
  {
    hide MatchCertificate, JobIdOk, PolicyNameOk;
  }

  /** The policy lives in the account and region of the certificate it is meant for. */
  lemma PolicyIsInTheCertificateAccount(plan: OtaPlan, alias: AliasJournal, ready: bool)
    requires BuildContext(plan, alias, ready).Some?
    ensures var c := BuildContext(plan, alias, ready).value;
            exists account: string, id: string ::
              id != "" && c.principal == account + (CERT + id) && c.arn == PolicyArn(account, c.name)
  {
    hide BuildContext, MatchCertificate, IsCertificate, Account, PolicyArn;
    var c, certificate := ContextFields(plan, alias, ready);
    var id := MatchIsSound(alias.principal);
    var account := Account(certificate);
    CertificateInAccount(alias.principal, certificate, id);
    hide *;
    assert c.principal == account + (CERT + id) && c.arn == PolicyArn(account, c.name);
  }

  lemma ContextFields(plan: OtaPlan, alias: AliasJournal, ready: bool) returns (c: Context, certificate: Certificate)
    requires BuildContext(plan, alias, ready).Some?
    ensures c == BuildContext(plan, alias, ready).value && MatchCertificate(alias.principal) == Some(certificate)
    ensures c.principal == alias.principal && c.arn == PolicyArn(Account(certificate), c.name)
  {
    hide MatchCertificate, JobIdOk, PolicyNameOk, Account;
    c := BuildContext(plan, alias, ready).value;
    certificate := MatchCertificate(alias.principal).value;
  }

  lemma CertificateInAccount(principal: string, c: Certificate, id: string)
    requires IsCertificate(principal, c, id)
    ensures principal == Account(c) + (CERT + id) && id != ""
  {
    hide ArnStart;
  }

  /** Two runs never share a policy: the name alone tells pipeline and job. */
  lemma PolicyNamesAreDistinct(
      plan: OtaPlan, alias: AliasJournal, ready: bool, plan2: OtaPlan, alias2: AliasJournal, ready2: bool)
    requires BuildContext(plan, alias, ready).Some? && BuildContext(plan2, alias2, ready2).Some?
    requires BuildContext(plan, alias, ready).value.name == BuildContext(plan2, alias2, ready2).value.name
    ensures plan.pipelineId == plan2.pipelineId && plan.planJobId == plan2.planJobId && plan.jobId == plan2.jobId
  {
    hide MatchCertificate, JobIdOk, PolicyNameOk;
    var name := plan.policyName;
    var tail := name[|"rx671-ota-event-"|..];
    assert tail == plan.pipelineId + ("-" + plan.planJobId) && tail == plan2.pipelineId + ("-" + plan2.planJobId);
    DashComesFirst(tail, plan.pipelineId, plan.planJobId);
    DashComesFirst(tail, plan2.pipelineId, plan2.planJobId);
  }

  /** The document pins down the job: no document is right for two of them. */
  lemma DocumentPinsJob(account: string, job1: string, job2: string)
    requires JobEventsOf(account, job1) == JobEventsOf(account, job2)
    ensures job1 == job2
  {
    var front, back := account + ":topic/" + "$aws/events/job/", "/cancellation_in_progress";
    var receive := JobEventsOf(account, job1).receive;
    assert receive == front + (job1 + back) && receive == front + (job2 + back);
    assert receive[|front|..] == job1 + back && receive[|front|..] == job2 + back;
    assert job1 == receive[|front|..|receive| - |back|] && job2 == receive[|front|..|receive| - |back|];
  }
}
