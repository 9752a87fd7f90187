/** cleanup_alias, and the recovery of an alias from any stop of its creation. */
module AliasCleanup {
  import opened Wrappers
  import opened JournalFile
  import opened ThingAlias

  /** The journal is complete and its names belong together. */
  predicate JournalOk(m: Meta) {
    && m.region != "" && m.baseName != "" && m.name != "" && m.principal != "" && m.project != "" && m.pipeline != ""
    && m.job != "" && m.attributes != map[] && m.expectedArn != ""
    && OwnershipOk(m.baseName, m.name, m.project, m.pipeline, m.job) && Count(m.principal, CERT) == 1
  }

  /** What must hold of journal and service before cleanup changes anything. */
  predicate Verified(m: Meta, s: State) {
    && JournalOk(m) && HoldsCertificate(m, s) && m.attributes == OwnerAttributes(m.project, m.pipeline, m.job)
    && m.name in s.things && IsAlias(m, s.things[m.name])
  }

  /** How far a cleanup came: not at all, detached, or deleted. */
  predicate Progress(m: Meta, s: State, t: State) {
    || t.things == s.things
    || (Verified(m, s)
        && (t.things == s.things[m.name := Without(s.things[m.name], m.principal)] || t.things == s.things - {m.name}))
  }

  /** The mutations of one cleanup, in order. */
  predicate OwnMutations(m: Meta, mutations: seq<Mutation>) {
    mutations <= [Detach(m.name, m.principal), DeleteThing(m.name)] || mutations == [DeleteThing(m.name)]
  }

  /** The checks up to the first mutation.  None means an error; Some(false) an alias
      that is already gone; Some(true) a verified one, with the principals found. */
  method VerifyAlias(cloud: IotCloud, m: Meta) returns (r: Option<bool>, attached: bool)
    ensures r == Some(true) ==> Verified(m, cloud.s) && (attached <==> cloud.s.things[m.name].principals != {})
    ensures r == Some(false) ==> JournalOk(m) && HoldsCertificate(m, cloud.s) && m.name !in cloud.s.things
    ensures cloud.healthy ==>
              (r.Some? <==> && JournalOk(m) && HoldsCertificate(m, cloud.s)
                            && (m.name !in cloud.s.things || Verified(m, cloud.s)))
  {
    hide JournalOk;
    attached := false;
    r := None;
    if !JournalOk(m) {
      return;
    }
    var base := cloud.DescribeThing(m.baseName);
    if !base.Described? {
      return;
    }
    var expected := Attachment(m.principal, false);
    var basePrincipals := cloud.ListPrincipals(m.baseName);
    if basePrincipals.None? || expected !in basePrincipals.value {
      return;
    }
    var alias := cloud.DescribeThing(m.name);
    if alias.DescribeFailed? {
      return;
    }
    if alias.NoSuchThing? {
      return Some(false), false;
    }
    if m.attributes != OwnerAttributes(m.project, m.pipeline, m.job) {
      return;
    }
    if alias.arn != m.expectedArn || alias.attributes != m.attributes {
      return;
    }
    var principals := cloud.ListPrincipals(m.name);
    if principals.None? || exists item :: item in principals.value && item != expected {
      return;
    }
    attached := expected in principals.value;
    r := Some(true);
  }

  /** cleanup_alias: true if it ends with status "complete".
      Nothing is mutated unless the live ARN, attributes and principals are exactly the
      journaled ones; only the alias is ever touched; and where it is interrupted, what
      is left is still verified, so that it can be run again. */
  method CleanupAlias(cloud: IotCloud, m: Meta) returns (complete: bool)
    modifies cloud`s, cloud`failures
    ensures complete ==> cloud.failures == old(cloud.failures)
    ensures cloud.s.log != old(cloud.s).log ==> Verified(m, old(cloud.s))
    ensures |old(cloud.s).log| <= |cloud.s.log| && cloud.s.log[..|old(cloud.s).log|] == old(cloud.s).log
    ensures OwnMutations(m, cloud.s.log[|old(cloud.s).log|..])
    ensures Progress(m, old(cloud.s), cloud.s)
    ensures complete ==> JournalOk(m) && HoldsCertificate(m, cloud.s) && m.name !in cloud.s.things
    ensures cloud.healthy ==>
              (complete <==> && JournalOk(m) && HoldsCertificate(m, old(cloud.s))
                             && (m.name !in old(cloud.s).things || Verified(m, old(cloud.s))))
  {
    hide OwnershipOk, Count, OwnerAttributes;
    ghost var before := cloud.s;
    complete := false;
    var verified, attached := VerifyAlias(cloud, m);
    if verified.None? {
      return;
    }
    if !verified.value {
      return true;
    }
    assert verified == Some(true);
    NamesDiffer(m);
    if attached {
      var detached, _ := cloud.Detach(m.name, m.principal);
      if !detached {
        return;
      }
    }
    DetachedIsBare(m, before);
    var remaining := cloud.ListPrincipals(m.name);
    if remaining.None? || remaining.value != [] {
      return;
    }
    assert cloud.s.things[m.name].principals == {};
    var deleted, _ := cloud.DeleteThing(m.name);
    if !deleted {
      return;
    }
    var alias := cloud.DescribeThing(m.name);
    var base := cloud.DescribeThing(m.baseName);
    if alias.DescribeFailed? || !base.Described? {
      return;
    }
    var basePrincipals := cloud.ListPrincipals(m.baseName);
    complete := alias.NoSuchThing? && basePrincipals.Some? && Attachment(m.principal, false) in basePrincipals.value;
  }

  lemma NamesDiffer(m: Meta)
    requires JournalOk(m)
    ensures m.name != m.baseName
  {
  }

  lemma DetachedIsBare(m: Meta, s: State)
    requires Verified(m, s)
    ensures Without(s.things[m.name], m.principal).principals == {}
    ensures s.things[m.name].principals == {} || s.things[m.name].principals == {Attachment(m.principal, false)}
  {
  }

  /** An interrupted cleanup leaves a verified alias, or none. */
  lemma ProgressKeepsVerified(m: Meta, s: State, t: State)
    requires Progress(m, s, t) && HoldsCertificate(m, s) && JournalOk(m)
    ensures HoldsCertificate(m, t)
    ensures Verified(m, s) && m.name in t.things ==> Verified(m, t)
    ensures t.things - {m.name} == s.things - {m.name}
  {
    NamesDiffer(m);
    hide JournalOk;
    assert t.things == s.things || t.things - {m.name} == s.things - {m.name};
  }

  // ---------------------------------------------------------------- recovery

  /** Cleanup on a service that answers will complete. */
  predicate Cleanable(m: Meta, s: State) {
    JournalOk(m) && HoldsCertificate(m, s) && (m.name !in s.things || Verified(m, s))
  }

  /** The Thing is what the run would create, or would have created so far. */
  predicate Announced(args: Args, account: string, principal: string, t: Thing) {
    && t.arn == ArnOf(account, args.name) && t.attributes == OwnerAttributes(args.project, args.pipeline, args.job)
    && t.principals <= {Attachment(principal, false)}
  }

  /** A planned journal is one that cleanup accepts, exactly if the region is not empty
      and the certificate ARN says ":cert/" once; the plan itself asks for once or more,
      and for no region.  A Thing that has the name already passes for the alias exactly
      if it looks like it. */
  lemma PlanIsAccepted(args: Args, account: string, plan: Meta, m: Meta, before: State, s: State)
    requires Planned(args, plan, before) && SamePlan(plan, m) && Effects(m, before, s)
    requires before.things[args.baseName].arn == ArnOf(account, args.baseName)
    ensures m.name == args.name && before.things[args.baseName].principals == {Attachment(m.principal, false)}
    ensures JournalOk(m) <==> args.region != "" && Count(m.principal, CERT) == 1
    ensures Cleanable(m, before) <==>
              && JournalOk(m)
              && (args.name in before.things ==> Announced(args, account, m.principal, before.things[args.name]))
    ensures Resumable(m, before, s)
  {
    assert m.name != m.baseName;
    PlanPredictsArn(account, args, plan, before);
    assert m.principal != "" && m.expectedArn != "" && m.attributes != map[] by {
      hide Count;
      assert "safftiOwnerJobId" in m.attributes;
    }
    hide ArnOf, Count, ExpectedArn;
    assert s.things == before.things || s.things - {m.name} == before.things - {m.name};
  }

  /** Where a journal stands between runs of cleanup: cleanable it stays so, with
      nothing else changed; otherwise nothing changes at all. */
  predicate Resumable(m: Meta, before: State, s: State) {
    if Cleanable(m, before) then Cleanable(m, s) && s.things - {m.name} == before.things - {m.name}
    else JournalOk(m) || m.name in before.things ==> s.things == before.things
  }

  lemma CleanupKeepsResumable(m: Meta, before: State, s: State, t: State)
    requires Resumable(m, before, s) && Progress(m, s, t)
    ensures Resumable(m, before, t)
    ensures Cleanable(m, s) <==> Cleanable(m, before)
    ensures Cleanable(m, before) && m.name !in t.things ==> t.things == before.things - {m.name}
    ensures m.name !in before.things ==> before.things - {m.name} == before.things
  {
    hide HoldsCertificate, IsAlias, OwnershipOk, Count, OwnerAttributes;
    if Cleanable(m, before) {
      ProgressKeepsVerified(m, s, t);
      assert m.name !in t.things ==> t.things == t.things - {m.name};
    } else if m.name in before.things || JournalOk(m) {
      SameThings(m, before, s);
    }
  }

  lemma SameThings(m: Meta, s: State, t: State)
    requires s.things == t.things
    ensures Cleanable(m, s) <==> Cleanable(m, t)
  {
    hide JournalOk, OwnerAttributes, IsAlias;
  }

  /** Create, stop anywhere, clean up with interruptions as often as you like, then once
      on a service that answers.  Nothing survives of the run if cleanup completes; the
      service is back as it was exactly if the name was free, or the Thing that had it is
      not one that the surviving journal verifies.  After a first run under this name,
      completion is decided by region, certificate and that Thing alone. */
  method RecoverAlias(cloud: IotCloud, journal: Journal<Meta>, args: Args, planned: Option<Meta>, interrupted: nat)
    returns (complete: Option<bool>)
    requires args.baseName in cloud.s.things ==>
               cloud.s.things[args.baseName].arn == ArnOf(cloud.account, args.baseName)
    modifies cloud, journal
    ensures complete.None? <==> journal.disk.None? || journal.disk.value.name != args.name
    ensures complete.None? ==> cloud.s == old(cloud.s)
    ensures complete.Some? ==> (complete.value <==> Cleanable(journal.disk.value, old(cloud.s)))
    ensures complete == Some(true) ==> cloud.s.things == old(cloud.s).things - {args.name}
    ensures complete.Some? && (JournalOk(journal.disk.value) || args.name in old(cloud.s).things) ==>
              (cloud.s.things == old(cloud.s).things
               <==> args.name !in old(cloud.s).things || !Verified(journal.disk.value, old(cloud.s)))
    ensures complete.Some? && (old(journal.disk).None? || old(journal.disk).value.name != args.name) ==>
              && args.baseName in old(cloud.s).things
              && var principal := journal.disk.value.principal;
                 && old(cloud.s).things[args.baseName].principals == {Attachment(principal, false)}
                 && (complete.value <==>
                       && args.region != "" && Count(principal, CERT) == 1
                       && (args.name in old(cloud.s).things ==>
                             Announced(args, cloud.account, principal, old(cloud.s).things[args.name])))
  {
    hide Planned, Count, JournalOk, OwnMutations, Progress, HoldsCertificate, Effects, Resumable, IsAlias, Announced;
    hide ArnOf;
    ghost var before, stale := cloud.s, journal.disk;
    var _ := CreateAlias(cloud, journal, args, planned);
    JournalTellsRun(args, cloud.account, before, stale, journal.disk, cloud.s);
    if journal.disk.None? || journal.disk.value.name != args.name {
      return None;
    }
    var m := journal.disk.value;
    for i := 0 to interrupted
      invariant Resumable(m, before, cloud.s) && journal.disk == Some(m)
    {
      ghost var s := cloud.s;
      var _ := CleanupAlias(cloud, m);
      CleanupKeepsResumable(m, before, s, cloud.s);
    }
    cloud.StopFailing();
    ghost var s := cloud.s;
    var done := CleanupAlias(cloud, m);
    CleanupKeepsResumable(m, before, s, cloud.s);
    RestoredIfFree(m, before, cloud.s, done);
    return Some(done);
  }

  lemma RestoredIfFree(m: Meta, before: State, t: State, done: bool)
    requires Resumable(m, before, t) && (done <==> Cleanable(m, before))
    requires done ==> t.things == before.things - {m.name}
    ensures JournalOk(m) || m.name in before.things ==>
              (t.things == before.things <==> m.name !in before.things || !Verified(m, before))
  {
    hide JournalOk, HoldsCertificate, IsAlias, OwnerAttributes;
    assert m.name !in before.things ==> before.things - {m.name} == before.things;
    assert m.name !in before.things - {m.name};
  }

  lemma JournalTellsRun(
      args: Args, account: string, before: State, stale: Option<Meta>, disk: Option<Meta>, s: State)
    requires Sound(args, before, stale, disk, s)
    requires args.baseName in before.things ==> before.things[args.baseName].arn == ArnOf(account, args.baseName)
    ensures disk.None? || disk.value.name != args.name ==> s == before
    ensures disk.Some? && disk.value.name == args.name ==> Resumable(disk.value, before, s)
    ensures disk.Some? && disk.value.name == args.name && (stale.None? || stale.value.name != args.name) ==>
              && args.baseName in before.things
              && before.things[args.baseName].principals == {Attachment(disk.value.principal, false)}
              && (JournalOk(disk.value) <==> args.region != "" && Count(disk.value.principal, CERT) == 1)
              && (Cleanable(disk.value, before) <==>
                    && JournalOk(disk.value)
                    && (args.name in before.things ==>
                          Announced(args, account, disk.value.principal, before.things[args.name])))
  {
    hide JournalOk, Announced, ArnOf, Effects, HoldsCertificate, Verified, Count;
    if !(disk == stale && s == before) {
      var plan :| Planned(args, plan, before) && SamePlan(plan, disk.value);
      PlanIsAccepted(args, account, plan, disk.value, before, s);
    }
  }

  // ---------------------------------------------------------------- inputs

  const SAMPLE := Args("r", "b", "b-ota-1-2", "7", "1", "2")

  /** The alias as a successful run would have left it. */
  function SampleAlias(principal: string): Thing {
    Thing(ArnOf("a", "b-ota-1-2"), OwnerAttributes("7", "1", "2"), {Attachment(principal, false)})
  }

  /** The base Thing with its certificate, and other Things. */
  function SampleState(principal: string, others: map<string, Thing>): State {
    State(others["b" := Thing(ArnOf("a", "b"), map[], {Attachment(principal, false)})], [])
  }

  function SampleJournal(principal: string, status: string): Meta {
    Meta("r", "b", ArnOf("a", "b"), "b-ota-1-2", ArnOf("a", "b-ota-1-2"), principal, "7", "1", "2",
         OwnerAttributes("7", "1", "2"), status, [])
  }

  lemma SampleIsPlanned(principal: string, others: map<string, Thing>)
    requires Contains(principal, CERT)
    ensures Planned(SAMPLE, SampleJournal(principal, "planned"), SampleState(principal, others))
  {
    hide Contains, ArnOf, ExpectedArn;
    ExpectedArnIsTheAliasArn("a", "b", "b-ota-1-2");
    assert AliasName("b", "1", "2") == "b-ota-1-2";
  }

  /** Twice is too much for cleanup, though not for the plan. */
  lemma TwoCertificatesInOneArn()
    ensures var principal := ":cert/:cert/";
            && Planned(SAMPLE, SampleJournal(principal, "planned"), SampleState(principal, map[]))
            && forall status :: !JournalOk(SampleJournal(principal, status))
  {
    var principal := CERT + CERT;
    assert principal == ":cert/:cert/" && principal[..|CERT|] == CERT && principal[|CERT|..] == CERT;
    assert StandsAt(principal, CERT, 0);
    assert CERT[..|CERT|] == CERT && CERT[|CERT|..] == "";
    assert Count(CERT, CERT) == 1 + Count("", CERT);
    SampleIsPlanned(principal, map[]);
  }

  /** A collision with the alias of an earlier attempt of the same job: creation refuses
      to adopt it, but the journal it leaves is one with which cleanup deletes it. */
  lemma CollisionIsCleanable(status: string)
    ensures var principal := "a:cert/c";
            var before := SampleState(principal, map["b-ota-1-2" := SampleAlias(principal)]);
            && Planned(SAMPLE, SampleJournal(principal, "planned"), before)
            && IsReady(SampleJournal(principal, status), SampleAlias(principal))
            && Cleanable(SampleJournal(principal, status), before)
  {
    var principal := "a:cert/c";
    var others := map["b-ota-1-2" := SampleAlias(principal)];
    var before := SampleState(principal, others);
    var m := SampleJournal(principal, "planned");
    assert StandsAt(principal, CERT, 1);
    assert principal[1..] == ":cert/c" && principal[1..][..|CERT|] == CERT && principal[1..][|CERT|..] == "c";
    assert principal[..|CERT|][0] != CERT[0];
    assert Count(principal, CERT) == Count(principal[1..], CERT) == 1 + Count("c", CERT);
    SampleIsPlanned(principal, others);
    hide ArnOf, Count, ExpectedArn, OwnershipOk;
    PlanIsAccepted(SAMPLE, "a", m, SampleJournal(principal, status), before, before);
  }
}
