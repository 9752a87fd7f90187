/** manage_ephemeral_iot_thing: a journaled Thing alias, created and cleaned up.

A call may fail without effect, take effect and lose its response, or succeed.  A
failed call raises an exception, and a crash just stops; neither issues anything more,
so both are a return from the method. */
module ThingAlias {
  import opened Wrappers
  import opened JournalFile

  // ---------------------------------------------------------------- the service

  datatype Attachment = Attachment(principal: string, exclusive: bool)

  datatype Thing = Thing(arn: string, attributes: map<string, string>, principals: set<Attachment>)

  datatype Mutation =
    | CreateThing(name: string)
    | Attach(name: string, principal: string)
    | Detach(name: string, principal: string)
    | DeleteThing(name: string)

  datatype State = State(things: map<string, Thing>, log: seq<Mutation>)

  datatype Description = DescribeFailed | NoSuchThing | Described(arn: string, attributes: map<string, string>)

  function ArnOf(account: string, name: string): string {
    account + ":thing/" + name
  }

  /** The list of a set, in the service's order. */
  ghost predicate Lists<T(!new)>(list: seq<T>, elements: set<T>) {
    && |list| == |elements| && forall x :: x in list <==> x in elements
  }

  class IotCloud {
    var s: State
    const account: string
    /** Every call is answered. */
    var healthy: bool
    /** How many mutations were not answered with success. */
    ghost var failures: nat

    constructor (initial: State, account: string, healthy: bool)
      ensures s == initial && this.account == account && this.healthy == healthy && failures == 0
    {
      failures := 0;
      s := initial;
      this.account := account;
      this.healthy := healthy;
    }

    method StopFailing()
      modifies this`healthy
      ensures healthy
    {
      healthy := true;
    }

    method CallFails() returns (fails: bool)
      ensures healthy ==> !fails
    {
      var f: bool := *;
      fails := f && !healthy;
    }

    method DescribeThing(name: string) returns (r: Description)
      ensures r.NoSuchThing? ==> name !in s.things
      ensures r.Described? ==> name in s.things && s.things[name].arn == r.arn && s.things[name].attributes == r.attributes
      ensures healthy ==> !r.DescribeFailed?
    {
      var fails := CallFails();
      if fails {
        return DescribeFailed;
      }
      return if name in s.things then Described(s.things[name].arn, s.things[name].attributes) else NoSuchThing;
    }

    /** Fails for a Thing that does not exist. */
    method ListPrincipals(name: string) returns (r: Option<seq<Attachment>>)
      ensures r.Some? ==> name in s.things && Lists(r.value, s.things[name].principals)
      ensures healthy && name in s.things ==> r.Some?
    {
      var fails := CallFails();
      if fails || name !in s.things {
        return None;
      }
      var left := s.things[name].principals;
      var list: seq<Attachment> := [];
      while left != {}
        invariant left <= s.things[name].principals && |list| + |left| == |s.things[name].principals|
        invariant forall x :: x in s.things[name].principals <==> x in list || x in left
        decreases left
      {
        var x :| x in left;
        left := left - {x};
        list := list + [x];
      }
      return Some(list);
    }

    method CreateThing(name: string, attributes: map<string, string>) returns (r: Option<string>, ghost reached: bool)
      modifies this`s, this`failures
      ensures s.log == old(s).log + [Mutation.CreateThing(name)]
      ensures s.things == if reached then old(s).things[name := Thing(ArnOf(account, name), attributes, {})]
                          else old(s).things
      ensures reached ==> name !in old(s).things
      ensures r.Some? ==> reached && r.value == ArnOf(account, name)
      ensures healthy && name !in old(s).things ==> r.Some?
      ensures failures == old(failures) + if r.Some? then 0 else 1
    {
      s := s.(log := s.log + [Mutation.CreateThing(name)]);
      reached := false;
      var takes: bool := *;
      if name in s.things || (!takes && !healthy) {
        failures := failures + 1;
        return None, reached;
      }
      s := s.(things := s.things[name := Thing(ArnOf(account, name), attributes, {})]);
      reached := true;
      var lost := CallFails();
      failures := failures + if lost then 1 else 0;
      return if lost then None else Some(ArnOf(account, name)), reached;
    }

    method Attach(name: string, principal: string) returns (ok: bool, ghost reached: bool)
      modifies this`s, this`failures
      ensures s.log == old(s).log + [Mutation.Attach(name, principal)]
      ensures !reached ==> s.things == old(s).things && !ok
      ensures reached ==>
                name in old(s).things
                && s.things == old(s).things[name := old(s).things[name].(
                     principals := old(s).things[name].principals + {Attachment(principal, false)})]
      ensures ok ==> reached
      ensures healthy && name in old(s).things ==> ok
      ensures failures == old(failures) + if ok then 0 else 1
    {
      s := s.(log := s.log + [Mutation.Attach(name, principal)]);
      reached := false;
      var takes: bool := *;
      if name !in s.things || (!takes && !healthy) {
        failures := failures + 1;
        return false, reached;
      }
      s := s.(things := s.things[name := s.things[name].(
                principals := s.things[name].principals + {Attachment(principal, false)})]);
      reached := true;
      var lost := CallFails();
      failures := failures + if lost then 1 else 0;
      return !lost, reached;
    }

    method Detach(name: string, principal: string) returns (ok: bool, ghost reached: bool)
      modifies this`s, this`failures
      ensures s.log == old(s).log + [Mutation.Detach(name, principal)]
      ensures !reached ==> s.things == old(s).things && !ok
      ensures reached ==>
                name in old(s).things
                && s.things == old(s).things[name := Without(old(s).things[name], principal)]
      ensures ok ==> reached
      ensures healthy && name in old(s).things ==> ok
      ensures failures == old(failures) + if ok then 0 else 1
    {
      s := s.(log := s.log + [Mutation.Detach(name, principal)]);
      reached := false;
      var takes: bool := *;
      if name !in s.things || (!takes && !healthy) {
        failures := failures + 1;
        return false, reached;
      }
      s := s.(things := s.things[name := Without(s.things[name], principal)]);
      reached := true;
      var lost := CallFails();
      failures := failures + if lost then 1 else 0;
      return !lost, reached;
    }

    /** A Thing with principals is not deleted. */
    method DeleteThing(name: string) returns (ok: bool, ghost reached: bool)
      modifies this`s, this`failures
      ensures s.log == old(s).log + [Mutation.DeleteThing(name)]
      ensures s.things == if reached then old(s).things - {name} else old(s).things
      ensures reached ==> name in old(s).things && old(s).things[name].principals == {}
      ensures ok ==> reached
      ensures healthy && name in old(s).things && old(s).things[name].principals == {} ==> ok
      ensures failures == old(failures) + if ok then 0 else 1
    {
      s := s.(log := s.log + [Mutation.DeleteThing(name)]);
      reached := false;
      var takes: bool := *;
      if name !in s.things || s.things[name].principals != {} || (!takes && !healthy) {
        failures := failures + 1;
        return false, reached;
      }
      s := s.(things := s.things - {name});
      reached := true;
      var lost := CallFails();
      failures := failures + if lost then 1 else 0;
      return !lost, reached;
    }
  }

  function Without(t: Thing, principal: string): Thing {
    t.(principals := set a | a in t.principals && a.principal != principal)
  }

  // ---------------------------------------------------------------- names and ownership

  predicate NameChar(c: char) {
    'A' <= c <= 'Z' || 'a' <= c <= 'z' || '0' <= c <= '9' || c == ':' || c == '_' || c == '-'
  }

  predicate ValidName(s: string) {
    1 <= |s| <= 128 && forall i :: 0 <= i < |s| ==> NameChar(s[i])
  }

  predicate Decimal(s: string) {
    s != "" && forall i :: 0 <= i < |s| ==> '0' <= s[i] <= '9'
  }

  predicate StandsAt(s: string, part: string, i: int) {
    0 <= i <= |s| - |part| && s[i..i + |part|] == part
  }

  predicate Contains(s: string, part: string) {
    exists i :: 0 <= i <= |s| - |part| && StandsAt(s, part, i)
  }

  /** str.count: occurrences that do not overlap, from the left. */
  function Count(s: string, part: string): nat
    requires part != ""
    decreases |s|
  {
    if |s| < |part| then 0
    else if s[..|part|] == part then 1 + Count(s[|part|..], part)
    else Count(s[1..], part)
  }

  const THING := ":thing/"
  const CERT := ":cert/"

  datatype Meta = Meta(
    region: string,
    baseName: string,
    baseArn: string,
    name: string,
    expectedArn: string,
    principal: string,
    project: string,
    pipeline: string,
    job: string,
    attributes: map<string, string>,
    status: string,
    operations: seq<string>)

  function AliasName(baseName: string, pipeline: string, job: string): string {
    baseName + ("-ota-" + (pipeline + ("-" + job)))
  }

  /** validate_ownership, names included. */
  predicate OwnershipOk(baseName: string, name: string, project: string, pipeline: string, job: string) {
    && ValidName(baseName) && ValidName(name) && name != baseName && baseName + "-ota-" <= name
    && Decimal(project) && Decimal(pipeline) && Decimal(job) && name == AliasName(baseName, pipeline, job)
  }

  function OwnerAttributes(project: string, pipeline: string, job: string): map<string, string> {
    map["safftiOwnerProjectId" := project, "safftiOwnerPipelineId" := pipeline, "safftiOwnerJobId" := job]
  }

  const UPPER := "ABCDEFGHIJKLMNOPQRSTUVWXYZ"
  const LOWER := "abcdefghijklmnopqrstuvwxyz"
  const DIGITS := "0123456789"

  lemma UpperIsListed(c: char)
    ensures 'A' <= c <= 'Z' <==> c in UPPER
  {
    assert forall i :: 0 <= i < 26 ==> UPPER[i] == ('A' as int + i) as char;
    if 'A' <= c <= 'Z' {
      assert UPPER[c as int - 'A' as int] == c;
    }
  }

  lemma LowerIsListed(c: char)
    ensures 'a' <= c <= 'z' <==> c in LOWER
  {
    assert forall i :: 0 <= i < 26 ==> LOWER[i] == ('a' as int + i) as char;
    if 'a' <= c <= 'z' {
      assert LOWER[c as int - 'a' as int] == c;
    }
  }

  lemma DigitIsListed(c: char)
    ensures '0' <= c <= '9' <==> c in DIGITS
  {
    assert forall i :: 0 <= i < 10 ==> DIGITS[i] == ('0' as int + i) as char;
    if '0' <= c <= '9' {
      assert DIGITS[c as int - '0' as int] == c;
    }
  }

  lemma CharsAreListed(c: char)
    ensures NameChar(c) <==> c in UPPER + LOWER + DIGITS + ":_-"
    ensures '0' <= c <= '9' <==> c in DIGITS
  {
    hide *;
    UpperIsListed(c);
    LowerIsListed(c);
    DigitIsListed(c);
    NameCharRanges(c);
    var upper, lower, digits := UPPER, LOWER, DIGITS;
    InParts(c, upper, lower, digits, ":_-");
  }

  lemma NameCharRanges(c: char)
    ensures NameChar(c) <==> 'A' <= c <= 'Z' || 'a' <= c <= 'z' || '0' <= c <= '9' || c in ":_-"
  {
  }

  lemma InParts(c: char, p: string, q: string, r: string, s: string)
    ensures c in p + q + r + s <==> c in p || c in q || c in r || c in s
  {
  }

  predicate Listed(s: string, chars: string) {
    s != "" && forall c :: c in s ==> c in chars
  }

  /** The name rules reduce to this: base, pipeline and job determine the alias name, and
      it is at most 128 characters long. */
  lemma AliasNameDecides(baseName: string, name: string, project: string, pipeline: string, job: string)
    ensures OwnershipOk(baseName, name, project, pipeline, job) <==>
              && Listed(baseName, UPPER + LOWER + DIGITS + ":_-")
              && Listed(project, DIGITS) && Listed(pipeline, DIGITS) && Listed(job, DIGITS)
              && |baseName| + |pipeline| + |job| <= 122 && name == baseName + "-ota-" + pipeline + "-" + job
  {
    forall c: char
      ensures NameChar(c) <==> c in UPPER + LOWER + DIGITS + ":_-"
      ensures '0' <= c <= '9' <==> c in DIGITS
    {
      CharsAreListed(c);
    }
    hide NameChar;
    assert AliasName(baseName, pipeline, job) == baseName + "-ota-" + pipeline + "-" + job;
    assert AliasName(baseName, pipeline, job) == baseName + "-ota-" + (pipeline + ("-" + job));
    DecimalIsListed(project);
    DecimalIsListed(pipeline);
    DecimalIsListed(job);
    if Decimal(pipeline) && Decimal(job) {
      AliasNameChars(baseName, pipeline, job);
    }
    assert ValidName(baseName) <==> |baseName| <= 128 && Listed(baseName, UPPER + LOWER + DIGITS + ":_-") by {
      assert forall i :: 0 <= i < |baseName| ==> baseName[i] in baseName;
    }
  }

  lemma DecimalIsListed(s: string)
    ensures Decimal(s) <==> Listed(s, DIGITS)
  {
    forall c: char
      ensures '0' <= c <= '9' <==> c in DIGITS
    {
      CharsAreListed(c);
    }
    assert forall i :: 0 <= i < |s| ==> s[i] in s;
  }

  lemma AliasNameChars(baseName: string, pipeline: string, job: string)
    requires Decimal(pipeline) && Decimal(job)
    ensures ValidName(baseName) && |baseName| + |pipeline| + |job| <= 122 ==>
              ValidName(AliasName(baseName, pipeline, job))
    ensures |AliasName(baseName, pipeline, job)| == |baseName| + |pipeline| + |job| + 6
  {
  }

  /** Two runs on one base Thing share an alias name only if pipeline and job agree. */
  lemma AliasNamesAreDistinct(baseName: string, pipeline1: string, job1: string, pipeline2: string, job2: string)
    requires Decimal(pipeline1) && Decimal(job1) && Decimal(pipeline2) && Decimal(job2)
    requires AliasName(baseName, pipeline1, job1) == AliasName(baseName, pipeline2, job2)
    ensures pipeline1 == pipeline2 && job1 == job2
  {
    var n1, n2 := AliasName(baseName, pipeline1, job1), AliasName(baseName, pipeline2, job2);
    var tail1, tail2 := n1[|baseName| + 5..], n2[|baseName| + 5..];
    assert tail1 == pipeline1 + ("-" + job1) && tail2 == pipeline2 + ("-" + job2);
    DashComesFirst(tail1, pipeline1, job1);
    DashComesFirst(tail1, pipeline2, job2);
  }

  lemma DashComesFirst(s: string, pipeline: string, job: string)
    requires Decimal(pipeline) && s == pipeline + ("-" + job)
    ensures |pipeline| < |s| && s[|pipeline|] == '-' && forall i :: 0 <= i < |pipeline| ==> s[i] != '-'
    ensures pipeline == s[..|pipeline|] && job == s[|pipeline| + 1..]
  {
    forall i | 0 <= i < |pipeline|
      ensures s[i] != '-'
    {
      assert s[i] == pipeline[i];
    }
  }

  /** str.rsplit("/", 1)[0] */
  function BeforeLastSlash(s: string): string {
    if s == "" then ""
    else if s[|s| - 1] == '/' then s[..|s| - 1]
    else if '/' in s[..|s| - 1] then BeforeLastSlash(s[..|s| - 1])
    else s
  }

  /** expected_alias_arn */
  function ExpectedArn(baseArn: string, name: string): Option<string> {
    if !Contains(baseArn, THING) then None else Some(BeforeLastSlash(baseArn) + "/" + name)
  }

  lemma {:induction false} LastSlash(front: string, tail: string)
    requires '/' !in tail
    ensures BeforeLastSlash(front + "/" + tail) == front
  {
    var s := front + "/" + tail;
    if tail == "" {
      assert s[..|s| - 1] == front;
    } else {
      var shorter := tail[..|tail| - 1];
      assert s[..|s| - 1] == front + "/" + shorter;
      assert s[|s| - 1] == tail[|tail| - 1] && tail[|tail| - 1] in tail;
      assert (front + "/" + shorter)[|front|] == '/';
      LastSlash(front, shorter);
    }
  }

  lemma {:induction false} SlashSplits(s: string) returns (tail: string)
    requires '/' in s
    ensures '/' !in tail && s == BeforeLastSlash(s) + "/" + tail
  {
    if s[|s| - 1] == '/' {
      tail := "";
      assert s == s[..|s| - 1] + "/" + tail;
    } else {
      var front := s[..|s| - 1];
      assert s == front + [s[|s| - 1]];
      var rest := SlashSplits(front);
      tail := rest + [s[|s| - 1]];
    }
  }

  /** The predicted ARN is the base ARN with its last part replaced, for ARNs of Things
      only. */
  lemma ExpectedArnIsExact(baseArn: string, name: string, arn: string)
    ensures ExpectedArn(baseArn, name) == Some(arn) <==>
              && Contains(baseArn, ":thing/")
              && exists front: string, last: string ::
                   '/' !in last && baseArn == front + "/" + last && arn == front + "/" + name
  {
    hide BeforeLastSlash;
    if Contains(baseArn, THING) {
      var i :| 0 <= i <= |baseArn| - |THING| && StandsAt(baseArn, THING, i);
      assert baseArn[i + 6] == baseArn[i..i + 7][6] == '/';
      var last := SlashSplits(baseArn);
      if ExpectedArn(baseArn, name) == Some(arn) {
        assert arn == BeforeLastSlash(baseArn) + "/" + name;
      }
    }
    forall front: string, last: string | '/' !in last && baseArn == front + "/" + last
      ensures BeforeLastSlash(baseArn) == front
    {
      LastSlash(front, last);
    }
  }

  lemma NamesHaveNoSlash(s: string)
    requires ValidName(s)
    ensures '/' !in s
  {
    assert forall i :: 0 <= i < |s| ==> NameChar(s[i]) && s[i] != '/';
  }

  /** From the ARN of the base Thing the tool predicts exactly the ARN that the service
      will give the alias. */
  lemma ExpectedArnIsTheAliasArn(account: string, baseName: string, name: string)
    requires ValidName(baseName)
    ensures ExpectedArn(ArnOf(account, baseName), name) == Some(ArnOf(account, name))
  {
    var arn := ArnOf(account, baseName);
    assert StandsAt(arn, THING, |account|);
    assert Contains(arn, THING);
    NamesHaveNoSlash(baseName);
    assert arn == (account + ":thing") + "/" + baseName;
    LastSlash(account + ":thing", baseName);
    assert account + ":thing" + "/" + name == ArnOf(account, name);
  }

  // ---------------------------------------------------------------- creation

  datatype Args = Args(region: string, baseName: string, name: string, project: string, pipeline: string, job: string)

  /** What the preflight finds: the base Thing holds one certificate, not exclusively. */
  predicate Planned(args: Args, m: Meta, s: State) {
    && OwnershipOk(args.baseName, args.name, args.project, args.pipeline, args.job)
    && args.baseName in s.things && s.things[args.baseName].principals == {Attachment(m.principal, false)}
    && Contains(m.principal, CERT) && m.baseArn == s.things[args.baseName].arn
    && ExpectedArn(m.baseArn, args.name) == Some(m.expectedArn)
    && m == Meta(args.region, args.baseName, m.baseArn, args.name, m.expectedArn, m.principal, args.project,
                 args.pipeline, args.job, OwnerAttributes(args.project, args.pipeline, args.job), "planned", [])
  }

  /** build_alias_plan */
  method BuildAliasPlan(cloud: IotCloud, args: Args) returns (r: Option<Meta>)
    ensures r.Some? ==> Planned(args, r.value, cloud.s)
    ensures cloud.healthy && (exists m :: Planned(args, m, cloud.s)) ==> r.Some?
  {
    hide OwnershipOk, Contains;
    if !OwnershipOk(args.baseName, args.name, args.project, args.pipeline, args.job) {
      return None;
    }
    var base := cloud.DescribeThing(args.baseName);
    if !base.Described? {
      return None;
    }
    var principals := cloud.ListPrincipals(args.baseName);
    if principals.None? || |principals.value| != 1 {
      return None;
    }
    var attachment := principals.value[0];
    OneListed(principals.value, cloud.s.things[args.baseName].principals);
    if !Contains(attachment.principal, CERT) || attachment.exclusive {
      return None;
    }
    var expected := ExpectedArn(base.arn, args.name);
    if expected.None? {
      return None;
    }
    return Some(Meta(args.region, args.baseName, base.arn, args.name, expected.value, attachment.principal, args.project,
                     args.pipeline, args.job, OwnerAttributes(args.project, args.pipeline, args.job), "planned", []));
  }

  lemma OneListed<T(!new)>(list: seq<T>, elements: set<T>)
    requires Lists(list, elements)
    ensures |list| == 1 ==> elements == {list[0]}
    ensures forall x :: elements == {x} ==> |list| == 1 && list[0] == x
  {
    if |list| == 1 {
      assert forall x :: x in list <==> x == list[0];
    }
    forall x | elements == {x}
      ensures |list| == 1 && list[0] == x
    {
      assert |list| == 1 && list[0] in list;
    }
  }

  /** The same plan, at whatever stage it was journaled. */
  predicate SamePlan(m: Meta, n: Meta) {
    n == m.(status := n.status, operations := n.operations)
  }

  /** The alias is exactly what the journal announces, with or without the certificate. */
  predicate IsAlias(m: Meta, t: Thing) {
    t.arn == m.expectedArn && t.attributes == m.attributes && t.principals <= {Attachment(m.principal, false)}
  }

  /** All that creating this plan can have done so far. */
  predicate Effects(m: Meta, before: State, s: State) {
    || s.things == before.things
    || (&& m.name !in before.things && m.name in s.things && s.things == before.things[m.name := s.things[m.name]]
        && IsAlias(m, s.things[m.name]))
  }

  /** The crash invariant of create_alias. */
  ghost predicate Sound(args: Args, before: State, stale: Option<Meta>, disk: Option<Meta>, s: State) {
    || (disk == stale && s == before)
    || (&& disk.Some? && Effects(disk.value, before, s)
        && exists m :: Planned(args, m, before) && SamePlan(m, disk.value))
  }

  /** The final look at the alias and the base Thing, before the alias is ready. */
  method VerifyReady(cloud: IotCloud, m: Meta) returns (ok: bool)
    ensures ok ==> m.name in cloud.s.things && IsReady(m, cloud.s.things[m.name]) && HoldsCertificate(m, cloud.s)
    ensures cloud.healthy && m.name in cloud.s.things && IsReady(m, cloud.s.things[m.name]) ==>
              HoldsCertificate(m, cloud.s) ==> ok
  {
    var alias := cloud.DescribeThing(m.name);
    if !alias.Described? || alias.arn != m.expectedArn || alias.attributes != m.attributes {
      return false;
    }
    var expected := Attachment(m.principal, false);
    var principals := cloud.ListPrincipals(m.name);
    if principals.None? {
      return false;
    }
    OneListed(principals.value, cloud.s.things[m.name].principals);
    if principals.value != [expected] {
      return false;
    }
    var basePrincipals := cloud.ListPrincipals(m.baseName);
    return basePrincipals.Some? && expected in basePrincipals.value;
  }

  /** The alias is exactly as announced. */
  predicate IsReady(m: Meta, t: Thing) {
    t == Thing(m.expectedArn, m.attributes, {Attachment(m.principal, false)})
  }

  predicate HoldsCertificate(m: Meta, s: State) {
    m.baseName in s.things && Attachment(m.principal, false) in s.things[m.baseName].principals
  }

  lemma PlanFacts(args: Args, m: Meta, s: State)
    requires Planned(args, m, s)
    ensures HoldsCertificate(m, s) && m.operations == []
  {
    hide OwnershipOk, Contains, ExpectedArn;
  }

  /** The guarded part of create_alias: create, attach, and verify. */
  method MakeAlias(
      cloud: IotCloud, journal: Journal<Meta>, args: Args, plan: Meta, ghost before: State, ghost stale: Option<Meta>)
    returns (ready: bool, last: Meta)
    requires Planned(args, plan, before) && cloud.s == before && plan.name !in before.things
    requires journal.disk == Some(plan) && plan.operations == [] && plan.status == "planned" && plan.expectedArn == ArnOf(cloud.account, plan.name)
    modifies cloud`s, cloud`failures, journal
    ensures Sound(args, before, stale, journal.disk, cloud.s) && SamePlan(plan, last) && Effects(last, before, cloud.s)
    ensures cloud.healthy && !journal.failing ==> ready
    ensures last.operations <= ["create-thing", "attach-thing-principal"]
    ensures last.status in (if last.operations == [] then {"planned", "created"}
                            else if |last.operations| == 1 then {"created"}
                            else {"attached", "ready"})
    ensures !journal.failing ==> journal.disk == Some(last) || last.operations == []
    ensures ready ==> cloud.failures == old(cloud.failures) && journal.failedWrites == old(journal.failedWrites)
    ensures ready ==>
              && journal.disk == Some(last) && last.status == "ready" && last.name in cloud.s.things
              && last.operations == ["create-thing", "attach-thing-principal"]
              && cloud.s.log == before.log + [CreateThing(last.name), Attach(last.name, last.principal)]
              && IsReady(last, cloud.s.things[last.name])
  {
    PlanFacts(args, plan, before);
    hide Planned, ArnOf, Lists;
    var meta := plan;
    last := meta;
    ready := false;
    var created, _ := cloud.CreateThing(meta.name, meta.attributes);
    if created.None? {
      return;
    }
    meta := meta.(status := "created");
    last := meta;
    if created.value != meta.expectedArn {
      return;
    }
    meta := meta.(operations := meta.operations + ["create-thing"]);
    last := meta;
    var written := journal.WriteJson(meta);
    if !written {
      return;
    }
    var attached, _ := cloud.Attach(meta.name, meta.principal);
    if !attached {
      return;
    }
    meta := meta.(status := "attached", operations := meta.operations + ["attach-thing-principal"]);
    last := meta;
    written := journal.WriteJson(meta);
    if !written {
      return;
    }
    var verified := VerifyReady(cloud, meta);
    if !verified {
      return;
    }
    meta := meta.(status := "ready");
    last := meta;
    ready := journal.WriteJson(meta);
  }

  /** create_alias.  It never adopts an existing Thing; wherever it stops, the crash
      invariant holds; and it is ready only with the alias exactly as announced. */
  method CreateAlias(cloud: IotCloud, journal: Journal<Meta>, args: Args, planned: Option<Meta>) returns (ready: bool)
    requires args.baseName in cloud.s.things ==> cloud.s.things[args.baseName].arn == ArnOf(cloud.account, args.baseName)
    modifies cloud`s, cloud`failures, journal
    ensures Sound(args, old(cloud.s), old(journal.disk), journal.disk, cloud.s)
    ensures args.name in old(cloud.s).things ==> cloud.s == old(cloud.s) && !ready
    ensures cloud.healthy && !journal.failing ==>
              (exists m :: Planned(args, m, old(cloud.s)) && (planned.None? || SamePlan(m, planned.value))) ==>
                if args.name !in old(cloud.s).things then ready
                else journal.disk.Some? && journal.disk.value.status == "collision"
    ensures ready ==> cloud.failures == old(cloud.failures) && journal.failedWrites == old(journal.failedWrites)
    ensures !ready && !journal.failing && journal.disk != old(journal.disk) ==>
              journal.disk.Some? && journal.disk.value.status in {"planned", "collision", "error"}
    ensures ready ==>
              && journal.disk.Some? && journal.disk.value.status == "ready" && args.name in cloud.s.things
              && cloud.s.things[args.name] == Thing(ArnOf(cloud.account, args.name), journal.disk.value.attributes,
                                                    {Attachment(journal.disk.value.principal, false)})
  {
    ghost var before, stale := cloud.s, journal.disk;
    ready := false;
    var built := BuildAliasPlan(cloud, args);
    if built.None? {
      return;
    }
    var meta := built.value;
    PlanPredictsArn(cloud.account, args, meta, before);
    hide Planned, ArnOf;
    if planned.Some? && !SamePlan(meta, planned.value) {
      return;
    }
    var written := journal.WriteJson(meta);
    if !written {
      return;
    }
    var alias := cloud.DescribeThing(meta.name);
    if alias.DescribeFailed? {
      return;
    }
    if alias.Described? {
      meta := meta.(status := "collision");
      written := journal.WriteJson(meta);
      return;
    }
    var last;
    ready, last := MakeAlias(cloud, journal, args, meta, before, stale);
    if !ready {
      var crashed := journal.Stops();
      if !crashed {
        written := journal.WriteJson(last.(status := "error"));
      }
    }
  }

  lemma PlanPredictsArn(account: string, args: Args, m: Meta, s: State)
    requires Planned(args, m, s) && s.things[args.baseName].arn == ArnOf(account, args.baseName)
    ensures m.expectedArn == ArnOf(account, m.name) && m.name == args.name
  {
    ExpectedArnIsTheAliasArn(account, args.baseName, args.name);
  }
}
