/** The polling loops of the OTA cleanup: they only read, they end, and on a healthy
service they see background work finish. */
module OtaWaits {
  import opened Wrappers
  import opened OtaMeta
  import opened OtaReconcile
  import opened OtaCloud
  import PagedListing

  // ---------------------------------------------------------------- what reading may change

  predicate BeingDeleted(s: State, id: string) {
    id in s.otas && s.otas[id].status == "DELETE_IN_PROGRESS"
  }

  /** From s to t, the service only moved its own background work on update `id`. */
  ghost predicate Watched(s: State, t: State, id: string) {
    && t.log == s.log && t.objects == s.objects && s.clock <= t.clock
    && t.otas - {id} == s.otas - {id}
    && (id !in s.otas ==> id !in t.otas)
    && (BeingDeleted(t, id) || (id in s.otas && id !in t.otas) ==> BeingDeleted(s, id))
    && (!Pending(s, id) ==> t.otas == s.otas && t.jobs == s.jobs)
    && (forall j :: j in s.jobs ==> j in t.jobs && t.jobs[j] == s.jobs[j])
    && (forall j :: j in t.jobs && j !in s.jobs ==> id in t.otas && t.otas[id].jobId == j != "" && !Pending(t, id))
    && (id in t.otas && id in s.otas ==> SameUpdate(s.otas[id], t.otas[id]))
    && (id in t.otas && id in s.otas && Plausible(s.otas[id]) ==> Plausible(t.otas[id]))
    && (id in t.otas && id in s.otas && s.otas[id].jobId == "" ==> t.otas[id].jobId !in s.jobs || t.otas[id].jobId == "")
  }

  /** A state that the service brings an update into: known, and complete only with a job. */
  predicate Plausible(ota: Ota) {
    ota.status in KNOWN && (ota.status == CREATE_COMPLETE ==> ota.jobId != "")
  }

  /** The same update, perhaps further on: what identifies it has not changed. */
  predicate SameUpdate(a: Ota, b: Ota) {
    && b == a.(status := b.status, jobId := b.jobId, jobArn := b.jobArn)
    && Agrees(a.jobId, b.jobId) && Agrees(a.jobArn, b.jobArn)
  }

  lemma WatchedStep(s: State, t: State, id: string, o: Outcome)
    requires Possible(s, id, o) && t == After(s, id, o).(clock := t.clock) && s.clock <= t.clock
    ensures Watched(s, t, id)
    ensures o == Stay || !Pending(t, id)
  {
  }

  lemma WatchedTrans(s: State, t: State, u: State, id: string)
    requires Watched(s, t, id) && Watched(t, u, id)
    ensures Watched(s, u, id)
  {
    hide Possible, After, Plausible;
    if id in u.otas && id in s.otas {
      assert id in t.otas by {
        assert Pending(t, id) || u.otas == t.otas;
      }
      UpdateTrans(s.otas[id], t.otas[id], u.otas[id]);
    }
  }

  lemma UpdateTrans(a: Ota, b: Ota, c: Ota)
    requires SameUpdate(a, b) && SameUpdate(b, c)
    ensures SameUpdate(a, c)
  {
  }

  /** A finished update names its job; this is what a healthy service keeps. */
  predicate Honest(ota: Ota) {
    ota.status in KNOWN && (ota.status == CREATE_COMPLETE || ota.status == DELETE_FAILED ==> ota.jobId != "")
  }

  ghost predicate StaysHonest(s: State, t: State, id: string) {
    id in s.otas && id in t.otas && Honest(s.otas[id]) ==> Honest(t.otas[id])
  }

  /** What is pending on this update is due within the service's latency. */
  predicate DueSoon(s: State, id: string, latency: nat) {
    Pending(s, id) ==> s.otas[id].due <= s.clock + latency
  }

  function Left(clock: nat, deadline: nat): nat {
    if clock < deadline then deadline - clock else 0
  }

  // ---------------------------------------------------------------- what was heard

  /** The replies about update `id` while `at` mutations had been issued. */
  ghost function OtaReplies(heard: seq<Heard>, at: nat, id: string): seq<OtaReply> {
    if heard == [] then []
    else
      var front, last := OtaReplies(heard[..|heard| - 1], at, id), heard[|heard| - 1];
      if last.HeardOta? && last.at == at && last.id == id then front + [last.otaReply] else front
  }

  /** The replies about signing job `id` while `at` mutations had been issued. */
  ghost function SigningReplies(heard: seq<Heard>, at: nat, id: string): seq<SigningReply> {
    if heard == [] then []
    else
      var front, last := SigningReplies(heard[..|heard| - 1], at, id), heard[|heard| - 1];
      if last.HeardSigner? && last.at == at && last.id == id then front + [last.signingReply] else front
  }

  /** About objects, not about an update or a signing job. */
  predicate OfObjects(e: Heard) {
    e.HeardSource? || e.HeardHead? || e.HeardVersions? || e.HeardKeys?
  }

  /** About the source object only. */
  ghost predicate OfSource(heard: seq<Heard>) {
    forall e :: e in heard ==> e.HeardSource? || e.HeardHead?
  }

  /** Nothing in here is about an update or a signing job before more than `at` mutations. */
  ghost predicate HeardLater(heard: seq<Heard>, at: nat) {
    forall e :: e in heard ==> OfObjects(e) || e.at > at
  }

  lemma {:induction false} LaterIsNotEarly(heard: seq<Heard>, more: seq<Heard>, at: nat, id: string)
    requires HeardLater(more, at)
    ensures OtaReplies(heard + more, at, id) == OtaReplies(heard, at, id)
    ensures SigningReplies(heard + more, at, id) == SigningReplies(heard, at, id)
  {
    if more == [] {
      assert heard + more == heard;
    } else {
      var front := more[..|more| - 1];
      assert (heard + more)[..|heard + more| - 1] == heard + front;
      LaterIsNotEarly(heard, front, at, id);
    }
  }

  lemma {:induction false} NoSigning(heard: seq<Heard>, at: nat, id: string)
    requires forall e :: e in heard ==> e.HeardOta?
    ensures SigningReplies(heard, at, id) == []
  {
    if heard != [] {
      assert heard[|heard| - 1] in heard;
      NoSigning(heard[..|heard| - 1], at, id);
    }
  }

  /** Discovery and the signer wait are told apart in what was heard. */
  lemma {:induction false} SplitHeard(a: seq<Heard>, b: seq<Heard>, at: nat, ota: string, job: string)
    requires (forall e :: e in a ==> e.HeardOta?) && forall e :: e in b ==> e.HeardSigner?
    ensures OtaReplies(a + b, at, ota) == OtaReplies(a, at, ota)
    ensures SigningReplies(a + b, at, job) == SigningReplies(b, at, job)
  {
    if b == [] {
      assert a + b == a;
      NoSigning(a, at, job);
    } else {
      var front := b[..|b| - 1];
      assert (a + b)[..|a + b| - 1] == a + front && b[|b| - 1] in b;
      SplitHeard(a, front, at, ota, job);
    }
  }

  /** The update is still on its way. */
  predicate StillMoving(reply: OtaReply) {
    reply.OtaFound? && reply.live.Info? && reply.live.status in MUTATING
  }

  /** The first reply that ends discovery. */
  ghost function Decided(replies: seq<OtaReply>): Option<OtaReply> {
    if replies == [] then None
    else
      var front, last := Decided(replies[..|replies| - 1]), replies[|replies| - 1];
      if front.Some? then front else if StillMoving(last) then None else Some(last)
  }

  /** What discovery makes of the replies. */
  ghost function Discovered(replies: seq<OtaReply>): Result<Option<Live>, DiscoveryError> {
    match Decided(replies)
    case None => Err(StillMutating)
    case Some(OtaCallFailed) => Err(LookupFailed)
    case Some(OtaNotFound) => Ok(None)
    case Some(OtaFound(live)) => Ok(Some(live))
  }

  // ---------------------------------------------------------------- the loops

  /** One observation of the update inside a polling loop. */
  method Observe(cloud: Cloud, id: string) returns (reply: OtaReply)
    modifies cloud`s, cloud`failures, cloud`heard
    ensures cloud.failures == old(cloud.failures) + if reply.OtaCallFailed? then 1 else 0
    ensures cloud.heard == old(cloud.heard) + [HeardOta(|cloud.s.log|, id, reply)]
    ensures Watched(old(cloud.s), cloud.s, id) && cloud.TimePassed(old(cloud.s))
    ensures reply.OtaNotFound? ==> id !in cloud.s.otas
    ensures cloud.healthy ==> !reply.OtaCallFailed?
    ensures cloud.healthy || !BeingDeleted(old(cloud.s), id) ==> StaysHonest(old(cloud.s), cloud.s, id)
    ensures cloud.healthy && BeingDeleted(old(cloud.s), id) && id in cloud.s.otas ==> BeingDeleted(cloud.s, id)
    ensures (cloud.healthy || cloud.honest) && reply.OtaFound? ==>
              id in cloud.s.otas && View(id, cloud.s.otas[id], reply.live)
    ensures cloud.healthy && Pending(cloud.s, id) ==>
              Pending(old(cloud.s), id) && old(cloud.s).clock < old(cloud.s).otas[id].due
  {
    ghost var outcome;
    reply, outcome := cloud.GetOta(id);
    WatchedStep(old(cloud.s), cloud.s, id, outcome);
  }

  datatype DiscoveryError = LookupFailed | StillMutating

  /** wait_for_ota_cleanup_discovery: None if the update does not exist. */
  method WaitForDiscovery(cloud: Cloud, id: string, timeout: nat, poll: nat)
    returns (r: Result<Option<Live>, DiscoveryError>)
    requires 0 < poll
    modifies cloud`s, cloud`failures, cloud`heard
    ensures cloud.failures == old(cloud.failures) + if r == Err(LookupFailed) then 1 else 0
    ensures Watched(old(cloud.s), cloud.s, id)
    ensures old(cloud.heard) <= cloud.heard
    ensures forall e :: e in cloud.heard[|old(cloud.heard)|..] ==> e.HeardOta?
    ensures r == Discovered(OtaReplies(cloud.heard[|old(cloud.heard)|..], |cloud.s.log|, id))
    ensures r == Err(StillMutating) ==> old(cloud.s).clock + timeout <= cloud.s.clock
    ensures r == Ok(None) ==> id !in cloud.s.otas
    ensures r.Ok? && r.value.Some? && r.value.value.Info? ==> r.value.value.status !in MUTATING
    ensures cloud.honest && r.Ok? && r.value.Some? ==> id in cloud.s.otas && View(id, cloud.s.otas[id], r.value.value)
    ensures cloud.healthy && DueSoon(old(cloud.s), id, cloud.latency) && cloud.latency + cloud.callTime <= timeout ==>
              && r.Ok? && StaysHonest(old(cloud.s), cloud.s, id)
              && (r.value.Some? ==> id in cloud.s.otas && View(id, cloud.s.otas[id], r.value.value))
              && !Pending(cloud.s, id) && (BeingDeleted(old(cloud.s), id) ==> r == Ok(None))
  {
    hide StaysHonest, Watched, View, OtaReplies, Decided, Agrees;
    ghost var start, said := cloud.s, cloud.heard;
    ghost var news: seq<Heard> := [];
    NothingDecided(|start.log|, id);
    OnlyTime(start, start, id);
    var deadline: Option<nat> := None;
    while true
      invariant cloud.failures == old(cloud.failures)
      invariant Watched(start, cloud.s, id)
      invariant cloud.heard == said + news && forall e :: e in news ==> e.HeardOta?
      invariant Decided(OtaReplies(news, |start.log|, id)).None?
      invariant deadline.Some? ==> start.clock + timeout <= deadline.value
      invariant cloud.healthy ==> StaysHonest(start, cloud.s, id)
      invariant cloud.healthy && BeingDeleted(start, id) && id in cloud.s.otas ==> BeingDeleted(cloud.s, id)
      decreases if deadline.None? then 1 else 0, if deadline.Some? then Left(cloud.s.clock, deadline.value) else 0
    {
      ghost var before := cloud.s;
      var reply := Observe(cloud, id);
      WatchedLog(start, before, id);
      WatchedLog(before, cloud.s, id);
      OneMoreReply(news, |start.log|, id, reply);
      news := news + [HeardOta(|start.log|, id, reply)];
      assert cloud.heard == said + news && cloud.heard[|said|..] == news;
      HonestTrans(start, before, cloud.s, id);
      WatchedTrans(start, before, cloud.s, id);
      PendingSince(start, cloud.s, id);
      StaysGone(before, cloud.s, id);
      match reply
      case OtaCallFailed =>
        return Err(LookupFailed);
      case OtaNotFound =>
        NotPending(cloud.s, id);
        return Ok(None);
      case OtaFound(live) =>
        ViewStatus(cloud.s, id, live);
        if !live.Info? || live.status !in MUTATING {
          return Ok(Some(live));
        }
        if deadline.None? {
          WatchedClock(start, cloud.s, id);
          deadline := Some(cloud.s.clock + timeout);
        }
        if cloud.s.clock >= deadline.value {
          PendingSince(start, before, id);
          return Err(StillMutating);
        }
        ghost var awake := cloud.s;
        cloud.Sleep(poll);
        OnlyTime(awake, cloud.s, id);
        WatchedTrans(start, awake, cloud.s, id);
        HonestTrans(start, awake, cloud.s, id);
    }
  }

  lemma WatchedLog(s: State, t: State, id: string)
    requires Watched(s, t, id)
    ensures t.log == s.log
  {
  }

  lemma NothingDecided(at: nat, id: string)
    ensures Decided(OtaReplies([], at, id)).None?
  {
  }

  lemma OneMoreReply(news: seq<Heard>, at: nat, id: string, reply: OtaReply)
    requires Decided(OtaReplies(news, at, id)).None?
    ensures var more := OtaReplies(news + [HeardOta(at, id, reply)], at, id);
            Decided(more) == if StillMoving(reply) then None else Some(reply)
  {
    var e := HeardOta(at, id, reply);
    assert (news + [e])[..|news|] == news;
    var replies := OtaReplies(news, at, id);
    assert (replies + [reply])[..|replies|] == replies;
  }

  lemma NotPending(s: State, id: string)
    requires id !in s.otas
    ensures !Pending(s, id)
  {
  }

  lemma ViewStatus(s: State, id: string, live: Live)
    ensures id in s.otas && View(id, s.otas[id], live) ==> live.Info? && (live.status in MUTATING <==> Pending(s, id))
  {
  }

  lemma WatchedClock(s: State, t: State, id: string)
    requires Watched(s, t, id)
    ensures s.clock <= t.clock
  {
  }

  lemma HonestTrans(s: State, t: State, u: State, id: string)
    requires Watched(t, u, id)
    ensures StaysHonest(s, t, id) && StaysHonest(t, u, id) ==> StaysHonest(s, u, id)
  {
  }

  lemma PendingSince(s: State, t: State, id: string)
    requires Watched(s, t, id)
    ensures Pending(t, id) ==> Pending(s, id) && t.otas[id].due == s.otas[id].due
  {
    if Pending(t, id) {
      assert Pending(s, id) || t.otas == s.otas;
    }
  }

  lemma OnlyTime(s: State, t: State, id: string)
    requires t == s.(clock := t.clock) && s.clock <= t.clock
    ensures Watched(s, t, id) && StaysHonest(s, t, id)
  {
  }

  /** wait_until_absent on the update: None if a call failed. */
  method WaitUntilOtaAbsent(cloud: Cloud, id: string, timeout: nat, poll: nat) returns (r: Option<bool>)
    requires 0 < poll
    modifies cloud`s, cloud`failures, cloud`heard
    ensures cloud.failures == old(cloud.failures) + if r.None? then 1 else 0
    ensures old(cloud.heard) <= cloud.heard
    ensures forall e :: e in cloud.heard[|old(cloud.heard)|..] ==> e.at == |cloud.s.log|
    ensures Watched(old(cloud.s), cloud.s, id)
    ensures r == Some(true) ==> id !in cloud.s.otas
    ensures r.Some? && !r.value ==> old(cloud.s).clock + timeout <= cloud.s.clock
    ensures cloud.healthy ==> r.Some?
    ensures cloud.healthy && DueSoon(old(cloud.s), id, cloud.latency) && cloud.latency + cloud.callTime <= timeout ==>
              (id in old(cloud.s).otas ==> BeingDeleted(old(cloud.s), id)) ==> r == Some(true)
  {
    ghost var start, said := cloud.s, cloud.heard;
    var deadline := cloud.s.clock + timeout;
    while true
      invariant cloud.failures == old(cloud.failures)
      invariant Watched(start, cloud.s, id)
      invariant said <= cloud.heard && forall e :: e in cloud.heard[|said|..] ==> e.at == |start.log|
      invariant cloud.healthy && BeingDeleted(start, id) && id in cloud.s.otas ==> cloud.s.otas == start.otas
      decreases Left(cloud.s.clock, deadline)
    {
      ghost var before, earlier := cloud.s, cloud.heard;
      ghost var outcome;
      var reply: OtaReply;
      reply, outcome := cloud.GetOta(id);
      assert cloud.heard[|said|..] == earlier[|said|..] + [HeardOta(|cloud.s.log|, id, reply)];
      WatchedStep(before, cloud.s, id, outcome);
      WatchedTrans(start, before, cloud.s, id);
      DeletionGoesOn(start, before, cloud.s, id, outcome, cloud.healthy);
      StaysGone(start, cloud.s, id);
      hide Watched, View, Possible, After;
      match reply
      case OtaCallFailed =>
        return None;
      case OtaNotFound =>
        return Some(true);
      case OtaFound(_) =>
        if cloud.s.clock >= deadline {
          return Some(false);
        }
        ghost var awake := cloud.s;
        cloud.Sleep(poll);
        OnlyTime(awake, cloud.s, id);
        WatchedTrans(start, awake, cloud.s, id);
    }
  }

  lemma StaysGone(s: State, t: State, id: string)
    requires Watched(s, t, id)
    ensures id in t.otas ==> id in s.otas
  {
  }

  /** On a healthy service, an update that is being deleted stays as it is until it is gone. */
  lemma DeletionGoesOn(start: State, before: State, now: State, id: string, o: Outcome, healthy: bool)
    requires Watched(start, before, id) && Possible(before, id, o) && now == After(before, id, o).(clock := now.clock)
    requires healthy && BeingDeleted(start, id) && id in before.otas ==> before.otas == start.otas
    requires healthy ==> !o.DeleteFails?
    ensures healthy && BeingDeleted(start, id) && id in now.otas ==>
              o == Stay && now.otas == start.otas && before.otas == start.otas && Pending(before, id)
  {
  }

  /** What looking at job j repeatedly may change: that job may be gone at last. */
  ghost predicate JobWatched(s: State, t: State, j: string) {
    && t == s.(clock := t.clock, jobs := t.jobs) && s.clock <= t.clock
    && (t.jobs == s.jobs || (j in s.jobs && t.jobs == s.jobs - {j}))
  }

  /** wait_until_absent on the job. */
  method WaitUntilJobAbsent(cloud: Cloud, id: string, timeout: nat, poll: nat) returns (r: Option<bool>)
    requires 0 < poll
    modifies cloud`s, cloud`failures
    ensures cloud.failures == old(cloud.failures) + if r.None? then 1 else 0
    ensures JobWatched(old(cloud.s), cloud.s, id)
    ensures r == Some(true) ==> id !in cloud.s.jobs
    ensures r.Some? && !r.value ==> old(cloud.s).clock + timeout <= cloud.s.clock
    ensures cloud.healthy ==> r.Some? && (r == Some(true) || id in old(cloud.s).jobs)
    ensures cloud.healthy && cloud.latency + cloud.callTime <= timeout
            && (id in old(cloud.s).jobs ==>
                  old(cloud.s).jobs[id].Deleting? && old(cloud.s).jobs[id].due <= old(cloud.s).clock + cloud.latency) ==>
              r == Some(true)
  {
    ghost var start := cloud.s;
    var deadline := cloud.s.clock + timeout;
    while true
      invariant cloud.failures == old(cloud.failures)
      invariant JobWatched(start, cloud.s, id)
      decreases Left(cloud.s.clock, deadline)
    {
      ghost var before := cloud.s;
      var reply := cloud.DescribeJob(id);
      if reply.CallFailed? {
        return None;
      }
      if reply.NotFound? {
        return Some(true);
      }
      if cloud.s.clock >= deadline {
        return Some(false);
      }
      cloud.Sleep(poll);
    }
  }

  /** wait_until_s3_key_fully_absent: no version, no delete marker, no current object. */
  method WaitUntilKeyAbsent(cloud: Cloud, bucket: string, key: string, timeout: nat, poll: nat)
    returns (r: Option<bool>)
    requires 0 < poll && Versioned(cloud.s)
    modifies cloud`s, cloud`failures, cloud`heard
    ensures old(cloud.heard) <= cloud.heard && OfSource(cloud.heard[|old(cloud.heard)|..])
    ensures cloud.failures == old(cloud.failures) + if r.None? then 1 else 0
    ensures cloud.s == old(cloud.s).(clock := cloud.s.clock) && old(cloud.s).clock <= cloud.s.clock
    ensures r == Some(true) ==> KeyAbsent(cloud.s, bucket, key)
    ensures r.Some? && !r.value ==> old(cloud.s).clock + timeout <= cloud.s.clock
    ensures cloud.healthy && KeyAbsent(old(cloud.s), bucket, key) ==> r == Some(true)
  {
    ghost var start, said, news: seq<Heard> := cloud.s, cloud.heard, [];
    var deadline := cloud.s.clock + timeout;
    while true
      invariant cloud.failures == old(cloud.failures)
      invariant cloud.heard == said + news && OfSource(news)
      invariant cloud.s == start.(clock := cloud.s.clock) && start.clock <= cloud.s.clock
      decreases Left(cloud.s.clock, deadline)
    {
      var versions := cloud.ListKey(bucket, key);
      news := news + [HeardSource(|cloud.s.log|, versions)];
      assert cloud.heard[|said|..] == news;
      if versions.None? {
        return None;
      }
      var current := cloud.Head(bucket, key);
      news := news + [HeardHead(|cloud.s.log|, current)];
      assert cloud.heard[|said|..] == news;
      if current.CallFailed? {
        return None;
      }
      if versions.value == [] && current.NotFound? {
        return Some(true);
      }
      if cloud.healthy {
        NothingToList(start, cloud.s, bucket, key, versions.value);
      }
      if cloud.s.clock >= deadline {
        return Some(false);
      }
      cloud.Sleep(poll);
    }
  }

  lemma NothingToList(start: State, s: State, bucket: string, key: string, entries: seq<PagedListing.Entry>)
    requires s == start.(clock := s.clock) && ListsKey(s, bucket, key, entries, true)
    ensures KeyAbsent(start, bucket, key) ==> entries == []
  {
    if entries != [] {
      assert entries[0] in entries;
      var e :| e in s.objects && IsKey(e, bucket, key) && AsListed(e) == entries[0];
      assert !KeyAbsent(start, bucket, key);
    }
  }
}
