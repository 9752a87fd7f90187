/** The AWS service as the OTA tools see it: OTA updates, IoT jobs, versioned S3 keys.

Every call is one atomic step.  It may fail without effect, take effect and lose its
response, or succeed; background work (an update being created or deleted, a job being
deleted, AWS Signer publishing its output) makes progress when it is looked at.  A
"not found" reply and the absence of an entry from a listing are always true; what an
unhealthy service otherwise replies is arbitrary. */
module OtaCloud {
  import opened Wrappers
  import opened OtaMeta
  import opened OtaReconcile
  import PagedListing

  datatype Ota = Ota(
    status: string,
    jobId: string,
    jobArn: string,
    thingArn: string,
    bucket: string,
    key: string,
    version: string,
    fileVersion: string,
    signerJob: string,
    due: nat)

  datatype JobState = Active | Deleting(due: nat)

  datatype S3Entry = S3Entry(bucket: string, key: string, version: string, marker: bool)

  datatype Mutation =
    | PutObject(bucket: string, key: string)
    | CreateOta(id: string)
    | DeleteOta(id: string)
    | DeleteJob(id: string)
    | DeleteObject(bucket: string, key: string, version: string)

  /** `log` holds every mutation that was issued, whether or not it took effect. */
  datatype State = State(
    otas: map<string, Ota>,
    jobs: map<string, JobState>,
    objects: set<S3Entry>,
    clock: nat,
    log: seq<Mutation>)

  // ---------------------------------------------------------------- background work

  /** How background work on an update can turn out when it is looked at. */
  datatype Outcome = Stay | Completes(jobId: string, jobArn: string) | CreateFails | Vanishes | DeleteFails

  predicate Pending(s: State, id: string) {
    id in s.otas && s.otas[id].status in MUTATING
  }

  predicate Possible(s: State, id: string, o: Outcome) {
    o == Stay
    || (Pending(s, id)
        && var ota := s.otas[id];
           if ota.status == "DELETE_IN_PROGRESS" then o.Vanishes? || o.DeleteFails?
           else
             match o
             case Completes(jobId, jobArn) =>
               && jobId != "" && jobArn != "" && Agrees(ota.jobArn, jobArn)
               && if ota.jobId == "" then jobId !in s.jobs else jobId == ota.jobId
             case CreateFails => true
             case _ => false)
  }

  function After(s: State, id: string, o: Outcome): State
    requires Possible(s, id, o)
  {
    match o
    case Stay => s
    case Completes(jobId, jobArn) =>
      s.(otas := s.otas[id := s.otas[id].(status := CREATE_COMPLETE, jobId := jobId, jobArn := jobArn)],
         jobs := if s.otas[id].jobId == "" then s.jobs[jobId := Active] else s.jobs)
    case CreateFails => s.(otas := s.otas[id := s.otas[id].(status := CREATE_FAILED)])
    case Vanishes => s.(otas := s.otas - {id})
    case DeleteFails => s.(otas := s.otas[id := s.otas[id].(status := DELETE_FAILED)])
  }

  // ---------------------------------------------------------------- replies

  datatype OtaReply = OtaCallFailed | OtaNotFound | OtaFound(live: Live)

  datatype Lookup = CallFailed | NotFound | Present

  datatype Ack = AckFailed | AckNotFound | Done

  datatype PutReply = PutFailed | Stored(version: string)

  datatype CreateReply = CreateCallFailed | Created(status: string, jobId: string, jobArn: string)

  /** Untrusted reply of describe-signing-job; an absent field is the empty string. */
  datatype SigningReply =
    | SigningCallFailed
    | SigningMalformed
    | Signing(jobId: string, status: string, sourceBucket: string, sourceKey: string, sourceVersion: string,
              signedBucket: string, signedKey: string)

  /** What has been heard from the service, and how many mutations had been issued by
      then.  With a listing below a prefix goes what AWS Signer published just before it. */
  datatype Heard =
    | HeardOta(at: nat, id: string, otaReply: OtaReply)
    | HeardSigner(at: nat, id: string, signingReply: SigningReply)
    | HeardSource(at: nat, listed: Option<seq<PagedListing.Entry>>)
    | HeardHead(at: nat, current: Lookup)
    | HeardVersions(at: nat, clock: nat, published: set<S3Entry>)
    | HeardKeys(at: nat, published: set<S3Entry>)

  /** An honest reply of get-ota-update; a failed creation may leave fields out. */
  predicate View(id: string, ota: Ota, live: Live) {
    && live.Info? && live.otaUpdateId == id && live.status == ota.status
    && live.jobId == ota.jobId && live.jobArn == ota.jobArn
    && (live.targets == Targets([ota.thingArn]) || (ota.status == CREATE_FAILED && live.targets == NoTargets))
    && (live.files == Files([FileOf(ota)]) || (ota.status == CREATE_FAILED && live.files == NoFiles))
  }

  function FileOf(ota: Ota): FileEntry {
    File(Location(S3Location(ota.bucket, ota.key, ota.version)), ota.fileVersion, ota.signerJob)
  }

  /** The update is being deleted, and its job with it, unless that is where the service
      fails. */
  function Deleted(s: State, id: string, due: nat, withJob: bool): State
    requires id in s.otas
  {
    s.(otas := s.otas[id := s.otas[id].(status := "DELETE_IN_PROGRESS", due := due)],
       jobs := if withJob && s.otas[id].jobId in s.jobs then s.jobs[s.otas[id].jobId := Deleting(due)] else s.jobs)
  }

  predicate IsKey(e: S3Entry, bucket: string, key: string) {
    e.bucket == bucket && e.key == key
  }

  predicate Below(e: S3Entry, bucket: string, prefix: string) {
    e.bucket == bucket && StartsWith(e.key, prefix)
  }

  predicate KeyAbsent(s: State, bucket: string, key: string) {
    forall e :: e in s.objects ==> !IsKey(e, bucket, key)
  }

  predicate PrefixAbsent(s: State, bucket: string, prefix: string) {
    forall e :: e in s.objects ==> !Below(e, bucket, prefix)
  }

  /** Every entry has a version id; an unversioned object has the id "null". */
  predicate Versioned(s: State) {
    forall e :: e in s.objects ==> e.version != ""
  }

  function AsListed(e: S3Entry): PagedListing.Entry {
    PagedListing.Entry(if e.marker then PagedListing.DeleteMarker else PagedListing.Version, e.key, e.version)
  }

  /** A listing never misses an entry; an unhealthy one may hold stale ones. */
  ghost predicate ListsKey(s: State, bucket: string, key: string, entries: seq<PagedListing.Entry>, exact: bool) {
    && (forall e :: e in s.objects && IsKey(e, bucket, key) ==> AsListed(e) in entries)
    && (forall l :: l in entries ==> l.key == key && l.versionId != "")
    && (exact ==> forall l :: l in entries ==> exists e :: e in s.objects && IsKey(e, bucket, key) && AsListed(e) == l)
  }

  ghost predicate ListsPrefix(
      s: State, bucket: string, prefix: string, entries: seq<PagedListing.Entry>, exact: bool) {
    && (forall e :: e in s.objects && Below(e, bucket, prefix) ==> AsListed(e) in entries)
    && (forall l :: l in entries ==> PagedListing.OwnedBy(l, prefix))
    && (exact ==> forall l :: l in entries ==> exists e :: e in s.objects && Below(e, bucket, prefix) && AsListed(e) == l)
  }

  /** Every key is that of an object below the prefix which is no delete marker. */
  ghost predicate ListsObjects(s: State, bucket: string, prefix: string, keys: seq<string>) {
    forall k :: k in keys ==> exists e :: e in s.objects && Below(e, bucket, prefix) && !e.marker && e.key == k
  }

  function WithoutVersion(objects: set<S3Entry>, bucket: string, key: string, version: string): set<S3Entry> {
    set e | e in objects && !(IsKey(e, bucket, key) && e.version == version)
  }

  class Cloud {
    var s: State
    ghost var heard: seq<Heard>
    /** How many calls have failed; "not found" is an answer. */
    ghost var failures: nat
    const callTime: nat
    const latency: nat
    /** Calls may fail, but what get-ota-update replies is true. */
    const honest: bool
    /** A healthy service answers every call, truthfully, within callTime, and finishes
        background work that it starts within latency. */
    var healthy: bool

    constructor (initial: State, callTime: nat, latency: nat, honest: bool, healthy: bool)
      ensures s == initial && this.callTime == callTime && this.latency == latency
      ensures this.honest == honest && this.healthy == healthy && heard == [] && failures == 0
    {
      s := initial;
      heard := [];
      failures := 0;
      this.callTime := callTime;
      this.latency := latency;
      this.honest := honest;
      this.healthy := healthy;
    }

    /** The service stops failing: from now on it is healthy, and if this update is
        pending it is due within the latency. */
    method StopFailing(id: string)
      modifies this`s, this`healthy
      ensures healthy && s == old(s).(otas := s.otas)
      ensures id !in old(s).otas ==> s.otas == old(s).otas
      ensures id in old(s).otas ==>
                && id in s.otas && s.otas == old(s).otas[id := s.otas[id]]
                && s.otas[id] == old(s).otas[id].(due := s.otas[id].due) && s.otas[id].due <= s.clock + latency
    {
      healthy := true;
      if id in s.otas && s.otas[id].due > s.clock + latency {
        s := s.(otas := s.otas[id := s.otas[id].(due := s.clock + latency)]);
      }
    }

    ghost predicate TimePassed(before: State)
      reads this
    {
      before.clock <= s.clock && (healthy ==> s.clock <= before.clock + callTime)
    }

    method AnyNat() returns (n: nat)
    {
      var i: int := *;
      n := if i < 0 then 0 else i;
    }

    method Advance()
      modifies this`s
      ensures TimePassed(old(s)) && s == old(s).(clock := s.clock)
    {
      var d := AnyNat();
      if healthy && d > callTime {
        d := callTime;
      }
      s := s.(clock := s.clock + d);
    }

    method Sleep(seconds: nat)
      modifies this`s
      ensures old(s).clock + seconds <= s.clock && s == old(s).(clock := s.clock)
      ensures healthy ==> s.clock == old(s).clock + seconds
    {
      var more := AnyNat();
      s := s.(clock := s.clock + seconds + if healthy then 0 else more);
    }

    method Issue(m: Mutation)
      modifies this`s
      ensures TimePassed(old(s)) && s == old(s).(clock := s.clock, log := old(s).log + [m])
    {
      Advance();
      s := s.(log := s.log + [m]);
    }

    /** Background work on an update moves, at the latest when it is due. */
    method Settle(id: string, now: nat) returns (ghost outcome: Outcome)
      modifies this`s
      ensures Possible(old(s), id, outcome) && s == After(old(s), id, outcome)
      ensures healthy && Pending(old(s), id) && old(s).otas[id].due <= now ==> outcome != Stay
      ensures healthy ==> !outcome.DeleteFails?
    {
      outcome := Stay;
      var move: bool := *;
      if Pending(s, id) && (move || s.otas[id].due <= now) {
        var ota := s.otas[id];
        var well: bool := *;
        var jobId: string := *;
        var jobArn: string := *;
        if ota.status == "DELETE_IN_PROGRESS" {
          outcome := if well || healthy then Vanishes else DeleteFails;
          s := if well || healthy then After(s, id, Vanishes) else After(s, id, DeleteFails);
        } else if well && Possible(s, id, Completes(jobId, jobArn)) {
          outcome := Completes(jobId, jobArn);
          s := After(s, id, Completes(jobId, jobArn));
        } else {
          outcome := CreateFails;
          s := After(s, id, CreateFails);
        }
      }
    }

    /** aws iot get-ota-update */
    method GetOta(id: string) returns (reply: OtaReply, ghost outcome: Outcome)
      modifies this`s, this`failures, this`heard
      ensures TimePassed(old(s)) && heard == old(heard) + [HeardOta(|s.log|, id, reply)]
      ensures Possible(old(s), id, outcome) && s == After(old(s), id, outcome).(clock := s.clock)
      ensures reply.OtaNotFound? ==> id !in s.otas
      ensures healthy ==> !reply.OtaCallFailed? && !outcome.DeleteFails?
      ensures (healthy || honest) && reply.OtaFound? ==> id in s.otas && View(id, s.otas[id], reply.live)
      ensures healthy && Pending(old(s), id) && old(s).otas[id].due <= old(s).clock ==> outcome != Stay
      ensures failures == old(failures) + if reply.OtaCallFailed? then 1 else 0
    {
      var now := s.clock;
      outcome := Settle(id, now);
      Advance();
      var fails: bool := *;
      var anything: Live := *;
      var absent: bool := *;
      var short: bool := *;
      if fails && !healthy {
        reply := OtaCallFailed;
      } else if id !in s.otas && (healthy || honest || absent) {
        reply := OtaNotFound;
      } else if healthy || honest {
        var ota := s.otas[id];
        var failed := ota.status == CREATE_FAILED && short;
        reply := OtaFound(Info(id, ota.status, ota.jobId, ota.jobArn,
                               if failed then NoTargets else Targets([ota.thingArn]),
                               if failed then NoFiles else Files([FileOf(ota)])));
      } else {
        reply := OtaFound(anything);
      }
      heard := heard + [HeardOta(|s.log|, id, reply)];
      failures := failures + if reply.OtaCallFailed? then 1 else 0;
    }

    /** aws iot create-ota-update; the id of an existing update is refused. */
    method CreateOtaUpdate(id: string, ota: Ota) returns (reply: CreateReply, ghost reached: bool)
      modifies this`s, this`failures
      ensures TimePassed(old(s)) && s.log == old(s).log + [CreateOta(id)] && s.objects == old(s).objects
      ensures !reached ==> s == old(s).(clock := s.clock, log := s.log) && reply.CreateCallFailed?
      ensures reached ==>
                && id !in old(s).otas && id in s.otas && s.jobs == old(s).jobs
                && s.otas == old(s).otas[id := s.otas[id]]
                && s.otas[id] == ota.(status := "CREATE_PENDING", jobId := "", jobArn := "", due := s.otas[id].due)
                && (healthy ==> s.otas[id].due <= s.clock + latency)
      ensures reply.Created? ==> reached && (reply == Created("CREATE_PENDING", "", "") || reply == Created("", "", ""))
      ensures healthy && id !in old(s).otas ==> reply.Created?
      ensures failures == old(failures) + if reply.CreateCallFailed? then 1 else 0
    {
      Issue(CreateOta(id));
      reached := false;
      var takes: bool := *;
      if id in s.otas || (!takes && !healthy) {
        reply := CreateCallFailed;
        failures := failures + if reply.CreateCallFailed? then 1 else 0;
        return;
      }
      var delay := AnyNat();
      var pending := ota.(status := "CREATE_PENDING", jobId := "", jobArn := "",
                          due := s.clock + if healthy && delay > latency then latency else delay);
      s := s.(otas := s.otas[id := pending]);
      reached := true;
      var lost: bool := *;
      var silent: bool := *;
      if lost && !healthy {
        reply := CreateCallFailed;
        failures := failures + if reply.CreateCallFailed? then 1 else 0;
        return;
      }
      reply := if silent then Created("", "", "") else Created("CREATE_PENDING", "", "");
      failures := failures + if reply.CreateCallFailed? then 1 else 0;
    }

    /** aws iot delete-ota-update --delete-stream --force-delete-aws-job.  `taken` is
        when the deletion is due and whether it takes the job along, if it happens. */
    method DeleteOtaUpdate(id: string) returns (reply: Ack, ghost taken: Option<(nat, bool)>)
      modifies this`s, this`failures
      ensures TimePassed(old(s))
      ensures taken.None? ==> s == old(s).(clock := s.clock, log := old(s).log + [DeleteOta(id)])
      ensures taken.Some? ==>
                && id in old(s).otas
                && s == Deleted(old(s), id, taken.value.0, taken.value.1).(
                          clock := s.clock, log := old(s).log + [DeleteOta(id)])
      ensures reply.AckNotFound? ==> id !in s.otas
      ensures healthy ==> !reply.AckFailed? && (taken.Some? <==> id in old(s).otas)
      ensures healthy && taken.Some? ==> taken.value.0 <= s.clock + latency && taken.value.1
      ensures failures == old(failures) + if reply.AckFailed? then 1 else 0
    {
      Issue(DeleteOta(id));
      taken := None;
      var takes: bool := *;
      var withJob: bool := *;
      var delay := AnyNat();
      var when := s.clock + if healthy && delay > latency then latency else delay;
      var fails: bool := *;
      if id !in s.otas {
        reply := if fails && !healthy then AckFailed else AckNotFound;
        failures := failures + if reply.AckFailed? then 1 else 0;
        return;
      }
      if takes || healthy {
        s := Deleted(s, id, when, withJob || healthy);
        taken := Some((when, withJob || healthy));
      }
      reply := if fails && !healthy then AckFailed else Done;
      failures := failures + if reply.AckFailed? then 1 else 0;
    }

    /** aws iot describe-job */
    method DescribeJob(id: string) returns (reply: Lookup)
      modifies this`s, this`failures
      ensures TimePassed(old(s))
      ensures s == old(s).(clock := s.clock, jobs := s.jobs)
      ensures s.jobs == old(s).jobs || (id in s.jobs.Keys + old(s).jobs.Keys && s.jobs == old(s).jobs - {id})
      ensures reply.NotFound? ==> id !in s.jobs
      ensures healthy ==> !reply.CallFailed? && (reply.NotFound? <==> id !in s.jobs)
      ensures healthy && id in old(s).jobs && old(s).jobs[id].Deleting? && old(s).jobs[id].due <= old(s).clock ==>
                reply.NotFound?
      ensures failures == old(failures) + if reply.CallFailed? then 1 else 0
    {
      var now := s.clock;
      Advance();
      var move: bool := *;
      if id in s.jobs && s.jobs[id].Deleting? && (move || s.jobs[id].due <= now) {
        s := s.(jobs := s.jobs - {id});
      }
      var fails: bool := *;
      var absent: bool := *;
      if fails && !healthy {
        reply := CallFailed;
        failures := failures + if reply.CallFailed? then 1 else 0;
        return;
      }
      reply := if id !in s.jobs && (absent || healthy) then NotFound else Present;
      failures := failures + if reply.CallFailed? then 1 else 0;
    }

    /** aws iot delete-job --force */
    method ForceDeleteJob(id: string) returns (reply: Ack, ghost due: Option<nat>)
      modifies this`s, this`failures
      ensures TimePassed(old(s))
      ensures due.None? ==> s == old(s).(clock := s.clock, log := old(s).log + [DeleteJob(id)])
      ensures due.Some? ==>
                && id in old(s).jobs
                && s == old(s).(clock := s.clock, log := old(s).log + [DeleteJob(id)],
                                jobs := old(s).jobs[id := Deleting(due.value)])
      ensures reply.AckNotFound? ==> id !in s.jobs
      ensures healthy ==> !reply.AckFailed? && (due.Some? <==> id in old(s).jobs)
      ensures healthy && due.Some? ==> due.value <= s.clock + latency
      ensures failures == old(failures) + if reply.AckFailed? then 1 else 0
    {
      Issue(DeleteJob(id));
      due := None;
      var takes: bool := *;
      var delay := AnyNat();
      var when := s.clock + if healthy && delay > latency then latency else delay;
      if id !in s.jobs {
        var fails: bool := *;
        reply := if fails && !healthy then AckFailed else AckNotFound;
        failures := failures + if reply.AckFailed? then 1 else 0;
        return;
      }
      if takes || healthy {
        s := s.(jobs := s.jobs[id := Deleting(when)]);
        due := Some(when);
      }
      var fails: bool := *;
      reply := if fails && !healthy then AckFailed else Done;
      failures := failures + if reply.AckFailed? then 1 else 0;
    }

    /** aws s3api put-object; an unversioned bucket stores the version "null" and
        returns none. */
    method Put(bucket: string, key: string) returns (reply: PutReply, ghost stored: Option<S3Entry>)
      modifies this`s, this`failures
      ensures TimePassed(old(s))
      ensures stored.None? ==>
                s == old(s).(clock := s.clock, log := old(s).log + [PutObject(bucket, key)]) && reply.PutFailed?
      ensures stored.Some? ==>
                && IsKey(stored.value, bucket, key) && stored.value.version != "" && !stored.value.marker
                && s == old(s).(clock := s.clock, log := old(s).log + [PutObject(bucket, key)],
                                objects := old(s).objects + {stored.value})
      ensures reply.Stored? ==> stored.Some? && (reply.version == "" || reply.version == stored.value.version)
      ensures healthy ==> reply.Stored?
      ensures failures == old(failures) + if reply.PutFailed? then 1 else 0
    {
      Issue(PutObject(bucket, key));
      stored := None;
      var takes: bool := *;
      var version: string := *;
      if !takes && !healthy {
        reply := PutFailed;
        failures := failures + if reply.PutFailed? then 1 else 0;
        return;
      }
      var versioned := version != "";
      var entry := S3Entry(bucket, key, if versioned then version else "null", false);
      s := s.(objects := s.objects + {entry});
      stored := Some(entry);
      var lost: bool := *;
      if lost && !healthy {
        reply := PutFailed;
        failures := failures + if reply.PutFailed? then 1 else 0;
        return;
      }
      reply := Stored(version);
      failures := failures + if reply.PutFailed? then 1 else 0;
    }

    /** aws s3api delete-object.  Without a version id the service removes the current
        object or hides it below a new delete marker. */
    method DeleteS3(bucket: string, key: string, version: string) returns (ok: bool)
      modifies this`s, this`failures
      ensures TimePassed(old(s))
      ensures s == old(s).(clock := s.clock, log := old(s).log + [DeleteObject(bucket, key, version)],
                           objects := s.objects)
      ensures version != "" ==>
                s.objects == old(s).objects || s.objects == WithoutVersion(old(s).objects, bucket, key, version)
      ensures version != "" && ok ==> s.objects == WithoutVersion(old(s).objects, bucket, key, version)
      ensures forall e :: !IsKey(e, bucket, key) ==> (e in s.objects <==> e in old(s).objects)
      ensures Versioned(old(s)) ==> Versioned(s)
      ensures healthy ==> ok
      ensures failures == old(failures) + if !ok then 1 else 0
    {
      Issue(DeleteObject(bucket, key, version));
      var takes: bool := *;
      var lost: bool := *;
      if takes || healthy {
        var hidden: string := *;
        s := s.(objects := if version != "" then WithoutVersion(s.objects, bucket, key, version)
                           else if hidden == "" then WithoutVersion(s.objects, bucket, key, "null")
                           else s.objects + {S3Entry(bucket, key, hidden, true)});
        ok := healthy || !lost;
        failures := failures + if !ok then 1 else 0;
        return;
      }
      ok := false;
      failures := failures + if !ok then 1 else 0;
    }

    /** aws s3api list-object-versions, filtered to one key. */
    method ListKey(bucket: string, key: string) returns (reply: Option<seq<PagedListing.Entry>>)
      requires Versioned(s)
      modifies this`s, this`failures, this`heard
      ensures TimePassed(old(s)) && s == old(s).(clock := s.clock)
      ensures reply.Some? ==> ListsKey(s, bucket, key, reply.value, healthy)
      ensures healthy ==> reply.Some?
      ensures failures == old(failures) + if reply.None? then 1 else 0
      ensures heard == old(heard) + [HeardSource(|s.log|, reply)]
    {
      Advance();
      var entries: seq<PagedListing.Entry> := [];
      var left := set e | e in s.objects && IsKey(e, bucket, key);
      while left != {}
        invariant left <= s.objects && forall e :: e in left ==> IsKey(e, bucket, key)
        invariant forall e :: e in s.objects && IsKey(e, bucket, key) ==> e in left || AsListed(e) in entries
        invariant ListsKeyFrom(s, bucket, key, entries)
        decreases left
      {
        var e :| e in left;
        left := left - {e};
        entries := entries + [AsListed(e)];
      }
      if healthy {
        reply := Some(entries);
        failures := failures + if reply.None? then 1 else 0;
        heard := heard + [HeardSource(|s.log|, reply)];
        return;
      }
      var fails: bool := *;
      var stale: PagedListing.Entry := *;
      if fails {
        reply := None;
        failures := failures + if reply.None? then 1 else 0;
        heard := heard + [HeardSource(|s.log|, reply)];
        return;
      }
      reply := Some(if stale.key == key && stale.versionId != "" then entries + [stale] else entries);
      failures := failures + if reply.None? then 1 else 0;
      heard := heard + [HeardSource(|s.log|, reply)];
    }

    /** aws s3api head-object of the current object. */
    method Head(bucket: string, key: string) returns (reply: Lookup)
      modifies this`s, this`failures, this`heard
      ensures TimePassed(old(s)) && s == old(s).(clock := s.clock)
      ensures healthy ==> !reply.CallFailed? && (KeyAbsent(s, bucket, key) ==> reply.NotFound?)
      ensures failures == old(failures) + if reply.CallFailed? then 1 else 0
      ensures heard == old(heard) + [HeardHead(|s.log|, reply)]
    {
      Advance();
      var anything: Lookup := *;
      reply := if healthy && KeyAbsent(s, bucket, key) then NotFound
             else if healthy then Present
             else anything;
      failures := failures + if reply.CallFailed? then 1 else 0;
      heard := heard + [HeardHead(|s.log|, reply)];
    }

    /** aws signer describe-signing-job; nothing is assumed about the reply. */
    method DescribeSigningJob(id: string) returns (reply: SigningReply)
      modifies this`s, this`failures, this`heard
      ensures TimePassed(old(s)) && s == old(s).(clock := s.clock)
      ensures heard == old(heard) + [HeardSigner(|s.log|, id, reply)]
      ensures failures == old(failures) + if reply.SigningCallFailed? then 1 else 0
    {
      Advance();
      reply := *;
      heard := heard + [HeardSigner(|s.log|, id, reply)];
      failures := failures + if reply.SigningCallFailed? then 1 else 0;
    }

    /** AWS Signer may publish an object below the prefix at any time. */
    method Publish(bucket: string, prefix: string) returns (published: set<S3Entry>)
      modifies this`s
      ensures forall e :: e in published ==> Below(e, bucket, prefix) && e.version != "" && !e.marker
      ensures s == old(s).(objects := old(s).objects + published)
    {
      published := {};
      var output: S3Entry := *;
      if Below(output, bucket, prefix) && output.version != "" && !output.marker {
        s := s.(objects := s.objects + {output});
        published := {output};
      }
    }

    /** The paged listing of the versions below a prefix. */
    method ListVersions(bucket: string, prefix: string)
      returns (reply: Option<seq<PagedListing.Entry>>, ghost published: set<S3Entry>)
      requires Versioned(s)
      modifies this`s, this`failures, this`heard
      ensures TimePassed(old(s)) && Versioned(s)
      ensures heard == old(heard) + [HeardVersions(|s.log|, s.clock, published)]
      ensures forall e :: e in published ==> Below(e, bucket, prefix)
      ensures s == old(s).(clock := s.clock, objects := old(s).objects + published)
      ensures reply.Some? ==> ListsPrefix(s, bucket, prefix, reply.value, healthy)
      ensures healthy ==> reply.Some?
      ensures failures == old(failures) + if reply.None? then 1 else 0
    {
      Advance();
      published := Publish(bucket, prefix);
      heard := heard + [HeardVersions(|s.log|, s.clock, published)];
      var entries: seq<PagedListing.Entry> := [];
      var left := set e | e in s.objects && Below(e, bucket, prefix);
      while left != {}
        invariant left <= s.objects && forall e :: e in left ==> Below(e, bucket, prefix)
        invariant forall e :: e in s.objects && Below(e, bucket, prefix) ==> e in left || AsListed(e) in entries
        invariant forall l :: l in entries ==> PagedListing.OwnedBy(l, prefix)
        invariant forall l :: l in entries ==> exists e :: e in s.objects && Below(e, bucket, prefix) && AsListed(e) == l
        decreases left
      {
        var e :| e in left;
        left := left - {e};
        entries := entries + [AsListed(e)];
      }
      var fails: bool := *;
      reply := if fails && !healthy then None else Some(entries);
      failures := failures + if reply.None? then 1 else 0;
    }

    /** The paged listing of the current keys below a prefix.  What has just been
        published is current; an older object may be hidden by a delete marker. */
    method ListCurrent(bucket: string, prefix: string)
      returns (reply: Option<seq<string>>, ghost published: set<S3Entry>)
      requires Versioned(s)
      modifies this`s, this`failures, this`heard
      ensures TimePassed(old(s)) && Versioned(s) && heard == old(heard) + [HeardKeys(|s.log|, published)]
      ensures forall e :: e in published ==> Below(e, bucket, prefix)
      ensures s == old(s).(clock := s.clock, objects := old(s).objects + published)
      ensures reply.Some? ==> forall e :: e in published ==> e.key in reply.value
      ensures reply.Some? && healthy ==> ListsObjects(s, bucket, prefix, reply.value)
      ensures reply.Some? ==> forall k :: k in reply.value ==> StartsWith(k, prefix)
      ensures healthy ==> reply.Some?
      ensures failures == old(failures) + if reply.None? then 1 else 0
    {
      Advance();
      var news := Publish(bucket, prefix);
      published := news;
      heard := heard + [HeardKeys(|s.log|, news)];
      var keys: seq<string> := [];
      var left := set e | e in s.objects && Below(e, bucket, prefix) && !e.marker;
      while left != {}
        invariant left <= s.objects && forall e :: e in left ==> Below(e, bucket, prefix) && !e.marker
        invariant forall e :: e in news ==> e in left || e.key in keys
        invariant ListsObjects(s, bucket, prefix, keys)
        invariant forall k :: k in keys ==> StartsWith(k, prefix)
        decreases left
      {
        var e :| e in left;
        left := left - {e};
        var hidden: bool := *;
        if e in news || !hidden {
          keys := keys + [e.key];
        }
      }
      var fails: bool := *;
      reply := if fails && !healthy then None else Some(keys);
      failures := failures + if reply.None? then 1 else 0;
    }
  }

  ghost predicate ListsKeyFrom(s: State, bucket: string, key: string, entries: seq<PagedListing.Entry>) {
    forall l :: l in entries ==>
      l.key == key && l.versionId != "" && exists e :: e in s.objects && IsKey(e, bucket, key) && AsListed(e) == l
  }
}
