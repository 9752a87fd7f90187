/** manage_rx671_ota_event_policy: one tagged policy, verified before it is touched.

Detaching a target becomes visible late: for a while the target is still listed, and
deleting the policy is still refused.  A call may fail without effect, take effect and
lose its response, or succeed. */
module EventPolicy {
  import opened Wrappers

  // ---------------------------------------------------------------- the service

  /** What canonical JSON distinguishes of a policy document. */
  datatype Document = JobEvents(subscribe: string, receive: string) | OtherDocument(text: string)

  /** `lingering` targets are detached but may still be listed until `shownUntil`;
      until `blockedUntil` deletion may be refused. */
  datatype Policy = Policy(
    arn: string,
    document: Document,
    tags: map<string, string>,
    versions: seq<bool>,
    targets: set<string>,
    lingering: set<string>,
    shownUntil: nat,
    blockedUntil: nat)

  datatype Mutation =
    | CreatePolicy(name: string)
    | AttachPolicy(name: string, target: string)
    | DetachPolicy(name: string, target: string)
    | DeletePolicy(name: string)

  datatype State = State(policies: map<string, Policy>, clock: nat, log: seq<Mutation>)

  datatype GetReply = GetFailed | NoPolicy | Got(arn: string)

  datatype DeleteReply = Deleted | NotFoundCode | ConflictCode | OtherCode

  class PolicyCloud {
    var s: State
    const account: string
    /** A healthy service answers; what is detached is gone for good within `lag`. */
    var healthy: bool
    const lag: nat
    /** How many calls have failed; a conflict or "not found" on deletion is an answer. */
    ghost var failures: nat

    constructor (initial: State, account: string, healthy: bool, lag: nat)
      ensures s == initial && this.account == account && this.healthy == healthy && this.lag == lag
      ensures failures == 0
    {
      failures := 0;
      s := initial;
      this.account := account;
      this.healthy := healthy;
      this.lag := lag;
    }

    method CallFails() returns (fails: bool)
      ensures healthy ==> !fails
    {
      var f: bool := *;
      fails := f && !healthy;
    }

    /** The service stops failing, and earlier detachments of this policy settle in time. */
    method StopFailing(name: string)
      modifies this`s, this`healthy
      ensures healthy && s == old(s).(policies := s.policies)
      ensures name !in old(s).policies ==> s.policies == old(s).policies
      ensures name in old(s).policies ==>
                && name in s.policies && s.policies == old(s).policies[name := s.policies[name]]
                && s.policies[name] == old(s).policies[name].(shownUntil := s.policies[name].shownUntil,
                                                              blockedUntil := s.policies[name].blockedUntil)
                && SettlesBy(s, name, s.clock + lag)
    {
      healthy := true;
      if name in s.policies {
        var p := s.policies[name];
        s := s.(policies := s.policies[name := p.(shownUntil := Least(p.shownUntil, s.clock + lag),
                                                  blockedUntil := Least(p.blockedUntil, s.clock + lag))]);
      }
    }

    method Sleep(seconds: nat)
      modifies this`s
      ensures s == old(s).(clock := s.clock) && old(s).clock + seconds <= s.clock
    {
      var more: int := *;
      s := s.(clock := s.clock + seconds + if more < 0 then 0 else more);
    }

    method GetPolicy(name: string) returns (r: GetReply)
      modifies this`failures
      ensures r.NoPolicy? ==> name !in s.policies
      ensures r.Got? ==> name in s.policies && s.policies[name].arn == r.arn
      ensures healthy ==> !r.GetFailed?
      ensures failures == old(failures) + if r.GetFailed? then 1 else 0
    {
      var fails := CallFails();
      r := if fails then GetFailed else if name in s.policies then Got(s.policies[name].arn) else NoPolicy;
      failures := failures + if r.GetFailed? then 1 else 0;
    }

    method GetDocument(name: string) returns (r: Option<Document>)
      modifies this`failures
      ensures r.Some? ==> name in s.policies && s.policies[name].document == r.value
      ensures healthy && name in s.policies ==> r.Some?
      ensures failures == old(failures) + if r.None? then 1 else 0
    {
      var fails := CallFails();
      r := if fails || name !in s.policies then None else Some(s.policies[name].document);
      failures := failures + if r.None? then 1 else 0;
    }

    method ListTags(name: string) returns (r: Option<map<string, string>>)
      modifies this`failures
      ensures r.Some? ==> name in s.policies && s.policies[name].tags == r.value
      ensures healthy && name in s.policies ==> r.Some?
      ensures failures == old(failures) + if r.None? then 1 else 0
    {
      var fails := CallFails();
      r := if fails || name !in s.policies then None else Some(s.policies[name].tags);
      failures := failures + if r.None? then 1 else 0;
    }

    method ListVersions(name: string) returns (r: Option<seq<bool>>)
      modifies this`failures
      ensures r.Some? ==> name in s.policies && s.policies[name].versions == r.value
      ensures healthy && name in s.policies ==> r.Some?
      ensures failures == old(failures) + if r.None? then 1 else 0
    {
      var fails := CallFails();
      r := if fails || name !in s.policies then None else Some(s.policies[name].versions);
      failures := failures + if r.None? then 1 else 0;
    }

    /** Every target is listed; lingering ones may be. */
    method ListTargets(name: string) returns (r: Option<seq<string>>)
      modifies this`failures
      ensures r.Some? ==> name in s.policies && ListsTargets(s.policies[name], r.value, healthy, s.clock)
      ensures healthy && name in s.policies ==> r.Some?
      ensures failures == old(failures) + if r.None? then 1 else 0
    {
      var fails := CallFails();
      if fails || name !in s.policies {
        r := None;
        failures := failures + if r.None? then 1 else 0;
        return;
      }
      var p := s.policies[name];
      var late: bool := *;
      var stale := if late && s.clock < p.shownUntil then p.lingering else {};
      var left := p.targets + stale;
      var list: seq<string> := [];
      while left != {}
        invariant left <= p.targets + stale && |list| + |left| == |p.targets + stale|
        invariant forall x :: x in p.targets + stale <==> x in list || x in left
        decreases left
      {
        var x :| x in left;
        left := left - {x};
        list := list + [x];
      }
      assert Shows(p, list, p.targets + stale, healthy, s.clock);
      r := Some(list);
      failures := failures + if r.None? then 1 else 0;
    }

    /** The policies attached to a target. */
    method ListAttached(target: string) returns (r: Option<set<string>>)
      modifies this`failures
      ensures r.Some? ==>
                forall n :: n in r.value ==>
                  n in s.policies && target in s.policies[n].targets + s.policies[n].lingering
      ensures r.Some? ==> forall n :: n in s.policies && target in s.policies[n].targets ==> n in r.value
      ensures healthy ==> r.Some?
      ensures failures == old(failures) + if r.None? then 1 else 0
    {
      var fails := CallFails();
      var late: bool := *;
      if fails {
        r := None;
        failures := failures + if r.None? then 1 else 0;
        return;
      }
      return Some(set n | n in s.policies
                        && (target in s.policies[n].targets || (late && target in s.policies[n].lingering)));
    }

    method Create(name: string, document: Document, tags: map<string, string>)
      returns (r: Option<string>, ghost reached: bool)
      modifies this`s, this`failures
      ensures s == old(s).(policies := s.policies, log := old(s).log + [CreatePolicy(name)])
      ensures s.policies == if reached then old(s).policies[name := NewPolicy(account, name, document, tags)]
                            else old(s).policies
      ensures reached ==> name !in old(s).policies
      ensures r.Some? ==> reached && r.value == PolicyArn(account, name)
      ensures healthy && name !in old(s).policies ==> r.Some?
      ensures failures == old(failures) + if r.None? then 1 else 0
    {
      s := s.(log := s.log + [CreatePolicy(name)]);
      reached := false;
      var takes: bool := *;
      if name in s.policies || (!takes && !healthy) {
        r := None;
        failures := failures + if r.None? then 1 else 0;
        return;
      }
      s := s.(policies := s.policies[name := NewPolicy(account, name, document, tags)]);
      reached := true;
      var lost := CallFails();
      r := if lost then None else Some(PolicyArn(account, name));
      failures := failures + if r.None? then 1 else 0;
    }

    method Attach(name: string, target: string) returns (ok: bool, ghost reached: bool)
      modifies this`s, this`failures
      ensures s == old(s).(policies := s.policies, log := old(s).log + [AttachPolicy(name, target)])
      ensures !reached ==> s.policies == old(s).policies && !ok
      ensures reached ==>
                && name in old(s).policies
                && s.policies == old(s).policies[name := old(s).policies[name].(
                     targets := old(s).policies[name].targets + {target})]
      ensures healthy && name in old(s).policies ==> ok
      ensures failures == old(failures) + if !ok then 1 else 0
    {
      s := s.(log := s.log + [AttachPolicy(name, target)]);
      reached := false;
      var takes: bool := *;
      if name !in s.policies || (!takes && !healthy) {
        ok := false;
        failures := failures + if !ok then 1 else 0;
        return;
      }
      s := s.(policies := s.policies[name := s.policies[name].(targets := s.policies[name].targets + {target})]);
      reached := true;
      var lost := CallFails();
      ok := !lost;
      failures := failures + if !ok then 1 else 0;
    }

    method Detach(name: string, target: string) returns (ok: bool, ghost reached: bool)
      modifies this`s, this`failures
      ensures s == old(s).(policies := s.policies, log := old(s).log + [DetachPolicy(name, target)])
      ensures !reached ==> s.policies == old(s).policies && !ok
      ensures reached ==>
                && name in old(s).policies && name in s.policies
                && s.policies == old(s).policies[name := s.policies[name]]
                && IsDetached(old(s).policies[name], s.policies[name], target)
                && (healthy && SettlesBy(old(s), name, s.clock + lag) ==> SettlesBy(s, name, s.clock + lag))
      ensures healthy && name in old(s).policies ==> ok
      ensures failures == old(failures) + if !ok then 1 else 0
    {
      s := s.(log := s.log + [DetachPolicy(name, target)]);
      reached := false;
      var takes: bool := *;
      if name !in s.policies || (!takes && !healthy) {
        ok := false;
        failures := failures + if !ok then 1 else 0;
        return;
      }
      var a: int := *;
      var b: int := *;
      var shown: nat := if a < 0 then 0 else a;
      var blocked: nat := if b < 0 then 0 else b;
      var p := s.policies[name];
      s := s.(policies := s.policies[name := p.(
                targets := p.targets - {target}, lingering := p.lingering + {target},
                shownUntil := if healthy then Least(shown, s.clock + lag) else shown,
                blockedUntil := if healthy then Least(blocked, s.clock + lag) else blocked)]);
      reached := true;
      var lost := CallFails();
      ok := !lost;
      failures := failures + if !ok then 1 else 0;
    }

    /** Refused while a target, or a detachment that has not settled, is in the way. */
    method Delete(name: string) returns (r: DeleteReply)
      modifies this`s, this`failures
      ensures s == old(s).(policies := s.policies, log := old(s).log + [DeletePolicy(name)])
      ensures s.policies == old(s).policies || s.policies == old(s).policies - {name}
      ensures r.Deleted? || r.NotFoundCode? ==> name !in s.policies
      ensures r.ConflictCode? ==> s.policies == old(s).policies
      ensures healthy ==> !r.OtherCode?
      ensures healthy && name in old(s).policies && old(s).policies[name].targets == {} ==>
                old(s).policies[name].blockedUntil <= old(s).clock ==> r.Deleted?
      ensures failures == old(failures) + if r.OtherCode? then 1 else 0
    {
      s := s.(log := s.log + [DeletePolicy(name)]);
      var fails := CallFails();
      var takes: bool := *;
      var late: bool := *;
      if name !in s.policies {
        r := if fails then OtherCode else NotFoundCode;
        failures := failures + if r.OtherCode? then 1 else 0;
        return;
      }
      if s.policies[name].targets != {} || (late && s.clock < s.policies[name].blockedUntil) {
        r := if fails then OtherCode else ConflictCode;
        failures := failures + if r.OtherCode? then 1 else 0;
        return;
      }
      if takes || !fails {
        s := s.(policies := s.policies - {name});
      }
      r := if fails then OtherCode else Deleted;
      failures := failures + if r.OtherCode? then 1 else 0;
    }
  }

  function Least(a: nat, b: nat): nat {
    if a < b then a else b
  }

  function PolicyArn(account: string, name: string): string {
    account + ":policy/" + name
  }

  function NewPolicy(account: string, name: string, document: Document, tags: map<string, string>): Policy {
    Policy(PolicyArn(account, name), document, tags, [true], {}, {}, 0, 0)
  }

  predicate IsDetached(p: Policy, q: Policy, target: string) {
    q == p.(targets := p.targets - {target}, lingering := p.lingering + {target}, shownUntil := q.shownUntil,
            blockedUntil := q.blockedUntil)
  }

  predicate SettlesBy(s: State, name: string, deadline: nat) {
    name in s.policies ==> s.policies[name].shownUntil <= deadline && s.policies[name].blockedUntil <= deadline
  }

  /** The list shows exactly this set: all targets, and perhaps lingering ones. */
  ghost predicate Shows(p: Policy, list: seq<string>, shown: set<string>, healthy: bool, clock: nat) {
    && p.targets <= shown <= p.targets + p.lingering
    && |list| == |shown| && (forall x :: x in list <==> x in shown)
    && (healthy && p.shownUntil <= clock ==> shown == p.targets)
  }

  ghost predicate ListsTargets(p: Policy, list: seq<string>, healthy: bool, clock: nat) {
    exists shown :: Shows(p, list, shown, healthy, clock)
  }
}
