/** The reconciler as it is written, each of its calls ending as it may, tied to the steps of CronJobs. */
module CronJobObject {
  import opened Wrappers
  import opened CronJobs

  /** Where a reconcile stands in the cluster and in its stored policy. */
  datatype Point = Point(cluster: Cluster, stored: Policy, run: Run)

  /** From one point to another by steps with these replies, nobody else acting in between. */
  ghost predicate Drives(a: Point, p: string, replies: seq<Reply>, b: Point)
    decreases |replies|
  {
    if replies == [] then a == b
    else
      var (c, stored, run) := Work(a.cluster, a.stored, p, a.run, replies[0]);
      Fits(p, a.run, replies[0]) && Drives(Point(c, stored, run), p, replies[1..], b)
  }

  lemma {:induction false} DrivesOn(a: Point, p: string, x: seq<Reply>, b: Point, y: seq<Reply>, c: Point)
    requires Drives(a, p, x, b) && Drives(b, p, y, c)
    ensures Drives(a, p, x + y, c)
    decreases |x|
  {
    if x == [] {
      assert x + y == y;
    } else {
      assert (x + y)[0] == x[0] && (x + y)[1..] == x[1..] + y;
      var (d, stored, run) := Work(a.cluster, a.stored, p, a.run, x[0]);
      DrivesOn(Point(d, stored, run), p, x[1..], b, y, c);
    }
  }

  lemma DrivesOne(a: Point, p: string, r: Reply)
    requires Fits(p, a.run, r)
    ensures var (c, stored, run) := Work(a.cluster, a.stored, p, a.run, r); Drives(a, p, [r], Point(c, stored, run))
  {
    var (c, stored, run) := Work(a.cluster, a.stored, p, a.run, r);
    assert [r][1..] == [];
    assert Drives(Point(c, stored, run), p, [], Point(c, stored, run));
  }

  lemma {:induction false} EnterAnew(run: Run, rank: nat)
    ensures Enter(run, rank) == Enter(Run(run.mem, run.need, Done), rank)
    decreases |KINDS| - rank
  {
    if rank < |KINDS| {
      EnterAnew(run, rank + 1);
    }
  }

  /** About to deal with the type at `rank`. */
  function At(mem: Policy, need: bool, rank: nat): Run {
    Enter(Run(mem, need, Done), rank)
  }

  lemma ReferAnew(run: Run, kind: Kind, key: Key, need: bool, refers: bool)
    ensures Refer(run, kind, key, need, refers) ==
      if run.mem.executor.Some? then At(run.mem, run.need || need, Rank(kind) + 1)
      else if refers then At(run.mem.(executor := Some(key)), true, Rank(kind) + 1)
      else At(run.mem, run.need, Rank(kind) + 1)
  {
    EnterAnew(run.(need := run.need || need), Rank(kind) + 1);
    EnterAnew(run.(mem := run.mem.(executor := Some(key)), need := true), Rank(kind) + 1);
    EnterAnew(run, Rank(kind) + 1);
  }

  class Reconciler {
    var cluster: Cluster
    var policies: map<string, Policy>

    constructor ()
      ensures cluster == map[] && policies == map[]
    {
      cluster, policies := map[], map[];
    }

    /** checkCronJob on what the caching client shows: not `ok` when the call fails, None when there is no job. */
    method CheckCronJob(p: string, policy: Policy, kind: Kind) returns (ok: bool, key: Option<Key>, r: Reply)
      ensures r.outcome.Succeeded() <==> ok
      ensures forall need :: Fits(p, Run(policy, need, Check(kind)), r)
      ensures forall need :: Found(r.seen, p, Run(policy, need, Check(kind)), kind, r.pick) == key
      ensures key.Some? ==> key.value in r.seen
    {
      var o: Outcome, seen: Cluster, generated: bool, refers: bool := *, *, *, *;
      r := Reply(o, seen, Key("", ""), generated, refers, "");
      ok := o.Succeeded();
      if kind == Inspection && policy.executor.Some? {
        return ok, if policy.executor.value in seen then policy.executor else None, r;
      }
      if Has(seen, p, kind) {
        var pick: Key :| pick in seen && Match(seen, pick, p, kind);
        return ok, Some(pick), r.(pick := pick);
      }
      key := None;
    }

    /** Create of a new CronJob, and the Get that follows it: the job that came back. */
    method CreateCronJob(p: string, policy: Policy, kind: Kind, ghost run: Run, ghost stored: Policy)
      returns (key: Option<Key>, refers: bool, ghost replies: seq<Reply>)
      requires run == Run(policy, run.need, Create(kind))
      modifies this`cluster
      ensures Drives(Point(old(cluster), stored, run), p, replies,
                     Point(cluster, stored, if key.None? then At(policy, run.need, Rank(kind) + 1)
                                            else Refer(run, kind, key.value, false, refers)))
    {
      var o: Outcome, name: string := *, *;
      refers := *;
      ghost var r := Reply(o, cluster, Key("", ""), true, refers, name);
      var wanted := Key(policy.spec.workNamespace, name);
      ghost var start := Point(cluster, stored, run);
      DrivesOne(start, p, r);
      EnterAnew(run, Rank(kind) + 1);
      replies := [r];
      var free := wanted !in cluster;
      if o.Applied() && free {
        cluster := cluster[wanted := CronJob(p, kind, policy.spec.suspend)];
      }
      if !o.Succeeded() || !free {
        return None, refers, replies;
      }
      ghost var fetching := run.(pc := Fetch(kind, wanted));
      var seen: Cluster;
      o, seen := *, *;
      r := Reply(o, seen, Key("", ""), true, refers, "");
      DrivesOne(Point(cluster, stored, fetching), p, r);
      EnterAnew(fetching, Rank(kind) + 1);
      ReferAnew(run, kind, wanted, false, refers);
      ReferAnew(fetching, kind, wanted, false, refers);
      key := if o.Succeeded() && wanted in seen then Some(wanted) else None;
      DrivesOn(start, p, replies, Point(cluster, stored, fetching), [r],
               Point(cluster, stored, if key.None? then At(policy, run.need, Rank(kind) + 1)
                                      else Refer(run, kind, wanted, false, refers)));
      replies := replies + [r];
    }

    /** cronjobForInspection: whether the status needs an update, and the policy with its reference. */
    method CronjobForInspection(p: string, policy: Policy, kind: Kind, ghost before: bool, ghost stored: Policy)
      returns (need: bool, after: Policy, ghost replies: seq<Reply>)
      modifies this`cluster
      ensures Drives(Point(old(cluster), stored, At(policy, before, Rank(kind))), p, replies,
                     Point(cluster, stored, At(after, before || need, Rank(kind) + 1)))
    {
      need, after, replies := false, policy, [];
      if kind !in policy.spec.images {
        return;
      }
      ghost var run := Run(policy, before, Check(kind));
      ghost var start := Point(cluster, stored, run);
      assert At(policy, before, Rank(kind)) == run;
      var ok, key, r := CheckCronJob(p, policy, kind);
      DrivesOne(start, p, r);
      replies := [r];
      EnterAnew(run, Rank(kind) + 1);
      if !ok || !r.generated {
        return;
      }
      var changed, refers := false, r.refers;
      if key.None? {
        ghost var more;
        ghost var creating := run.(pc := Create(kind));
        ghost var middle := Point(cluster, stored, creating);
        key, refers, more := CreateCronJob(p, policy, kind, creating, stored);
        DrivesOn(start, p, replies, middle, more,
                 Point(cluster, stored, if key.None? then At(policy, before, Rank(kind) + 1)
                                        else Refer(creating, kind, key.value, false, refers)));
        replies := replies + more;
        if key.None? {
          return;
        }
        ReferAnew(creating, kind, key.value, false, refers);
      } else {
        changed := r.seen[key.value].suspend != policy.spec.suspend;
      }
      ReferAnew(run, kind, key.value, changed, refers);
      if policy.executor.None? {
        if !refers {
          return;
        }
        return true, policy.(executor := key), replies;
      }
      need := changed;
    }

    /** updatePolicyStatus */
    method UpdatePolicyStatus(p: string, policy: Policy, need: bool) returns (ghost replies: seq<Reply>)
      requires p in policies
      modifies this`policies
      ensures policies.Keys == old(policies).Keys
      ensures forall q :: q in policies && q != p ==> policies[q] == old(policies)[q]
      ensures Drives(Point(cluster, old(policies)[p], At(policy, need, |KINDS|)), p, replies,
                     Point(cluster, policies[p], At(policy, need, |KINDS|).(pc := Done)))
    {
      replies := [];
      if need || policy.phase.Empty? {
        var o: Outcome := *;
        ghost var r := Reply(o, cluster, Key("", ""), true, true, "");
        DrivesOne(Point(cluster, policies[p], At(policy, need, |KINDS|)), p, r);
        replies := [r];
        if o.Applied() {
          policies := policies[p := policies[p].(executor := policy.executor, phase := PhaseOf(policy.spec))];
        }
      }
    }

    /** Reconcile, from the point where the work namespace, the settings and the access rights are in place.
        The error of a type does not keep the next one from being processed. */
    method Reconcile(p: string) returns (ghost other: bool, ghost replies: seq<Reply>, ghost end: Run)
      requires p in policies
      modifies this
      ensures policies.Keys == old(policies).Keys
      ensures forall q :: q in policies && q != p ==> policies[q] == old(policies)[q]
      ensures Drives(Point(old(cluster), old(policies)[p], StartRun(old(policies)[p], other)), p, replies,
                     Point(cluster, policies[p], end))
      ensures end.pc == Done
    {
      ghost var stored := policies[p];
      ghost var more;
      var kubebench: bool, pkgload: bool := *, *;
      other := kubebench || pkgload;
      var policy := policies[p];
      ghost var start := Point(cluster, stored, At(policy, other, 0));
      var forInspection, forRisk, forWorkloadScanner;
      forInspection, policy, replies := CronjobForInspection(p, policy, Inspection, other, stored);
      ghost var need := other || forInspection;
      ghost var middle := Point(cluster, stored, At(policy, need, 1));
      forRisk, policy, more := CronjobForInspection(p, policy, Risk, need, stored);
      need := need || forRisk;
      DrivesOn(start, p, replies, middle, more, Point(cluster, stored, At(policy, need, 2)));
      replies := replies + more;
      middle := Point(cluster, stored, At(policy, need, 2));
      forWorkloadScanner, policy, more := CronjobForInspection(p, policy, WorkloadScanner, need, stored);
      need := need || forWorkloadScanner;
      DrivesOn(start, p, replies, middle, more, Point(cluster, stored, At(policy, need, |KINDS|)));
      replies := replies + more;
      middle := Point(cluster, stored, At(policy, need, |KINDS|));
      more := UpdatePolicyStatus(p, policy, forInspection || kubebench || forRisk || forWorkloadScanner || pkgload);
      end := At(policy, need, |KINDS|).(pc := Done);
      DrivesOn(start, p, replies, middle, more, Point(cluster, policies[p], end));
      replies := replies + more;
    }
  }
}
