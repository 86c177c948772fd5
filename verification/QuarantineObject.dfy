/** The enforcer as it is written: loops over the pods of a workload around calls of the API server. */
module QuarantineObject {
  import opened Wrappers
  import opened Quarantine
  import opened QuarantineSafety
  import opened QuarantineEffect
  import opened QuarantineLabels

  /** The API server holds the cluster; each of its calls may be refused or lose its reply. */
  class Client {
    var cluster: Cluster

    constructor (cluster: Cluster)
      ensures this.cluster == cluster
    {
      this.cluster := cluster;
    }

    method GetPod(p: PodRef) returns (r: Option<Option<Labels>>, o: Outcome)
      ensures r == if o.Succeeded() && Exists(cluster, p) then Some(PodAt(cluster, p)) else None
    {
      o := *;
      r := if o.Succeeded() && Exists(cluster, p) then Some(PodAt(cluster, p)) else None;
    }

    method UpdatePod(p: PodRef, labels: Labels) returns (ok: bool, o: Outcome)
      modifies this
      ensures ok <==> o.Succeeded() && old(Exists(cluster, p))
      ensures cluster == if old(Exists(cluster, p)) && o.Applied()
        then SetPod(old(cluster), p, labels) else old(cluster)
    {
      o := *;
      ok := o.Succeeded() && Exists(cluster, p);
      if Exists(cluster, p) && o.Applied() {
        cluster := SetPod(cluster, p, labels);
      }
    }

    /** Whether the policy exists; None for an error other than NotFound. */
    method GetPolicy(ns: string) returns (found: Option<bool>, o: Outcome)
      ensures found == if o.Succeeded() && ns != "" then Some(HasPolicy(cluster, ns)) else None
    {
      o := *;
      found := if o.Succeeded() && ns != "" then Some(HasPolicy(cluster, ns)) else None;
    }

    method CreatePolicy(ns: string) returns (ok: bool, o: Outcome)
      modifies this
      ensures ok <==> o.Succeeded() && ns in old(cluster) && !old(HasPolicy(cluster, ns))
      ensures cluster == if ns in old(cluster) && o.Applied() then SetPolicy(old(cluster), ns, true) else old(cluster)
    {
      o := *;
      ok := o.Succeeded() && ns in cluster && !HasPolicy(cluster, ns);
      if ns in cluster && o.Applied() {
        cluster := SetPolicy(cluster, ns, true);
      }
    }

    method DeletePolicy(ns: string) returns (ok: bool, o: Outcome)
      modifies this
      ensures ok <==> o.Succeeded() && old(HasPolicy(cluster, ns))
      ensures cluster == if old(HasPolicy(cluster, ns)) && o.Applied()
        then SetPolicy(old(cluster), ns, false) else old(cluster)
    {
      o := *;
      ok := o.Succeeded() && HasPolicy(cluster, ns);
      if HasPolicy(cluster, ns) && o.Applied() {
        cluster := SetPolicy(cluster, ns, false);
      }
    }

    /** Whether the label selector of the policy finds a pod. */
    method ListSelected(ns: string) returns (some: Option<bool>, o: Outcome)
      ensures some == if o.Succeeded() then Some(AnyListed(cluster, ns)) else None
    {
      o := *;
      some := if o.Succeeded() then Some(AnyListed(cluster, ns)) else None;
    }

    // ---- The enforcer. `os` lists the outcomes of the calls made; `end` says how it ended. ----

    method HasBeenEnforced(t: Task) returns (marked: Option<bool>, ghost os: seq<Outcome>)
      ensures Drive(cluster, CheckFrom(t, t.workload.pods, true), os) ==
              (cluster, if marked.None? then Ended(false) else Decide(t, marked.value))
      ensures marked.Some? ==>
        && (forall p :: p in t.workload.pods ==> Exists(cluster, p))
        && (marked.value <==> forall p :: p in t.workload.pods ==> BothKeys(LabelsOf(PodAt(cluster, p))))
    {
      var pods := t.workload.pods;
      var all := true;
      os := [];
      for k := 0 to |pods|
        invariant Drive(cluster, CheckFrom(t, pods, true), os) == (cluster, CheckFrom(t, pods[k..], all))
        invariant forall i :: 0 <= i < k ==> Exists(cluster, pods[i])
        invariant all <==> forall i :: 0 <= i < k ==> BothKeys(LabelsOf(PodAt(cluster, pods[i])))
      {
        ghost var before := os;
        var l, o := GetPod(pods[k]);
        DriveOneMore(cluster, CheckFrom(t, pods, true), os, o);
        os := os + [o];
        if l.None? {
          return None, os;
        }
        assert pods[k..][1..] == pods[k + 1..];
        KeysByName(l.value);
        all := all && Marked(l.value);
      }
      marked := Some(all);
    }

    method EnsureNetworkPolicy(w: Workload) returns (ok: bool, ghost os: seq<Outcome>)
      modifies this
      ensures Drive(old(cluster), EnsureGet(w), os) ==
              (cluster, if ok then MarkFrom(w, w.pods) else Ended(false))
    {
      os := [];
      var found, o := GetPolicy(w.namespace);
      DriveOneMore(old(cluster), EnsureGet(w), os, o);
      os := [o];
      if found == Some(false) {
        var o2;
        ok, o2 := CreatePolicy(w.namespace);
        DriveOneMore(old(cluster), EnsureGet(w), os, o2);
        os := os + [o2];
      } else {
        ok := found.Some?;
      }
    }

    method Enforce(w: Workload) returns (end: Pc, ghost os: seq<Outcome>)
      modifies this
      ensures Drive(old(cluster), EnsureGet(w), os) == (cluster, end) && !Waiting(end)
    {
      var ok;
      ok, os := EnsureNetworkPolicy(w);
      if !ok {
        return Ended(false), os;
      }
      for k := 0 to |w.pods|
        invariant Drive(old(cluster), EnsureGet(w), os) == (cluster, MarkFrom(w, w.pods[k..]))
      {
        assert w.pods[k..][1..] == w.pods[k + 1..];
        var l, o := GetPod(w.pods[k]);
        DriveOneMore(old(cluster), EnsureGet(w), os, o);
        os := os + [o];
        if l.None? {
          return Ended(false), os;
        }
        if l.value.None? {
          return Crashed, os;
        }
        var labels := l.value.value;
        var updateCounter := 0;
        if CTRL_KEY !in labels {
          labels := labels[CTRL_KEY := VENDOR];
          updateCounter := updateCounter + 1;
        }
        if RISK_KEY !in labels {
          labels := labels[RISK_KEY := RISKY];
          updateCounter := updateCounter + 1;
        }
        if updateCounter > 0 {
          var updated, o2 := UpdatePod(w.pods[k], labels);
          DriveOneMore(old(cluster), EnsureGet(w), os, o2);
          os := os + [o2];
          if !updated {
            return Ended(false), os;
          }
        }
      }
      end := Ended(true);
    }

    method RemoveNetworkPolicy(w: Workload) returns (ok: bool, ghost os: seq<Outcome>)
      modifies this
      ensures Drive(old(cluster), RemoveList(w), os) == (cluster, Ended(ok))
    {
      os := [];
      var some, o := ListSelected(w.namespace);
      DriveOneMore(old(cluster), RemoveList(w), os, o);
      os := [o];
      if some != Some(false) {
        return some.Some?, os;
      }
      var found, o2 := GetPolicy(w.namespace);
      DriveOneMore(old(cluster), RemoveList(w), os, o2);
      os := os + [o2];
      if found != Some(true) {
        return false, os;
      }
      var o3;
      ok, o3 := DeletePolicy(w.namespace);
      DriveOneMore(old(cluster), RemoveList(w), os, o3);
      os := os + [o3];
    }

    method Revoke(w: Workload) returns (end: Pc, ghost os: seq<Outcome>)
      modifies this
      ensures Drive(old(cluster), UnmarkFrom(w, w.pods), os) == (cluster, end) && end.Ended?
    {
      os := [];
      for k := 0 to |w.pods|
        invariant Drive(old(cluster), UnmarkFrom(w, w.pods), os) == (cluster, UnmarkFrom(w, w.pods[k..]))
      {
        assert w.pods[k..][1..] == w.pods[k + 1..];
        var l, o := GetPod(w.pods[k]);
        DriveOneMore(old(cluster), UnmarkFrom(w, w.pods), os, o);
        os := os + [o];
        if l.None? {
          return Ended(false), os;
        }
        var labels := LabelsOf(l.value);
        var updateCounter := 0;
        if CTRL_KEY in labels {
          labels := labels - {CTRL_KEY};
          updateCounter := updateCounter + 1;
        }
        if RISK_KEY in labels {
          labels := labels - {RISK_KEY};
          updateCounter := updateCounter + 1;
        }
        if updateCounter > 0 {
          assert labels == WithoutMarks(LabelsOf(l.value));
          var updated, o2 := UpdatePod(w.pods[k], labels);
          DriveOneMore(old(cluster), UnmarkFrom(w, w.pods), os, o2);
          os := os + [o2];
          if !updated {
            return Ended(false), os;
          }
        }
      }
      ghost var c1 := cluster;
      var ok; ghost var os2;
      ok, os2 := RemoveNetworkPolicy(w);
      DriveSplit(old(cluster), UnmarkFrom(w, w.pods), os, os2);
      end, os := Ended(ok), os + os2;
    }

    /** One workload of a scan: revokeActionIfNeed or enforceActionIfNeed after its verdict. */
    method Act(ns: string, t: Task) returns (end: Pc, ghost os: seq<Outcome>)
      requires LocalWorkload(ns, t.workload) && Guarded(cluster)
      modifies this
      ensures Drive(old(cluster), CheckFrom(t, t.workload.pods, true), os) == (cluster, end) && !Waiting(end)
      ensures Guarded(cluster)
    {
      ghost var start := CheckFrom(t, t.workload.pods, true);
      var marked;
      marked, os := HasBeenEnforced(t);
      if marked.None? {
        return Ended(false), os;
      }
      if t.passed != marked.value {
        return Ended(true), os;
      }
      ghost var os2;
      if t.passed {
        end, os2 := Revoke(t.workload);
      } else {
        end, os2 := Enforce(t.workload);
      }
      DriveSplit(old(cluster), start, os, os2);
      os := os + os2;
      DriveKeepsGuard(old(cluster), ns, start, os);
    }
  }

  lemma {:induction false} DriveSplit(c: Cluster, pc: Pc, a: seq<Outcome>, b: seq<Outcome>)
    ensures Drive(c, pc, a + b) == Drive(Drive(c, pc, a).0, Drive(c, pc, a).1, b)
    decreases |a|
  {
    if a == [] {
      assert a + b == b;
    } else if Waiting(pc) && WellFormed(pc) {
      var (c', pc') := Call(c, pc, a[0]);
      DriveSplit(c', pc', a[1..], b);
      assert (a + b)[1..] == a[1..] + b;
    }
  }

  lemma {:induction false} DriveKeepsGuard(c: Cluster, ns: string, pc: Pc, os: seq<Outcome>)
    requires Waiting(pc) ==> WellFormed(pc) && InWorkload(pc) && LocalWorkload(ns, Subject(pc).value)
    requires Guarded(c) && Prepared(c, ns, pc)
    ensures Guarded(Drive(c, pc, os).0)
    decreases |os|
  {
    if os != [] && Waiting(pc) {
      var (c', pc') := Call(c, pc, os[0]);
      CallIsLocal(c, ns, pc, os[0]);
      CallKeepsGuard(c, ns, pc, os[0]);
      DriveKeepsGuard(c', ns, pc', os[1..]);
    }
  }
}
