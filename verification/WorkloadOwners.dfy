/** Which owner a pod is given, read off the owner references, and who shares a workload because of it. */
module WorkloadOwners {
  import opened Wrappers
  import opened Workloads
  import opened WorkloadsResult

  predicate WorkloadKind(kind: string) {
    || kind == "Deployment" || kind == "ReplicaSet" || kind == "StatefulSet"
    || kind == "DaemonSet" || kind == "CronJob" || kind == "Job"
  }

  /** Reference `i` is the first one of a workload kind. */
  predicate FirstWorkloadAt(owners: seq<OwnerRef>, i: nat) {
    i < |owners| && WorkloadKind(owners[i].kind) && forall j :: 0 <= j < i ==> !WorkloadKind(owners[j].kind)
  }

  predicate NoWorkload(owners: seq<OwnerRef>) {
    forall j :: 0 <= j < |owners| ==> !WorkloadKind(owners[j].kind)
  }

  /** Reference `i` is the first one of a ReplicaSet. */
  predicate FirstReplicaSetAt(owners: seq<OwnerRef>, i: nat) {
    i < |owners| && owners[i].kind == "ReplicaSet" && forall j :: 0 <= j < i ==> owners[j].kind != "ReplicaSet"
  }

  predicate NoReplicaSet(owners: seq<OwnerRef>) {
    forall j :: 0 <= j < |owners| ==> owners[j].kind != "ReplicaSet"
  }

  function RefTo(ns: string, owner: OwnerRef): ObjectRef {
    ObjectRef(owner.kind, ns, owner.apiVersion, owner.name, owner.uid)
  }

  lemma KindsByName(kind: string)
    ensures IsWorkload(kind) <==> WorkloadKind(kind)
  {
    assert ALL_WORKLOADS[0] == "Deployment" && ALL_WORKLOADS[1] == "ReplicaSet" && ALL_WORKLOADS[2] == "StatefulSet"
        && ALL_WORKLOADS[3] == "DaemonSet" && ALL_WORKLOADS[4] == "CronJob" && ALL_WORKLOADS[5] == "Job";
  }

  lemma {:induction false} FirstOwnerAt(ns: string, owners: seq<OwnerRef>)
    ensures NoWorkload(owners) <==> FirstOwner(ns, owners) == None
    ensures forall i: nat :: FirstWorkloadAt(owners, i) ==> FirstOwner(ns, owners) == Some(RefTo(ns, owners[i]))
  {
    if owners != [] {
      KindsByName(owners[0].kind);
      FirstOwnerAt(ns, owners[1..]);
      assert forall j :: 1 <= j < |owners| ==> owners[j] == owners[1..][j - 1];
      if NoWorkload(owners[1..]) && !WorkloadKind(owners[0].kind) {
        assert NoWorkload(owners);
      }
      forall i: nat | FirstWorkloadAt(owners, i) ensures FirstOwner(ns, owners) == Some(RefTo(ns, owners[i])) {
        if i > 0 {
          assert FirstWorkloadAt(owners[1..], i - 1);
        }
      }
    }
  }

  lemma {:induction false} FirstReplicaSetIs(owners: seq<OwnerRef>)
    ensures NoReplicaSet(owners) <==> FirstReplicaSet(owners) == None
    ensures forall i: nat :: FirstReplicaSetAt(owners, i) ==> FirstReplicaSet(owners) == Some(owners[i])
  {
    if owners != [] {
      FirstReplicaSetIs(owners[1..]);
      assert forall j :: 1 <= j < |owners| ==> owners[j] == owners[1..][j - 1];
      if NoReplicaSet(owners[1..]) && owners[0].kind != "ReplicaSet" {
        assert NoReplicaSet(owners);
      }
      forall i: nat | FirstReplicaSetAt(owners, i) ensures FirstReplicaSet(owners) == Some(owners[i]) {
        if i > 0 {
          assert FirstReplicaSetAt(owners[1..], i - 1);
        }
      }
    }
  }

  /** The pod has no ReplicaSet among its owners, or its first ReplicaSet exists and no workload owns that. */
  predicate OwnedDirectly(pod: Pod, rss: ReplicaSets) {
    || NoReplicaSet(pod.owners)
    || exists r :: 0 <= r < |pod.owners| && FirstReplicaSetAt(pod.owners, r)
                   && (pod.namespace, pod.owners[r].name) in rss
                   && NoWorkload(rss[(pod.namespace, pod.owners[r].name)])
  }

  /** Such a pod is given its own first owner of a workload kind, with its kind, API version, name and UID,
      and none if and only if no owner is of a workload kind. */
  lemma DirectOwner(pod: Pod, rss: ReplicaSets)
    requires OwnedDirectly(pod, rss)
    ensures Resolvable(pod, rss)
    ensures Resolve(pod, rss).value == None <==> NoWorkload(pod.owners)
    ensures forall i: nat :: FirstWorkloadAt(pod.owners, i) ==>
      Resolve(pod, rss).value == Some(RefTo(pod.namespace, pod.owners[i]))
  {
    FirstReplicaSetIs(pod.owners);
    FirstOwnerAt(pod.namespace, pod.owners);
    if !NoReplicaSet(pod.owners) {
      var r :| 0 <= r < |pod.owners| && FirstReplicaSetAt(pod.owners, r)
               && (pod.namespace, pod.owners[r].name) in rss
               && NoWorkload(rss[(pod.namespace, pod.owners[r].name)]);
      FirstOwnerAt(pod.namespace, rss[(pod.namespace, pod.owners[r].name)]);
    }
  }

  /** The owner of a ReplicaSet that a workload owns is the pod's owner: the first of a workload kind. */
  lemma LiftedOwner(pod: Pod, rss: ReplicaSets, r: nat, i: nat)
    requires FirstReplicaSetAt(pod.owners, r) && (pod.namespace, pod.owners[r].name) in rss
    requires FirstWorkloadAt(rss[(pod.namespace, pod.owners[r].name)], i)
    ensures Resolvable(pod, rss)
    ensures Resolve(pod, rss).value == Some(RefTo(pod.namespace, rss[(pod.namespace, pod.owners[r].name)][i]))
  {
    FirstReplicaSetIs(pod.owners);
    FirstOwnerAt(pod.namespace, rss[(pod.namespace, pod.owners[r].name)]);
  }

  /** A ReplicaSet that does not exist is the one reason for not finding an owner. */
  lemma NotFoundIff(pod: Pod, rss: ReplicaSets)
    ensures !Resolvable(pod, rss) <==>
      exists r :: 0 <= r < |pod.owners| && FirstReplicaSetAt(pod.owners, r)
                  && (pod.namespace, pod.owners[r].name) !in rss
  {
    FirstReplicaSetIs(pod.owners);
    if !NoReplicaSet(pod.owners) {
      var r := ReplicaSetIndex(pod.owners);
    }
  }

  lemma {:induction false} ReplicaSetIndex(owners: seq<OwnerRef>) returns (r: nat)
    requires !NoReplicaSet(owners)
    ensures FirstReplicaSetAt(owners, r)
  {
    if owners[0].kind == "ReplicaSet" {
      r := 0;
    } else {
      assert forall j :: 1 <= j < |owners| ==> owners[j] == owners[1..][j - 1];
      r := ReplicaSetIndex(owners[1..]);
      r := r + 1;
    }
  }

  /** Names and kinds that Kubernetes allows. */
  predicate NoColon(owner: OwnerRef) {
    ':' !in owner.kind && ':' !in owner.name
  }

  /** Pods that are owned directly by workloads share a workload if and only if their first owners of a
      workload kind have the same kind, name and UID. */
  lemma DirectOwnersShareIff(a: Pod, b: Pod, rss: ReplicaSets, i: nat, j: nat)
    requires OwnedDirectly(a, rss) && OwnedDirectly(b, rss)
    requires FirstWorkloadAt(a.owners, i) && FirstWorkloadAt(b.owners, j)
    requires NoColon(a.owners[i]) && NoColon(b.owners[j])
    ensures Resolvable(a, rss) && Resolvable(b, rss)
    ensures KeyOf(a, rss) == KeyOf(b, rss) <==>
      && a.owners[i].kind == b.owners[j].kind && a.owners[i].name == b.owners[j].name
      && a.owners[i].uid == b.owners[j].uid
  {
    DirectOwner(a, rss);
    DirectOwner(b, rss);
    ShareIffSameOwner(a, b, rss);
  }

  /** A pod is listed with its own kind, namespace, name and UID. */
  lemma PodsAreThemselves(pod: Pod)
    ensures Info(pod).ref == ObjectRef("Pod", pod.namespace, "v1", pod.name, pod.uid)
    ensures Info(pod).containers == Containers(pod)
  {
  }
}
