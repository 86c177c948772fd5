/** Grouping the pods of a namespace into workloads, and listing the containers of a pod. */
module Workloads {
  import opened Wrappers
  import opened Sequences

  // ---- What the cluster says ----

  datatype OwnerRef = OwnerRef(kind: string, apiVersion: string, name: string, uid: string)

  datatype ObjectRef = ObjectRef(kind: string, namespace: string, apiVersion: string, name: string, uid: string)

  datatype Declared = Declared(name: string, image: string)

  datatype Started = Started(name: string, image: string, imageID: string, id: string)

  datatype Pod = Pod(
    namespace: string,
    name: string,
    uid: string,
    owners: seq<OwnerRef>,
    containers: seq<Declared>,
    initContainers: seq<Declared>,
    statuses: seq<Started>,
    initStatuses: seq<Started>)

  /** The owners of every ReplicaSet, by namespace and name. */
  type ReplicaSets = map<(string, string), seq<OwnerRef>>

  // ---- What is collected ----

  datatype Container = Container(name: string, id: string, image: string, imageID: string, isInit: bool)

  datatype PodInfo = PodInfo(ref: ObjectRef, containers: seq<Container>)

  /** `ref` stays blank for a pod without an owner. */
  datatype Workload = Workload(ref: ObjectRef, pods: seq<PodInfo>)

  type Index = map<string, Workload>

  const REPLICA_SET := "ReplicaSet"
  const ALL_WORKLOADS: seq<string> := ["Deployment", REPLICA_SET, "StatefulSet", "DaemonSet", "CronJob", "Job"]
  const BLANK := ObjectRef("", "", "", "", "")

  // ---- Owners ----

  predicate IsWorkload(kind: string) {
    kind in ALL_WORKLOADS
  }

  /** extractOwnerRef: the first owner that is a workload. */
  function FirstOwner(namespace: string, owners: seq<OwnerRef>): (r: Option<ObjectRef>)
    ensures r.Some? ==> IsWorkload(r.value.kind)
  {
    if owners == [] then None
    else if IsWorkload(owners[0].kind) then
      Some(ObjectRef(owners[0].kind, namespace, owners[0].apiVersion, owners[0].name, owners[0].uid))
    else FirstOwner(namespace, owners[1..])
  }

  /** hasReplicaSet: the first owner that is a ReplicaSet. */
  function FirstReplicaSet(owners: seq<OwnerRef>): Option<OwnerRef> {
    if owners == [] then None
    else if owners[0].kind == REPLICA_SET then Some(owners[0])
    else FirstReplicaSet(owners[1..])
  }

  /** getOwner when every lookup reaches the cluster; None when the ReplicaSet does not exist. */
  function Resolve(pod: Pod, rss: ReplicaSets): (r: Option<Option<ObjectRef>>)
    ensures r.Some? && r.value.Some? ==> IsWorkload(r.value.value.kind)
  {
    match FirstReplicaSet(pod.owners)
    case None => Some(FirstOwner(pod.namespace, pod.owners))
    case Some(rs) =>
      if (pod.namespace, rs.name) !in rss then None
      else
        var lifted := FirstOwner(pod.namespace, rss[(pod.namespace, rs.name)]);
        Some(if lifted.Some? then lifted else FirstOwner(pod.namespace, pod.owners))
  }

  function GivenUID(r: ObjectRef): string {
    r.kind + ":" + r.name + ":" + r.uid
  }

  function RefOf(pod: Pod): ObjectRef {
    ObjectRef("Pod", pod.namespace, "v1", pod.name, pod.uid)
  }

  predicate Resolvable(pod: Pod, rss: ReplicaSets) {
    Resolve(pod, rss).Some?
  }

  /** The owner of the pod is found: a lookup that it needs reaches the cluster and finds the ReplicaSet. */
  predicate GoesWell(pod: Pod, rss: ReplicaSets, reached: bool) {
    Resolvable(pod, rss) && (reached || FirstReplicaSet(pod.owners).None?)
  }

  /** What the pod is indexed under. */
  function Identity(pod: Pod, rss: ReplicaSets): ObjectRef
    requires Resolvable(pod, rss)
  {
    var owner := Resolve(pod, rss).value;
    if owner.Some? then owner.value else RefOf(pod)
  }

  function KeyOf(pod: Pod, rss: ReplicaSets): string
    requires Resolvable(pod, rss)
  {
    GivenUID(Identity(pod, rss))
  }

  // ---- Containers ----

  function FromStatuses(statuses: seq<Started>, isInit: bool): (r: seq<Container>)
    ensures |r| == |statuses|
    ensures forall i :: 0 <= i < |r| ==> r[i].name == statuses[i].name && r[i].isInit == isInit
  {
    seq(|statuses|, i requires 0 <= i < |statuses| =>
      Container(statuses[i].name, statuses[i].id, statuses[i].image, statuses[i].imageID, isInit))
  }

  /** The declared containers that have no status. */
  function FromSpec(declared: seq<Declared>, isInit: bool, seen: set<string>): seq<Container> {
    if declared == [] then []
    else
      (if declared[0].name in seen then [] else [Container(declared[0].name, "", declared[0].image, "", isInit)])
      + FromSpec(declared[1..], isInit, seen)
  }

  function SeenNames(pod: Pod): set<string> {
    (set s | s in pod.statuses :: s.name) + (set s | s in pod.initStatuses :: s.name)
  }

  function Containers(pod: Pod): seq<Container> {
    FromStatuses(pod.statuses, false) + FromStatuses(pod.initStatuses, true)
    + FromSpec(pod.containers, false, SeenNames(pod)) + FromSpec(pod.initContainers, true, SeenNames(pod))
  }

  method GetContainersFromStatus(statuses: seq<Started>, isInit: bool, dict: set<string>)
    returns (containers: seq<Container>, dict': set<string>)
    ensures containers == FromStatuses(statuses, isInit)
    ensures dict' == dict + (set s | s in statuses :: s.name)
  {
    containers, dict' := [], dict;
    for i := 0 to |statuses|
      invariant containers == FromStatuses(statuses[..i], isInit)
      invariant dict' == dict + (set s | s in statuses[..i] :: s.name)
    {
      var cs := statuses[i];
      containers := containers + [Container(cs.name, cs.id, cs.image, cs.imageID, isInit)];
      dict' := dict' + {cs.name};
      assert statuses[..i + 1] == statuses[..i] + [cs];
    }
    assert statuses[..|statuses|] == statuses;
  }

  lemma OneDeclared(declared: seq<Declared>, isInit: bool, seen: set<string>)
    requires declared != []
    ensures FromSpec(declared, isInit, seen) ==
            FromSpec([declared[0]], isInit, seen) + FromSpec(declared[1..], isInit, seen)
    ensures FromSpec([declared[0]], isInit, seen) ==
            if declared[0].name in seen then [] else [Container(declared[0].name, "", declared[0].image, "", isInit)]
  {
    assert [declared[0]][1..] == [];
  }

  /** Declared containers are taken in the order of the declaration. */
  lemma {:induction false} DeclaredKeepOrder(a: seq<Declared>, b: seq<Declared>, isInit: bool, seen: set<string>)
    ensures FromSpec(a + b, isInit, seen) == FromSpec(a, isInit, seen) + FromSpec(b, isInit, seen)
  {
    if a == [] {
      assert a + b == b;
    } else {
      assert (a + b)[0] == a[0] && (a + b)[1..] == a[1..] + b;
      OneDeclared(a + b, isInit, seen);
      OneDeclared(a, isInit, seen);
      DeclaredKeepOrder(a[1..], b, isInit, seen);
      Associate(FromSpec([a[0]], isInit, seen), FromSpec(a[1..], isInit, seen), FromSpec(b, isInit, seen));
    }
  }

  method GetContainersFromSpec(declared: seq<Declared>, isInit: bool, dict: set<string>)
    returns (containers: seq<Container>)
    ensures containers == FromSpec(declared, isInit, dict)
  {
    containers := [];
    for i := 0 to |declared|
      invariant containers == FromSpec(declared[..i], isInit, dict)
    {
      var c := declared[i];
      assert declared[..i + 1] == declared[..i] + [c];
      DeclaredKeepOrder(declared[..i], [c], isInit, dict);
      OneDeclared([c], isInit, dict);
      if c.name !in dict {
        containers := containers + [Container(c.name, "", c.image, "", isInit)];
      }
    }
    assert declared[..|declared|] == declared;
  }

  method ExtractContainers(pod: Pod) returns (containers: seq<Container>)
    ensures containers == Containers(pod)
  {
    var flags: set<string> := {};
    var csl, icsl, cl, icl;
    csl, flags := GetContainersFromStatus(pod.statuses, false, flags);
    icsl, flags := GetContainersFromStatus(pod.initStatuses, true, flags);
    assert flags == SeenNames(pod);
    cl := GetContainersFromSpec(pod.containers, false, flags);
    icl := GetContainersFromSpec(pod.initContainers, true, flags);
    containers := csl + icsl + cl + icl;
  }

  // ---- The index ----

  function Info(pod: Pod): PodInfo {
    PodInfo(RefOf(pod), Containers(pod))
  }

  /** processPod on a resolved pod. */
  function Put(index: Index, pod: Pod, rss: ReplicaSets): Index
    requires Resolvable(pod, rss)
  {
    var owner, key := Resolve(pod, rss).value, KeyOf(pod, rss);
    var ref := if owner.Some? then owner.value else if key in index then index[key].ref else BLANK;
    var before := if key in index then index[key].pods else [];
    index[key := Workload(ref, before + [Info(pod)])]
  }

  ghost predicate AllResolvable(pods: seq<Pod>, rss: ReplicaSets) {
    forall i :: 0 <= i < |pods| ==> Resolvable(pods[i], rss)
  }

  function IndexOf(pods: seq<Pod>, rss: ReplicaSets): Index
    requires AllResolvable(pods, rss)
  {
    if pods == [] then map[] else Put(IndexOf(pods[..|pods| - 1], rss), pods[|pods| - 1], rss)
  }

  ghost predicate AllGoWell(pods: seq<Pod>, n: nat, rss: ReplicaSets, reached: nat -> bool)
    requires n <= |pods|
  {
    forall i :: 0 <= i < n ==> GoesWell(pods[i], rss, reached(i))
  }

  lemma GoWellStep(pods: seq<Pod>, i: nat, rss: ReplicaSets, reached: nat -> bool)
    requires i < |pods| && AllGoWell(pods, i, rss, reached) && GoesWell(pods[i], rss, reached(i))
    ensures AllGoWell(pods, i + 1, rss, reached)
  {
  }

  lemma IndexStep(pods: seq<Pod>, i: nat, rss: ReplicaSets)
    requires i < |pods| && AllResolvable(pods[..i], rss) && Resolvable(pods[i], rss)
    ensures AllResolvable(pods[..i + 1], rss)
    ensures IndexOf(pods[..i + 1], rss) == Put(IndexOf(pods[..i], rss), pods[i], rss)
  {
    assert pods[..i + 1][..i] == pods[..i];
  }

  class DefaultCollector {
    const replicaSets: ReplicaSets
    var indexer: Index

    constructor (replicaSets: ReplicaSets)
      ensures this.replicaSets == replicaSets && indexer == map[]
    {
      this.replicaSets := replicaSets;
      indexer := map[];
    }

    /** getOwner; `reached` says whether the lookup, if there is one, reaches the cluster. */
    method GetOwner(pod: Pod, reached: bool) returns (owner: Option<Option<ObjectRef>>)
      ensures owner == if reached || FirstReplicaSet(pod.owners).None? then Resolve(pod, replicaSets) else None
    {
      var rs := FirstReplicaSet(pod.owners);
      if rs.Some? {
        var name := (pod.namespace, rs.value.name);
        if !reached || name !in replicaSets {
          return None;
        }
        var lifted := FirstOwner(pod.namespace, replicaSets[name]);
        if lifted.Some? {
          return Some(lifted);
        }
      }
      owner := Some(FirstOwner(pod.namespace, pod.owners));
    }

    method ProcessPod(pod: Pod, reached: bool) returns (ok: bool)
      modifies this
      ensures ok <==> GoesWell(pod, replicaSets, reached)
      ensures indexer == if ok then Put(old(indexer), pod, replicaSets) else old(indexer)
    {
      var resolved := GetOwner(pod, reached);
      if resolved.None? {
        return false;
      }
      var owner := resolved.value;
      var uid := GivenUID(RefOf(pod));
      if owner.Some? {
        uid := GivenUID(owner.value);
      }
      if uid !in indexer {
        indexer := indexer[uid := Workload(BLANK, [])];
      }
      if owner.Some? {
        indexer := indexer[uid := indexer[uid].(ref := owner.value)];
      }
      var containers := ExtractContainers(pod);
      indexer := indexer[uid := indexer[uid].(pods := indexer[uid].pods + [PodInfo(RefOf(pod), containers)])];
      ok := true;
    }

    /** The first loop of CollectWorkloads: not `ok` at the first pod whose owner is not found. */
    method ProcessPods(pods: seq<Pod>, reached: nat -> bool) returns (ok: bool)
      requires indexer == map[]
      modifies this
      ensures ok <==> AllGoWell(pods, |pods|, replicaSets, reached)
      ensures ok ==> AllResolvable(pods, replicaSets) && indexer == IndexOf(pods, replicaSets)
    {
      for i := 0 to |pods|
        invariant AllGoWell(pods, i, replicaSets, reached)
        invariant AllResolvable(pods[..i], replicaSets) && indexer == IndexOf(pods[..i], replicaSets)
      {
        ok := ProcessPod(pods[i], reached(i));
        if !ok {
          return;
        }
        GoWellStep(pods, i, replicaSets, reached);
        IndexStep(pods, i, replicaSets);
      }
      assert pods[..|pods|] == pods;
      ok := true;
    }

    /** CollectWorkloads on the listed pods. The workloads come in the order of a map iteration: the
        indexed ones, each once. */
    method CollectWorkloads(pods: seq<Pod>, reached: nat -> bool)
      returns (r: Option<seq<Workload>>, ghost keys: seq<string>)
      modifies this
      ensures r.Some? <==> AllGoWell(pods, |pods|, replicaSets, reached)
      ensures r.Some? ==> AllResolvable(pods, replicaSets) && Enumerates(IndexOf(pods, replicaSets), keys, r.value)
    {
      indexer := map[];
      var ok := ProcessPods(pods, reached);
      if !ok {
        return None, [];
      }
      var scanned;
      scanned, keys := ScannedWorkloads(indexer);
      r := Some(scanned);
    }
  }

  method ScannedWorkloads(index: Index) returns (scanned: seq<Workload>, ghost keys: seq<string>)
    ensures Enumerates(index, keys, scanned)
  {
    scanned, keys := [], [];
    var todo := index.Keys;
    while todo != {}
      invariant todo <= index.Keys
      invariant forall k :: k in keys <==> k in index && k !in todo
      invariant Distinct(keys) && |scanned| == |keys|
      invariant forall i :: 0 <= i < |keys| ==> keys[i] in index && scanned[i] == index[keys[i]]
    {
      var key :| key in todo;
      scanned := scanned + [index[key]];
      keys := keys + [key];
      todo := todo - {key};
    }
  }

  /** The values of the index, each key once. */
  ghost predicate Enumerates(index: Index, keys: seq<string>, workloads: seq<Workload>) {
    && Distinct(keys) && (forall k :: k in keys <==> k in index)
    && |workloads| == |keys| && forall i :: 0 <= i < |keys| ==> keys[i] in index && workloads[i] == index[keys[i]]
  }
}
