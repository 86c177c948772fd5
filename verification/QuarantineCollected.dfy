/** The scan jobs act on what the collector yields for their namespace, and on nothing else. */
module QuarantineCollected {
  import opened Wrappers
  import opened Quarantine
  import opened QuarantineSafety
  import opened QuarantineEffect
  import W = Workloads
  import WR = WorkloadsResult

  // ---- What the enforcer reads of a collected workload ----

  function Refs(pods: seq<W.PodInfo>): (r: seq<PodRef>)
    ensures |r| == |pods|
    ensures forall i :: 0 <= i < |r| ==> r[i] == PodRef(pods[i].ref.namespace, pods[i].ref.name)
  {
    seq(|pods|, i requires 0 <= i < |pods| => PodRef(pods[i].ref.namespace, pods[i].ref.name))
  }

  function Collected(w: W.Workload): Workload {
    Workload(w.ref.namespace, Refs(w.pods))
  }

  /** References and pods of an index are in the namespace, blank references aside. */
  ghost predicate IndexedIn(ns: string, index: W.Index) {
    forall key :: key in index ==> LocalWorkload(ns, Collected(index[key]))
  }

  lemma OneMoreRef(ns: string, before: seq<W.PodInfo>, info: W.PodInfo)
    requires info.ref.namespace == ns && forall p :: p in Refs(before) ==> p.namespace == ns
    ensures forall p :: p in Refs(before + [info]) ==> p.namespace == ns
  {
    assert Refs(before + [info]) == Refs(before) + Refs([info]);
    assert Refs([info])[0].namespace == ns;
  }

  lemma PutIsLocal(ns: string, index: W.Index, pod: W.Pod, rss: W.ReplicaSets)
    requires W.Resolvable(pod, rss) && pod.namespace == ns && IndexedIn(ns, index)
    ensures IndexedIn(ns, W.Put(index, pod, rss))
  {
    WR.OwnerIsLocal(pod, rss);
    var key := W.KeyOf(pod, rss);
    var before := if key in index then index[key].pods else [];
    if key in index {
      assert LocalWorkload(ns, Collected(index[key]));
    }
    OneMoreRef(ns, before, W.Info(pod));
    assert LocalWorkload(ns, Collected(W.Put(index, pod, rss)[key]));
  }

  lemma {:induction false} IndexIsLocal(ns: string, pods: seq<W.Pod>, rss: W.ReplicaSets)
    requires W.AllResolvable(pods, rss) && WR.ListedIn(ns, pods)
    ensures IndexedIn(ns, W.IndexOf(pods, rss))
  {
    if pods != [] {
      IndexIsLocal(ns, pods[..|pods| - 1], rss);
      PutIsLocal(ns, W.IndexOf(pods[..|pods| - 1], rss), pods[|pods| - 1], rss);
    }
  }

  /** Every workload that CollectWorkloads yields for a namespace has its pods there, and its reference
      names that namespace, or is blank for pods without an owner. */
  lemma CollectedIsLocal(ns: string, pods: seq<W.Pod>, rss: W.ReplicaSets, keys: seq<string>,
      workloads: seq<W.Workload>)
    requires W.AllResolvable(pods, rss) && WR.ListedIn(ns, pods)
    requires W.Enumerates(W.IndexOf(pods, rss), keys, workloads)
    ensures forall i :: 0 <= i < |workloads| ==> LocalWorkload(ns, Collected(workloads[i]))
  {
    IndexIsLocal(ns, pods, rss);
  }

  /** The reference is blank for exactly the pods without an owner. */
  lemma BlankIffBare(ns: string, pods: seq<W.Pod>, rss: W.ReplicaSets, i: nat)
    requires W.AllResolvable(pods, rss) && WR.ListedIn(ns, pods) && ns != "" && i < |pods|
    requires forall k :: 0 <= k < |pods| ==> WR.Plain(W.Identity(pods[k], rss))
    ensures W.KeyOf(pods[i], rss) in W.IndexOf(pods, rss)
    ensures var w := Collected(W.IndexOf(pods, rss)[W.KeyOf(pods[i], rss)]);
      w.namespace == if W.Resolve(pods[i], rss).value.None? then "" else ns
  {
    WR.WorkloadIsOwner(pods, rss, i);
  }

  /** So the scan of a collected pod without an owner that fails its inspection changes nothing. */
  lemma OwnerlessIsNeverQuarantined(ns: string, pods: seq<W.Pod>, rss: W.ReplicaSets, i: nat, c: Cluster,
      os: seq<Outcome>)
    requires W.AllResolvable(pods, rss) && WR.ListedIn(ns, pods) && ns != "" && i < |pods|
    requires forall k :: 0 <= k < |pods| ==> WR.Plain(W.Identity(pods[k], rss))
    requires W.Resolve(pods[i], rss).value.None?
    ensures W.KeyOf(pods[i], rss) in W.IndexOf(pods, rss)
    ensures var w := Collected(W.IndexOf(pods, rss)[W.KeyOf(pods[i], rss)]);
      Drive(c, CheckFrom(Task(w, false), w.pods, true), os).0 == c
  {
    BlankIffBare(ns, pods, rss, i);
    BarePodsAreNeverQuarantined(c, Task(Collected(W.IndexOf(pods, rss)[W.KeyOf(pods[i], rss)]), false), os);
  }

  // ---- Isolation, for everything that can be scanned ----

  /** A listing of the pods of a namespace, whose workloads a scan then goes through, in any order. */
  datatype Listing = Listing(pods: seq<W.Pod>, rss: W.ReplicaSets, keys: seq<string>, workloads: seq<W.Workload>)

  ghost predicate ScansListing(ns: string, tasks: seq<Task>, l: Listing) {
    && W.AllResolvable(l.pods, l.rss) && WR.ListedIn(ns, l.pods)
    && W.Enumerates(W.IndexOf(l.pods, l.rss), l.keys, l.workloads)
    && |tasks| == |l.workloads|
    && forall i :: 0 <= i < |tasks| ==> tasks[i].workload == Collected(l.workloads[i])
  }

  /** A scan goes through what the collector has yielded for the namespace. */
  ghost predicate Scanned(e: Event) {
    e.Scan? ==> exists l :: ScansListing(e.ns, e.tasks, l)
  }

  lemma ListingIsLocal(ns: string, tasks: seq<Task>, l: Listing)
    requires ScansListing(ns, tasks, l)
    ensures forall t :: t in tasks ==> LocalWorkload(ns, t.workload)
  {
    CollectedIsLocal(ns, l.pods, l.rss, l.keys, l.workloads);
    forall t | t in tasks ensures LocalWorkload(ns, t.workload) {
      var i :| 0 <= i < |tasks| && tasks[i] == t;
      assert t.workload == Collected(l.workloads[i]);
    }
  }

  lemma ScannedIsLocal(e: Event)
    requires Scanned(e)
    ensures LocalEvent(e)
  {
    if e.Scan? {
      var l :| ScansListing(e.ns, e.tasks, l);
      ListingIsLocal(e.ns, e.tasks, l);
    }
  }

  /** From any cluster in which quarantined pods are isolated, whatever pods the scans find, with owners or
      without, and whatever fails: they stay isolated. */
  lemma ScansKeepIsolation(c: Cluster, events: seq<Event>)
    requires Guarded(c) && PossibleRun(System(c, map[]), events)
    requires forall e :: e in events ==> Scanned(e)
    ensures Guarded(ApplyAll(System(c, map[]), events).cluster)
  {
    forall e | e in events ensures LocalEvent(e) {
      ScannedIsLocal(e);
    }
    IsolatedFromTheStart(c, events);
  }
}
