/** The workloads partition the pods by owner, and a pod's containers are those it declares. */
module WorkloadsResult {
  import opened Wrappers
  import opened Sequences
  import opened Strings
  import opened Workloads

  // ---- Keys ----

  predicate Plain(r: ObjectRef) {
    ':' !in r.kind && ':' !in r.name
  }

  /** Kubernetes allows no colon in these kinds and names, so keys tell owners apart. */
  lemma SameKeyIff(a: ObjectRef, b: ObjectRef)
    requires Plain(a) && Plain(b)
    ensures GivenUID(a) == GivenUID(b) <==> a.kind == b.kind && a.name == b.name && a.uid == b.uid
  {
    if GivenUID(a) == GivenUID(b) {
      assert a.kind + ":" + (a.name + ":" + a.uid) == GivenUID(a);
      assert b.kind + ":" + (b.name + ":" + b.uid) == GivenUID(b);
      FirstFieldsAgree(a.kind, a.name + ":" + a.uid, b.kind, b.name + ":" + b.uid);
      FirstFieldsAgree(a.name, a.uid, b.name, b.uid);
    }
  }

  // ---- What each workload holds ----

  /** The listed pods of one key, in the order of the list. */
  function Group(pods: seq<Pod>, rss: ReplicaSets, key: string): seq<PodInfo>
    requires AllResolvable(pods, rss)
  {
    if pods == [] then []
    else
      var last := pods[|pods| - 1];
      Group(pods[..|pods| - 1], rss, key) + (if KeyOf(last, rss) == key then [Info(last)] else [])
  }

  lemma {:induction false} IndexHolds(pods: seq<Pod>, rss: ReplicaSets, key: string)
    requires AllResolvable(pods, rss)
    ensures var index := IndexOf(pods, rss);
      && (key in index <==> Group(pods, rss, key) != [])
      && (key in index ==> index[key].pods == Group(pods, rss, key))
  {
    if pods != [] {
      IndexHolds(pods[..|pods| - 1], rss, key);
    }
  }

  lemma {:induction false} InGroup(pods: seq<Pod>, rss: ReplicaSets, i: nat)
    requires AllResolvable(pods, rss) && i < |pods|
    ensures Info(pods[i]) in Group(pods, rss, KeyOf(pods[i], rss))
  {
    if i < |pods| - 1 {
      InGroup(pods[..|pods| - 1], rss, i);
    }
  }

  // ---- Nothing lost, nothing twice ----

  function Infos(pods: seq<Pod>): (r: seq<PodInfo>)
    ensures |r| == |pods| && forall i :: 0 <= i < |r| ==> r[i] == Info(pods[i])
  {
    seq(|pods|, i requires 0 <= i < |pods| => Info(pods[i]))
  }

  function Flatten(workloads: seq<Workload>): seq<PodInfo> {
    if workloads == [] then [] else Flatten(workloads[..|workloads| - 1]) + workloads[|workloads| - 1].pods
  }

  /** How many listed pods with one of these keys read as `x`. */
  function CountKeyed(pods: seq<Pod>, rss: ReplicaSets, keys: seq<string>, x: PodInfo): nat
    requires AllResolvable(pods, rss)
  {
    if pods == [] then 0
    else
      var last := pods[|pods| - 1];
      CountKeyed(pods[..|pods| - 1], rss, keys, x) + Unit(KeyOf(last, rss) in keys && Info(last) == x)
  }

  /** What one pod contributes. */
  function Unit(counts: bool): nat {
    if counts then 1 else 0
  }

  lemma CountJoined<T>(s: seq<T>, joins: bool, a: T, x: T)
    ensures Count(s + (if joins then [a] else []), x) == Count(s, x) + Unit(joins && a == x)
  {
    CountSnoc(s, a, x);
    assert s + [] == s;
  }

  lemma OneMoreKey(k: string, a: PodInfo, keys: seq<string>, key: string, x: PodInfo)
    requires key !in keys
    ensures Unit(k in keys + [key] && a == x) == Unit(k in keys && a == x) + Unit(k == key && a == x)
  {
  }

  lemma {:induction false} CountOneMore(pods: seq<Pod>, rss: ReplicaSets, keys: seq<string>, key: string, x: PodInfo)
    requires AllResolvable(pods, rss) && key !in keys
    ensures CountKeyed(pods, rss, keys + [key], x) == CountKeyed(pods, rss, keys, x) + Count(Group(pods, rss, key), x)
  {
    if pods != [] {
      var front, last := pods[..|pods| - 1], pods[|pods| - 1];
      CountOneMore(front, rss, keys, key, x);
      OneMoreKey(KeyOf(last, rss), Info(last), keys, key, x);
      CountJoined(Group(front, rss, key), KeyOf(last, rss) == key, Info(last), x);
    }
  }

  lemma FlattenCount(workloads: seq<Workload>, x: PodInfo)
    requires workloads != []
    ensures var n := |workloads| - 1;
      Count(Flatten(workloads), x) == Count(Flatten(workloads[..n]), x) + Count(workloads[n].pods, x)
  {
    CountAppend(Flatten(workloads[..|workloads| - 1]), workloads[|workloads| - 1].pods, x);
  }

  /** Some keys of the index, each once, with their workloads. */
  ghost predicate Lists(index: Index, keys: seq<string>, workloads: seq<Workload>) {
    && Distinct(keys) && |workloads| == |keys|
    && forall i :: 0 <= i < |keys| ==> keys[i] in index && workloads[i] == index[keys[i]]
  }

  lemma ListsFront(index: Index, keys: seq<string>, workloads: seq<Workload>)
    requires Lists(index, keys, workloads) && keys != []
    ensures var n := |keys| - 1;
      && Lists(index, keys[..n], workloads[..n]) && keys[n] !in keys[..n] && keys[..n] + [keys[n]] == keys
      && keys[n] in index && workloads[n] == index[keys[n]]
  {
  }

  lemma {:induction false} CountFlat(pods: seq<Pod>, rss: ReplicaSets, keys: seq<string>, workloads: seq<Workload>,
      x: PodInfo)
    requires AllResolvable(pods, rss) && Lists(IndexOf(pods, rss), keys, workloads)
    ensures Count(Flatten(workloads), x) == CountKeyed(pods, rss, keys, x)
    decreases |keys|
  {
    if keys == [] {
      CountNone(pods, rss, x);
    } else {
      var n := |keys| - 1;
      ListsFront(IndexOf(pods, rss), keys, workloads);
      CountFlat(pods, rss, keys[..n], workloads[..n], x);
      CountOneMore(pods, rss, keys[..n], keys[n], x);
      IndexHolds(pods, rss, keys[n]);
      FlattenCount(workloads, x);
    }
  }

  lemma {:induction false} CountNone(pods: seq<Pod>, rss: ReplicaSets, x: PodInfo)
    requires AllResolvable(pods, rss)
    ensures CountKeyed(pods, rss, [], x) == 0
  {
    if pods != [] {
      CountNone(pods[..|pods| - 1], rss, x);
    }
  }

  lemma InfosCount(pods: seq<Pod>, x: PodInfo)
    requires pods != []
    ensures var n := |pods| - 1; Count(Infos(pods), x) == Count(Infos(pods[..n]), x) + Unit(Info(pods[n]) == x)
  {
    var n := |pods| - 1;
    assert Infos(pods) == Infos(pods[..n]) + [Info(pods[n])];
    CountSnoc(Infos(pods[..n]), Info(pods[n]), x);
  }

  lemma {:induction false} CountAll(pods: seq<Pod>, rss: ReplicaSets, keys: seq<string>, x: PodInfo)
    requires AllResolvable(pods, rss) && forall i :: 0 <= i < |pods| ==> KeyOf(pods[i], rss) in keys
    ensures CountKeyed(pods, rss, keys, x) == Count(Infos(pods), x)
  {
    if pods != [] {
      var front, last := pods[..|pods| - 1], pods[|pods| - 1];
      CountAll(front, rss, keys, x);
      InfosCount(pods, x);
    }
  }

  /** Whatever order the workloads come in, together they hold each listed pod as often as it is listed. */
  lemma WorkloadsPartitionPods(pods: seq<Pod>, rss: ReplicaSets, keys: seq<string>, workloads: seq<Workload>)
    requires AllResolvable(pods, rss) && Enumerates(IndexOf(pods, rss), keys, workloads)
    ensures forall x :: Count(Flatten(workloads), x) == Count(Infos(pods), x)
    ensures forall i :: 0 <= i < |keys| ==> workloads[i].pods == Group(pods, rss, keys[i]) && workloads[i].pods != []
  {
    forall i | 0 <= i < |pods| ensures KeyOf(pods[i], rss) in keys {
      IndexHolds(pods, rss, KeyOf(pods[i], rss));
      InGroup(pods, rss, i);
    }
    forall x ensures Count(Flatten(workloads), x) == Count(Infos(pods), x) {
      CountFlat(pods, rss, keys, workloads, x);
      CountAll(pods, rss, keys, x);
    }
    forall i | 0 <= i < |keys| ensures workloads[i].pods == Group(pods, rss, keys[i]) && workloads[i].pods != [] {
      IndexHolds(pods, rss, keys[i]);
    }
  }

  // ---- Who shares a workload ----

  /** The same owner, or the same pod where there is no owner. */
  predicate SameOwner(a: Pod, b: Pod, rss: ReplicaSets)
    requires Resolvable(a, rss) && Resolvable(b, rss)
  {
    var x, y := Resolve(a, rss).value, Resolve(b, rss).value;
    if x.Some? && y.Some? then
      x.value.kind == y.value.kind && x.value.name == y.value.name && x.value.uid == y.value.uid
    else x.None? && y.None? && a.name == b.name && a.uid == b.uid
  }

  lemma ShareIffSameOwner(a: Pod, b: Pod, rss: ReplicaSets)
    requires Resolvable(a, rss) && Resolvable(b, rss)
    requires Plain(Identity(a, rss)) && Plain(Identity(b, rss))
    ensures KeyOf(a, rss) == KeyOf(b, rss) <==> SameOwner(a, b, rss)
  {
    SameKeyIff(Identity(a, rss), Identity(b, rss));
  }

  /** The pod's workload has the pod's owner; without an owner it is blank. */
  predicate Carries(index: Index, pod: Pod, rss: ReplicaSets)
    requires Resolvable(pod, rss)
  {
    var key, owner := KeyOf(pod, rss), Resolve(pod, rss).value;
    && key in index
    && var ref := index[key].ref;
       if owner.None? then ref == BLANK
       else ref.kind == owner.value.kind && ref.name == owner.value.name && ref.uid == owner.value.uid
  }

  lemma PutCarries(index: Index, pod: Pod, last: Pod, rss: ReplicaSets)
    requires Resolvable(pod, rss) && Resolvable(last, rss)
    requires Plain(Identity(pod, rss)) && Plain(Identity(last, rss))
    requires KeyOf(pod, rss) in index ==> Carries(index, pod, rss)
    ensures KeyOf(pod, rss) in Put(index, last, rss) ==> Carries(Put(index, last, rss), pod, rss)
  {
    SameKeyIff(Identity(last, rss), Identity(pod, rss));
  }

  lemma {:induction false} IndexCarries(pods: seq<Pod>, rss: ReplicaSets, pod: Pod)
    requires AllResolvable(pods, rss) && Resolvable(pod, rss) && Plain(Identity(pod, rss))
    requires forall k :: 0 <= k < |pods| ==> Plain(Identity(pods[k], rss))
    ensures KeyOf(pod, rss) in IndexOf(pods, rss) ==> Carries(IndexOf(pods, rss), pod, rss)
  {
    if pods != [] {
      IndexCarries(pods[..|pods| - 1], rss, pod);
      PutCarries(IndexOf(pods[..|pods| - 1], rss), pod, pods[|pods| - 1], rss);
    }
  }

  // ---- Namespaces ----

  ghost predicate ListedIn(ns: string, pods: seq<Pod>) {
    forall i :: 0 <= i < |pods| ==> pods[i].namespace == ns
  }

  lemma FirstOwnerIsLocal(ns: string, owners: seq<OwnerRef>)
    ensures FirstOwner(ns, owners).Some? ==> FirstOwner(ns, owners).value.namespace == ns
  {
  }

  /** The owner of a pod is looked for in the pod's namespace and named there. */
  lemma OwnerIsLocal(pod: Pod, rss: ReplicaSets)
    requires Resolvable(pod, rss)
    ensures var owner := Resolve(pod, rss).value; owner.Some? ==> owner.value.namespace == pod.namespace
  {
    FirstOwnerIsLocal(pod.namespace, pod.owners);
    var rs := FirstReplicaSet(pod.owners);
    if rs.Some? {
      FirstOwnerIsLocal(pod.namespace, rss[(pod.namespace, rs.value.name)]);
    }
  }

  lemma {:induction false} ReferencesAreLocal(ns: string, pods: seq<Pod>, rss: ReplicaSets)
    requires AllResolvable(pods, rss) && ListedIn(ns, pods)
    ensures var index := IndexOf(pods, rss);
      forall key :: key in index ==> index[key].ref == BLANK || index[key].ref.namespace == ns
  {
    if pods != [] {
      var front, last := pods[..|pods| - 1], pods[|pods| - 1];
      assert AllResolvable(front, rss) && ListedIn(ns, front) && Resolvable(last, rss) && last.namespace == ns;
      ReferencesAreLocal(ns, front, rss);
      OwnerIsLocal(last, rss);
      assert IndexOf(pods, rss) == Put(IndexOf(front, rss), last, rss);
    }
  }

  /** The kind, name and UID a workload carries are the owner's of every pod in it, and its namespace is
      the one that was listed; without an owner it carries none of them. */
  lemma WorkloadIsOwner(pods: seq<Pod>, rss: ReplicaSets, i: nat)
    requires AllResolvable(pods, rss) && i < |pods|
    requires forall k :: 0 <= k < |pods| ==> Plain(Identity(pods[k], rss))
    ensures Carries(IndexOf(pods, rss), pods[i], rss)
    ensures forall ns :: ListedIn(ns, pods) ==>
      IndexOf(pods, rss)[KeyOf(pods[i], rss)].ref.namespace == if Resolve(pods[i], rss).value.None? then "" else ns
  {
    forall ns | ListedIn(ns, pods) {
      ReferencesAreLocal(ns, pods, rss);
    }
    InGroup(pods, rss, i);
    IndexHolds(pods, rss, KeyOf(pods[i], rss));
    IndexCarries(pods, rss, pods[i]);
  }

  /** The workload that owns the pod's first ReplicaSet. */
  function Lifted(pod: Pod, rss: ReplicaSets): Option<ObjectRef>
    requires Resolvable(pod, rss)
  {
    var rs := FirstReplicaSet(pod.owners);
    if rs.None? then None else FirstOwner(pod.namespace, rss[(pod.namespace, rs.value.name)])
  }

  /** Pods of any two ReplicaSets that are owned by workloads are in one workload if and only if the
      ReplicaSets are owned by the same one, such as one Deployment; the ReplicaSets do not matter. */
  lemma ReplicasShareIffSameOwner(a: Pod, b: Pod, rss: ReplicaSets)
    requires Resolvable(a, rss) && Resolvable(b, rss)
    requires Lifted(a, rss).Some? && Lifted(b, rss).Some?
    requires Plain(Lifted(a, rss).value) && Plain(Lifted(b, rss).value)
    ensures var x, y := Lifted(a, rss).value, Lifted(b, rss).value;
      && Identity(a, rss) == x && Identity(b, rss) == y
      && (KeyOf(a, rss) == KeyOf(b, rss) <==> x.kind == y.kind && x.name == y.name && x.uid == y.uid)
  {
    ShareIffSameOwner(a, b, rss);
  }

  // ---- Containers ----

  function SpecNames(declared: seq<Declared>): seq<string> {
    seq(|declared|, i requires 0 <= i < |declared| => declared[i].name)
  }

  function DeclaredNames(pod: Pod): seq<string> {
    SpecNames(pod.containers) + SpecNames(pod.initContainers)
  }

  function StatusNames(pod: Pod): seq<string> {
    seq(|pod.statuses|, i requires 0 <= i < |pod.statuses| => pod.statuses[i].name)
    + seq(|pod.initStatuses|, i requires 0 <= i < |pod.initStatuses| => pod.initStatuses[i].name)
  }

  function Names(containers: seq<Container>): seq<string> {
    seq(|containers|, i requires 0 <= i < |containers| => containers[i].name)
  }

  /** Every declared container exactly once, and no other. */
  ghost predicate ListsDeclared(pod: Pod) {
    forall name :: Count(Names(Containers(pod)), name) == if name in DeclaredNames(pod) then 1 else 0
  }

  /** The statuses name declared containers, none twice. */
  ghost predicate StatusesFit(pod: Pod) {
    Distinct(StatusNames(pod)) && forall name :: name in StatusNames(pod) ==> name in DeclaredNames(pod)
  }

  lemma NamesCons(c: Container, rest: seq<Container>)
    ensures Names([c] + rest) == [c.name] + Names(rest)
  {
  }

  lemma {:induction false} CountFromSpec(declared: seq<Declared>, isInit: bool, seen: set<string>, name: string)
    ensures Count(Names(FromSpec(declared, isInit, seen)), name) ==
            if name in seen then 0 else Count(SpecNames(declared), name)
  {
    if declared != [] {
      var d, rest := declared[0], FromSpec(declared[1..], isInit, seen);
      CountFromSpec(declared[1..], isInit, seen, name);
      assert SpecNames(declared) == [d.name] + SpecNames(declared[1..]);
      CountCons(d.name, SpecNames(declared[1..]), name);
      if d.name in seen {
        assert FromSpec(declared, isInit, seen) == rest;
      } else {
        var c := Container(d.name, "", d.image, "", isInit);
        assert FromSpec(declared, isInit, seen) == [c] + rest;
        NamesCons(c, rest);
        CountCons(c.name, Names(rest), name);
      }
    }
  }

  lemma NamesOf(pod: Pod, name: string)
    ensures Count(Names(Containers(pod)), name) ==
            Count(StatusNames(pod), name) + (if name in StatusNames(pod) then 0 else Count(DeclaredNames(pod), name))
  {
    var seen := SeenNames(pod);
    var a, b := FromStatuses(pod.statuses, false), FromStatuses(pod.initStatuses, true);
    var c, d := FromSpec(pod.containers, false, seen), FromSpec(pod.initContainers, true, seen);
    StatusesAreNamed(pod);
    CountThree(a + b, c, d, name);
    CountFromSpec(pod.containers, false, seen, name);
    CountFromSpec(pod.initContainers, true, seen, name);
    CountAppend(SpecNames(pod.containers), SpecNames(pod.initContainers), name);
    SeenIsStatuses(pod, name);
  }

  lemma StatusesAreNamed(pod: Pod)
    ensures Names(FromStatuses(pod.statuses, false) + FromStatuses(pod.initStatuses, true)) == StatusNames(pod)
  {
  }

  lemma CountThree(a: seq<Container>, b: seq<Container>, c: seq<Container>, name: string)
    ensures Count(Names(a + b + c), name) == Count(Names(a), name) + Count(Names(b), name) + Count(Names(c), name)
  {
    assert Names(a + b + c) == Names(a) + Names(b) + Names(c);
    CountAppend(Names(a) + Names(b), Names(c), name);
    CountAppend(Names(a), Names(b), name);
  }

  lemma SeenIsStatuses(pod: Pod, name: string)
    ensures name in SeenNames(pod) <==> name in StatusNames(pod)
  {
    var n := |pod.statuses|;
    if name in StatusNames(pod) {
      var i :| 0 <= i < |StatusNames(pod)| && StatusNames(pod)[i] == name;
      if i < n {
        assert pod.statuses[i] in pod.statuses;
      } else {
        assert pod.initStatuses[i - n] in pod.initStatuses;
      }
    }
    if name in SeenNames(pod) {
      if s :| s in pod.statuses && s.name == name {
        var i :| 0 <= i < n && pod.statuses[i] == s;
        assert StatusNames(pod)[i] == name;
      } else {
        var s :| s in pod.initStatuses && s.name == name;
        var i :| 0 <= i < |pod.initStatuses| && pod.initStatuses[i] == s;
        assert StatusNames(pod)[n + i] == name;
      }
    }
  }

  /** What is told of a container: all of its status, and nothing but name and image where it has none. */
  predicate Tells(pod: Pod, c: Container) {
    || (exists s :: s in (if c.isInit then pod.initStatuses else pod.statuses)
                    && c.name == s.name && c.image == s.image && c.imageID == s.imageID && c.id == s.id)
    || (c.name !in StatusNames(pod) && c.imageID == "" && c.id == ""
        && exists d :: d in (if c.isInit then pod.initContainers else pod.containers)
                       && c.name == d.name && c.image == d.image)
  }

  lemma {:induction false} SpecTells(declared: seq<Declared>, isInit: bool, seen: set<string>, c: Container)
    requires c in FromSpec(declared, isInit, seen)
    ensures c.isInit == isInit && c.name !in seen && c.imageID == "" && c.id == ""
    ensures exists d :: d in declared && c.name == d.name && c.image == d.image
  {
    if declared[0].name in seen || c != Container(declared[0].name, "", declared[0].image, "", isInit) {
      SpecTells(declared[1..], isInit, seen, c);
    }
  }

  lemma StatusTells(pod: Pod, isInit: bool, c: Container)
    requires c in FromStatuses(if isInit then pod.initStatuses else pod.statuses, isInit)
    ensures Tells(pod, c)
  {
    var statuses := if isInit then pod.initStatuses else pod.statuses;
    var i :| 0 <= i < |statuses| && FromStatuses(statuses, isInit)[i] == c;
    assert statuses[i] in statuses;
  }

  lemma ContainersTellTheTruth(pod: Pod, c: Container)
    requires c in Containers(pod)
    ensures Tells(pod, c)
  {
    var seen := SeenNames(pod);
    SeenIsStatuses(pod, c.name);
    if c in FromStatuses(pod.statuses, false) {
      StatusTells(pod, false, c);
    } else if c in FromStatuses(pod.initStatuses, true) {
      StatusTells(pod, true, c);
    } else if c in FromSpec(pod.containers, false, seen) {
      SpecTells(pod.containers, false, seen, c);
    } else {
      SpecTells(pod.initContainers, true, seen, c);
    }
  }

  /** A pod's containers are exactly the declared ones, each once, if and only if its statuses name
      declared containers without repetition. */
  lemma DeclaredOnceIffStatusesFit(pod: Pod)
    requires Distinct(DeclaredNames(pod))
    ensures ListsDeclared(pod) <==> StatusesFit(pod)
  {
    if StatusesFit(pod) {
      forall name ensures Count(Names(Containers(pod)), name) == if name in DeclaredNames(pod) then 1 else 0 {
        NamesOf(pod, name);
        CountDistinct(StatusNames(pod), name);
        CountDistinct(DeclaredNames(pod), name);
        CountZero(StatusNames(pod), name);
        CountZero(DeclaredNames(pod), name);
      }
    }
    if ListsDeclared(pod) {
      ListedFits(pod);
    }
  }

  lemma ListedFits(pod: Pod)
    requires ListsDeclared(pod)
    ensures StatusesFit(pod)
  {
    var declared, statuses := DeclaredNames(pod), StatusNames(pod);
    forall i, j | 0 <= i < j < |statuses| ensures statuses[i] != statuses[j] {
      if statuses[i] == statuses[j] {
        CountTwice(statuses, i, j);
        NamesOf(pod, statuses[i]);
      }
    }
    forall name | name in statuses ensures name in declared {
      NamesOf(pod, name);
      CountZero(statuses, name);
    }
  }

  // ---- The order of the containers ----

  predicate AreStarted(cs: seq<Container>, statuses: seq<Started>, isInit: bool) {
    |cs| == |statuses| && forall i :: 0 <= i < |cs| ==>
      cs[i] == Container(statuses[i].name, statuses[i].id, statuses[i].image, statuses[i].imageID, isInit)
  }

  predicate AreDeclared(cs: seq<Container>, isInit: bool) {
    forall i :: 0 <= i < |cs| ==> cs[i].id == "" && cs[i].isInit == isInit
  }

  lemma SpecsAreDeclared(declared: seq<Declared>, isInit: bool, seen: set<string>)
    ensures AreDeclared(FromSpec(declared, isInit, seen), isInit)
  {
    var cs := FromSpec(declared, isInit, seen);
    forall i | 0 <= i < |cs| ensures cs[i].id == "" && cs[i].isInit == isInit {
      SpecTells(declared, isInit, seen, cs[i]);
    }
  }

  lemma Pieces(a: seq<Container>, b: seq<Container>, c: seq<Container>, d: seq<Container>)
    ensures var cs := a + b + c + d;
      && cs[..|a|] == a && cs[|a|..|a| + |b|] == b
      && cs[|a| + |b|..|a| + |b| + |c|] == c && cs[|a| + |b| + |c|..] == d
  {
  }

  /** First the started containers and then the started init containers, each in the order of the statuses;
      after them what is declared only, the init containers last. */
  lemma ContainersInOrder(pod: Pod) returns (k: nat)
    ensures var cs, n, m := Containers(pod), |pod.statuses|, |pod.initStatuses|;
      && n + m <= k <= |cs|
      && AreStarted(cs[..n], pod.statuses, false) && AreStarted(cs[n..n + m], pod.initStatuses, true)
      && AreDeclared(cs[n + m..k], false) && AreDeclared(cs[k..], true)
  {
    var seen := SeenNames(pod);
    var a, b := FromStatuses(pod.statuses, false), FromStatuses(pod.initStatuses, true);
    var c, d := FromSpec(pod.containers, false, seen), FromSpec(pod.initContainers, true, seen);
    SpecsAreDeclared(pod.containers, false, seen);
    SpecsAreDeclared(pod.initContainers, true, seen);
    Pieces(a, b, c, d);
    k := |a| + |b| + |c|;
  }
}
