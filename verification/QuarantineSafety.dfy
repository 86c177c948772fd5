/** No interleaving of scan jobs leaves a quarantined pod without the policy that isolates it. */
module QuarantineSafety {
  import opened Wrappers
  import opened Quarantine

  /** A pod with both quarantine labels is in a namespace that has its deny-all policy. */
  ghost predicate Guarded(c: Cluster) {
    forall ns :: ns in c && AnySelected(c, ns) ==> c[ns].policy
  }

  /** All pods are in the namespace, and so is the owner, unless the pods have none and the workload's
      reference is blank. */
  predicate LocalWorkload(ns: string, w: Workload) {
    (w.namespace == ns || w.namespace == "") && forall p :: p in w.pods ==> p.namespace == ns
  }

  /** The workload that a call belongs to. */
  function Subject(pc: Pc): Option<Workload> {
    match pc
    case Checking(t, _, _) => Some(t.workload)
    case EnsureGet(w) => Some(w)
    case EnsureCreate(w) => Some(w)
    case MarkGet(w, _) => Some(w)
    case MarkUpdate(w, _, _) => Some(w)
    case UnmarkGet(w, _) => Some(w)
    case UnmarkUpdate(w, _, _) => Some(w)
    case RemoveList(w) => Some(w)
    case RemoveGet(w) => Some(w)
    case RemoveDelete(w) => Some(w)
    case Ended(_) => None
    case Crashed => None
  }

  predicate InWorkload(pc: Pc) {
    (pc.Checking? || pc.MarkGet? || pc.MarkUpdate? || pc.UnmarkGet? || pc.UnmarkUpdate?) ==>
      forall p :: p in pc.left ==> p in Subject(pc).value.pods
  }

  /** The job works on workloads whose reference and pods are in its own namespace. */
  predicate LocalJob(ns: string, job: Job) {
    && WellFormed(job.pc) && InWorkload(job.pc)
    && (Subject(job.pc).Some? ==> LocalWorkload(ns, Subject(job.pc).value))
    && forall t :: t in job.todo ==> LocalWorkload(ns, t.workload)
  }

  /** What the pending call relies on. */
  predicate Prepared(c: Cluster, ns: string, pc: Pc) {
    match pc
    case MarkGet(_, _) => HasPolicy(c, ns)
    case MarkUpdate(_, _, _) => HasPolicy(c, ns)
    case UnmarkUpdate(_, _, l) => !Selected(Some(l))
    case RemoveGet(_) => !AnySelected(c, ns)
    case RemoveDelete(w) => w.namespace == ns && !AnySelected(c, ns)
    case _ => true
  }

  ghost predicate Inv(s: System) {
    && Guarded(s.cluster)
    && forall ns :: ns in s.jobs ==>
         LocalJob(ns, s.jobs[ns]) && Prepared(s.cluster, ns, s.jobs[ns].pc)
  }

  /** A call changes only the namespace it is for. */
  lemma CallIsLocal(c: Cluster, ns: string, pc: Pc, o: Outcome)
    requires Waiting(pc) && WellFormed(pc) && InWorkload(pc) && LocalWorkload(ns, Subject(pc).value)
    ensures var (c', pc') := Call(c, pc, o);
      && c'.Keys == c.Keys
      && (forall n :: n in c && n != ns ==> c'[n] == c[n])
      && WellFormed(pc') && InWorkload(pc')
      && (Subject(pc').Some? ==> Subject(pc') == Subject(pc))
  {
  }

  lemma CallPrepares(c: Cluster, ns: string, pc: Pc, o: Outcome)
    requires Waiting(pc) && WellFormed(pc) && InWorkload(pc) && LocalWorkload(ns, Subject(pc).value)
    requires Prepared(c, ns, pc)
    ensures var (c', pc') := Call(c, pc, o); Prepared(c', ns, pc')
  {
  }

  lemma CallKeepsGuard(c: Cluster, ns: string, pc: Pc, o: Outcome)
    requires Waiting(pc) && WellFormed(pc) && InWorkload(pc) && LocalWorkload(ns, Subject(pc).value)
    requires Guarded(c) && Prepared(c, ns, pc)
    ensures var (c', pc') := Call(c, pc, o); Guarded(c') && Prepared(c', ns, pc')
  {
    var (c', pc') := Call(c, pc, o);
    CallIsLocal(c, ns, pc, o);
    CallPrepares(c, ns, pc, o);
    forall n | n in c' && AnySelected(c', n) ensures c'[n].policy {
      if n != ns {
        assert AnySelected(c, n);
      } else if !pc.MarkUpdate? {
        var p :| p in c'[n].pods && Selected(c'[n].pods[p]);
        assert p in c[n].pods && Selected(c[n].pods[p]);
      }
    }
  }

  lemma BeginIsLocal(ns: string, todo: seq<Task>)
    requires forall t :: t in todo ==> LocalWorkload(ns, t.workload)
    ensures LocalJob(ns, Begin(todo)) && forall c :: Prepared(c, ns, Begin(todo).pc)
  {
  }

  lemma ApiKeepsInv(s: System, ns: string, o: Outcome)
    requires Inv(s) && ns in s.jobs
    ensures Inv(Apply(s, Api(ns, o)))
  {
    var job := s.jobs[ns];
    var t := Apply(s, Api(ns, o));
    if Waiting(job.pc) {
      CallIsLocal(s.cluster, ns, job.pc, o);
      CallKeepsGuard(s.cluster, ns, job.pc, o);
      forall n | n in t.jobs
        ensures LocalJob(n, t.jobs[n]) && Prepared(t.cluster, n, t.jobs[n].pc)
      {
        if n != ns {
          assert n in s.cluster ==> t.cluster[n] == s.cluster[n];
        }
      }
    } else if job.pc.Ended? {
      BeginIsLocal(ns, job.todo);
    }
  }

  lemma OthersKeepInv(s: System, e: Event)
    requires Inv(s) && Possible(s, e) && (e.Appear? || e.Vanish?)
    ensures Inv(Apply(s, e))
  {
    var t := Apply(s, e);
    forall n | n in t.cluster && AnySelected(t.cluster, n)
      ensures AnySelected(s.cluster, n)
    {
      var p :| p in t.cluster[n].pods && Selected(t.cluster[n].pods[p]);
      assert p in s.cluster[n].pods && Selected(s.cluster[n].pods[p]);
    }
    forall n | n in t.jobs
      ensures LocalJob(n, t.jobs[n]) && Prepared(t.cluster, n, t.jobs[n].pc)
    {
      assert LocalJob(n, s.jobs[n]) && Prepared(s.cluster, n, s.jobs[n].pc);
    }
  }

  /** The workloads of a scan: those that the collector yields for the namespace are of this kind. */
  predicate LocalEvent(e: Event) {
    e.Scan? ==> forall t :: t in e.tasks ==> LocalWorkload(e.ns, t.workload)
  }

  lemma EventKeepsInv(s: System, e: Event)
    requires Inv(s) && Possible(s, e) && LocalEvent(e)
    ensures Inv(Apply(s, e))
  {
    match e
    case Scan(ns, tasks) => BeginIsLocal(ns, tasks);
    case Api(ns, o) => ApiKeepsInv(s, ns, o);
    case _ => OthersKeepInv(s, e);
  }

  /** Over every interleaving of the namespaces' jobs, call by call, with any call failing or losing
      its reply, any job starting afresh at any point, and pods coming and going: a pod with both
      quarantine labels never is without its namespace's policy. */
  lemma {:induction false} QuarantinedPodsStayIsolated(s: System, events: seq<Event>)
    requires Inv(s) && PossibleRun(s, events)
    requires forall e :: e in events ==> LocalEvent(e)
    ensures Guarded(ApplyAll(s, events).cluster)
    decreases |events|
  {
    if events != [] {
      EventKeepsInv(s, events[0]);
      QuarantinedPodsStayIsolated(Apply(s, events[0]), events[1..]);
    }
  }

  /** From a cluster without jobs, only Guarded is asked of the start. */
  lemma IsolatedFromTheStart(c: Cluster, events: seq<Event>)
    requires Guarded(c) && PossibleRun(System(c, map[]), events)
    requires forall e :: e in events ==> LocalEvent(e)
    ensures Guarded(ApplyAll(System(c, map[]), events).cluster)
  {
    QuarantinedPodsStayIsolated(System(c, map[]), events);
  }

  // ---- One job at a time in each namespace: an assumption that is needed ----

  /** Two overlapping jobs in one namespace: one has listed no quarantined pod and is about to delete
      the policy while the other, having found the policy, labels a pod. */
  lemma OverlapBreaksIsolation(c: Cluster, ns: string, pod: string, w: Workload)
    requires ns in c && c[ns].policy && pod in c[ns].pods && c[ns].pods[pod] == Some(map[])
    requires !AnySelected(c, ns) && w == Workload(ns, [PodRef(ns, pod)])
    ensures var (c1, revoking) := Call(c, RemoveList(w), Acked);
            var (c2, enforcing) := Call(c1, EnsureGet(w), Acked);
            var (c3, revoking') := Call(c2, revoking, Acked);
            var (c4, enforcing') := Call(c3, enforcing, Acked);
            var (c5, _) := Call(c4, enforcing', Acked);
            var (c6, _) := Call(c5, revoking', Acked);
            AnySelected(c6, ns) && !c6[ns].policy
  {
    var marked := Some(WithMarks(map[]));
    assert Selected(marked);
    var n := c[ns];
    var c5 := c[ns := n.(pods := n.pods[pod := marked])];
    assert pod in c5[ns].pods && Selected(c5[ns].pods[pod]);
    var c6 := c5[ns := c5[ns].(policy := false)];
    assert pod in c6[ns].pods && Selected(c6[ns].pods[pod]);
  }
}
