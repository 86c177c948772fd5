/** The quarantine enforcer at the granularity of its Kubernetes API calls: a workload is
    quarantined by two labels on its pods, which a deny-all network policy of the namespace selects. */
module Quarantine {
  import opened Wrappers

  type Labels = map<string, string>

  const CTRL_KEY := "goharbor.io/controller"
  const RISK_KEY := "goharbor.io/inspection"
  const VENDOR := "CNSI"
  const RISKY := "risk"

  /** A namespace: its pods by name (None for a nil label map) and whether its deny-all policy exists. */
  datatype Ns = Ns(pods: map<string, Option<Labels>>, policy: bool)

  /** No namespace has an empty name. */
  type Cluster = c: map<string, Ns> | "" !in c

  datatype PodRef = PodRef(namespace: string, name: string)

  datatype Workload = Workload(namespace: string, pods: seq<PodRef>)

  /** One workload of a scan with the verdict of its inspection. */
  datatype Task = Task(workload: Workload, passed: bool)

  function LabelsOf(l: Option<Labels>): Labels {
    if l.Some? then l.value else map[]
  }

  /** The label selector of the deny-all policy: by key and value. */
  predicate Selected(l: Option<Labels>) {
    var m := LabelsOf(l);
    CTRL_KEY in m && m[CTRL_KEY] == VENDOR && RISK_KEY in m && m[RISK_KEY] == RISKY
  }

  /** What the enforcer looks at: both keys, whatever their values. */
  predicate Marked(l: Option<Labels>) {
    CTRL_KEY in LabelsOf(l) && RISK_KEY in LabelsOf(l)
  }

  predicate Unmarked(l: Option<Labels>) {
    CTRL_KEY !in LabelsOf(l) && RISK_KEY !in LabelsOf(l)
  }

  function WithMarks(m: Labels): Labels {
    var m1 := if CTRL_KEY in m then m else m[CTRL_KEY := VENDOR];
    if RISK_KEY in m1 then m1 else m1[RISK_KEY := RISKY]
  }

  function WithoutMarks(m: Labels): Labels {
    m - {CTRL_KEY, RISK_KEY}
  }

  predicate Exists(c: Cluster, p: PodRef) {
    p.namespace in c && p.name in c[p.namespace].pods
  }

  function PodAt(c: Cluster, p: PodRef): Option<Labels>
    requires Exists(c, p)
  {
    c[p.namespace].pods[p.name]
  }

  function SetPod(c: Cluster, p: PodRef, l: Labels): Cluster
    requires Exists(c, p)
  {
    var n := c[p.namespace];
    c[p.namespace := n.(pods := n.pods[p.name := Some(l)])]
  }

  predicate HasPolicy(c: Cluster, ns: string) {
    ns in c && c[ns].policy
  }

  function SetPolicy(c: Cluster, ns: string, there: bool): Cluster
    requires ns in c
  {
    c[ns := c[ns].(policy := there)]
  }

  predicate AnySelected(c: Cluster, ns: string) {
    ns in c && exists p :: p in c[ns].pods && Selected(c[ns].pods[p])
  }

  /** What a List in a namespace finds by the policy's label selector; an empty namespace means all of them. */
  predicate AnyListed(c: Cluster, ns: string) {
    if ns == "" then exists n :: n in c && AnySelected(c, n) else AnySelected(c, ns)
  }

  /** The API call that the job of a namespace makes next, with what it remembers. */
  datatype Pc =
    | Checking(task: Task, left: seq<PodRef>, all: bool)
    | EnsureGet(w: Workload)
    | EnsureCreate(w: Workload)
    | MarkGet(w: Workload, left: seq<PodRef>)
    | MarkUpdate(w: Workload, left: seq<PodRef>, labels: Labels)
    | UnmarkGet(w: Workload, left: seq<PodRef>)
    | UnmarkUpdate(w: Workload, left: seq<PodRef>, labels: Labels)
    | RemoveList(w: Workload)
    | RemoveGet(w: Workload)
    | RemoveDelete(w: Workload)
    | Ended(ok: bool)
    | Crashed

  /** HasBeenEnforced is over: the verdict decides what follows. */
  function Decide(task: Task, marked: bool): Pc {
    if task.passed == marked then
      if task.passed then UnmarkFrom(task.workload, task.workload.pods) else EnsureGet(task.workload)
    else Ended(true)
  }

  function CheckFrom(task: Task, left: seq<PodRef>, all: bool): Pc {
    if left == [] then Decide(task, all) else Checking(task, left, all)
  }

  function MarkFrom(w: Workload, left: seq<PodRef>): Pc {
    if left == [] then Ended(true) else MarkGet(w, left)
  }

  function UnmarkFrom(w: Workload, left: seq<PodRef>): Pc {
    if left == [] then RemoveList(w) else UnmarkGet(w, left)
  }

  predicate Waiting(pc: Pc) {
    !pc.Ended? && !pc.Crashed?
  }

  /** One API call with its outcome. A lost reply counts as a failure for the caller. A call for one object
      of an empty namespace is an error. */
  function Call(c: Cluster, pc: Pc, o: Outcome): (Cluster, Pc)
    requires Waiting(pc)
    requires (pc.Checking? || pc.MarkGet? || pc.MarkUpdate? || pc.UnmarkGet? || pc.UnmarkUpdate?) ==> pc.left != []
  {
    match pc
    case Checking(t, left, all) =>
      if !o.Succeeded() || !Exists(c, left[0]) then (c, Ended(false))
      else (c, CheckFrom(t, left[1..], all && Marked(PodAt(c, left[0]))))
    case EnsureGet(w) =>
      if !o.Succeeded() || w.namespace == "" then (c, Ended(false))
      else if HasPolicy(c, w.namespace) then (c, MarkFrom(w, w.pods))
      else (c, EnsureCreate(w))
    case EnsureCreate(w) =>
      if w.namespace !in c || c[w.namespace].policy then (c, Ended(false))
      else (if o.Applied() then SetPolicy(c, w.namespace, true) else c,
            if o.Succeeded() then MarkFrom(w, w.pods) else Ended(false))
    case MarkGet(w, left) =>
      if !o.Succeeded() || !Exists(c, left[0]) then (c, Ended(false))
      else
        var l := PodAt(c, left[0]);
        if l.None? then (c, Crashed)
        else if Marked(l) then (c, MarkFrom(w, left[1..]))
        else (c, MarkUpdate(w, left, WithMarks(l.value)))
    case MarkUpdate(w, left, labels) =>
      if !Exists(c, left[0]) then (c, Ended(false))
      else (if o.Applied() then SetPod(c, left[0], labels) else c,
            if o.Succeeded() then MarkFrom(w, left[1..]) else Ended(false))
    case UnmarkGet(w, left) =>
      if !o.Succeeded() || !Exists(c, left[0]) then (c, Ended(false))
      else
        var l := PodAt(c, left[0]);
        if Unmarked(l) then (c, UnmarkFrom(w, left[1..]))
        else (c, UnmarkUpdate(w, left, WithoutMarks(LabelsOf(l))))
    case UnmarkUpdate(w, left, labels) =>
      if !Exists(c, left[0]) then (c, Ended(false))
      else (if o.Applied() then SetPod(c, left[0], labels) else c,
            if o.Succeeded() then UnmarkFrom(w, left[1..]) else Ended(false))
    case RemoveList(w) =>
      if !o.Succeeded() then (c, Ended(false))
      else if AnyListed(c, w.namespace) then (c, Ended(true))
      else (c, RemoveGet(w))
    case RemoveGet(w) =>
      if !o.Succeeded() || !HasPolicy(c, w.namespace) then (c, Ended(false)) else (c, RemoveDelete(w))
    case RemoveDelete(w) =>
      if !HasPolicy(c, w.namespace) then (c, Ended(false))
      else (if o.Applied() then SetPolicy(c, w.namespace, false) else c, Ended(o.Succeeded()))
  }

  predicate WellFormed(pc: Pc) {
    (pc.Checking? || pc.MarkGet? || pc.MarkUpdate? || pc.UnmarkGet? || pc.UnmarkUpdate?) ==> pc.left != []
  }

  // ---- All namespaces together ----

  /** A namespace's job: the tasks it has not begun and the call it makes next. */
  datatype Job = Job(todo: seq<Task>, pc: Pc)

  datatype System = System(cluster: Cluster, jobs: map<string, Job>)

  datatype Event =
    | Scan(ns: string, tasks: seq<Task>)      // a scan starts the namespace's job; the previous one is over or died
    | Api(ns: string, outcome: Outcome)       // the namespace's job makes its next call
    | Appear(ns: string, pod: string, labels: Option<Labels>)  // someone else creates or relabels a pod
    | Vanish(ns: string, pod: string)         // someone else deletes a pod

  function Begin(todo: seq<Task>): Job {
    if todo == [] then Job([], Ended(true))
    else Job(todo[1..], CheckFrom(todo[0], todo[0].workload.pods, true))
  }

  /** Errors are only logged: the job goes on with its next task. */
  function JobCall(c: Cluster, job: Job, o: Outcome): (Cluster, Job) {
    if !Waiting(job.pc) || !WellFormed(job.pc) then
      (c, if job.pc.Ended? then Begin(job.todo) else job)
    else
      var (c', pc') := Call(c, job.pc, o);
      (c', Job(job.todo, pc'))
  }

  /** Pods made by others never carry both quarantine values. */
  predicate Possible(s: System, e: Event) {
    match e
    case Scan(ns, _) => ns in s.cluster
    case Api(ns, _) => ns in s.jobs
    case Appear(ns, _, l) => ns in s.cluster && !Selected(l)
    case Vanish(ns, _) => ns in s.cluster
  }

  function Apply(s: System, e: Event): System
    requires Possible(s, e)
  {
    match e
    case Scan(ns, tasks) => s.(jobs := s.jobs[ns := Begin(tasks)])
    case Api(ns, o) =>
      var (c, job) := JobCall(s.cluster, s.jobs[ns], o);
      System(c, s.jobs[ns := job])
    case Appear(ns, p, l) =>
      var n := s.cluster[ns];
      s.(cluster := s.cluster[ns := n.(pods := n.pods[p := l])])
    case Vanish(ns, p) =>
      var n := s.cluster[ns];
      s.(cluster := s.cluster[ns := n.(pods := n.pods - {p})])
  }

  ghost predicate PossibleRun(s: System, events: seq<Event>)
    decreases |events|
  {
    events == [] || (Possible(s, events[0]) && PossibleRun(Apply(s, events[0]), events[1..]))
  }

  function ApplyAll(s: System, events: seq<Event>): System
    requires PossibleRun(s, events)
    decreases |events|
  {
    if events == [] then s else ApplyAll(Apply(s, events[0]), events[1..])
  }
}
