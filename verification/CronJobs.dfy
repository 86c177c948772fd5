/** The reconciler of inspection policies and the CronJobs it creates, one API call at a time. Reconciles of
    one policy follow each other; reconciles of different policies and edits of policies interleave. */
module CronJobs {
  import opened Wrappers

  /** The types of CronJob a policy has, in the order in which a reconcile takes them. */
  datatype Kind = Inspection | Risk | WorkloadScanner

  const KINDS := [Inspection, Risk, WorkloadScanner]

  function Rank(kind: Kind): (n: nat)
    ensures n < |KINDS| && KINDS[n] == kind
  {
    match kind
    case Inspection => 0
    case Risk => 1
    case WorkloadScanner => 2
  }

  datatype Key = Key(namespace: string, name: string)

  /** A CronJob with its two labels, owner and type. */
  datatype CronJob = CronJob(owner: string, kind: Kind, suspend: bool)

  type Cluster = map<Key, CronJob>

  datatype Phase = Empty | Standby | Suspended

  /** `images` are the types an image is configured for. */
  datatype Spec = Spec(workNamespace: string, images: set<Kind>, suspend: bool)

  /** `executor` is InspectionExecutor. The other two executor references are never set. */
  datatype Policy = Policy(spec: Spec, executor: Option<Key>, phase: Phase)

  // ---- One reconcile ----

  datatype Pc =
    | Check(kind: Kind)
    | Create(kind: Kind)
    | Fetch(kind: Kind, key: Key)
    | Save
    | Done

  /** A reconcile: its copy of the policy, and whether the status needs an update. */
  datatype Run = Run(mem: Policy, need: bool, pc: Pc)

  /** What a step meets: the end of its call, the CronJobs that the manager's caching client shows it, the
      first one of a list, whether the wanted job and a reference can be built, and the generated name. */
  datatype Reply = Reply(outcome: Outcome, seen: Cluster, pick: Key, generated: bool, refers: bool, name: string)

  predicate Match(c: Cluster, key: Key, p: string, kind: Kind) {
    key in c && c[key].owner == p && c[key].kind == kind
  }

  predicate Has(c: Cluster, p: string, kind: Kind) {
    exists key :: key in c && Match(c, key, p, kind)
  }

  /** The type at `rank` or the first one after it that has an image, and at last the status. */
  function Enter(run: Run, rank: nat): Run
    decreases |KINDS| - rank
  {
    if rank >= |KINDS| then run.(pc := if run.need || run.mem.phase.Empty? then Save else Done)
    else if KINDS[rank] in run.mem.spec.images then run.(pc := Check(KINDS[rank]))
    else Enter(run, rank + 1)
  }

  function Advance(run: Run, kind: Kind): Run {
    Enter(run, Rank(kind) + 1)
  }

  /** Whether the type is looked up by reference; otherwise by labels. */
  predicate ByReference(run: Run, kind: Kind) {
    kind == Inspection && run.mem.executor.Some?
  }

  /** checkCronJob */
  function Found(seen: Cluster, p: string, run: Run, kind: Kind, pick: Key): (key: Option<Key>)
    ensures key.Some? ==> key.value in seen
  {
    if ByReference(run, kind) then if run.mem.executor.value in seen then run.mem.executor else None
    else if Match(seen, pick, p, kind) then Some(pick)
    else None
  }

  /** The end of cronjobForInspection with a job in hand. */
  function Refer(run: Run, kind: Kind, key: Key, need: bool, refers: bool): Run {
    if run.mem.executor.Some? then Advance(run.(need := run.need || need), kind)
    else if refers then Advance(run.(mem := run.mem.(executor := Some(key)), need := true), kind)
    else Advance(run, kind)
  }

  /** A list that is not empty has a first item. */
  predicate Fits(p: string, run: Run, r: Reply) {
    match run.pc
    case Check(kind) => !ByReference(run, kind) ==> Match(r.seen, r.pick, p, kind) || !Has(r.seen, p, kind)
    case _ => true
  }

  /** A read shows the CronJobs as they are. */
  predicate IsFresh(c: Cluster, run: Run, r: Reply) {
    run.pc.Check? || run.pc.Fetch? ==> r.seen == c
  }

  function PhaseOf(spec: Spec): Phase {
    if spec.suspend then Suspended else Standby
  }

  function Work(c: Cluster, policy: Policy, p: string, run: Run, r: Reply): (Cluster, Policy, Run) {
    match run.pc
    case Done => (c, policy, run)
    case Check(kind) =>
      var found := Found(r.seen, p, run, kind, r.pick);
      (c, policy,
       if !r.outcome.Succeeded() || !r.generated then Advance(run, kind)
       else if found.None? then run.(pc := Create(kind))
       else Refer(run, kind, found.value, r.seen[found.value].suspend != run.mem.spec.suspend, r.refers))
    case Create(kind) =>
      var key := Key(run.mem.spec.workNamespace, r.name);
      (if r.outcome.Applied() && key !in c then c[key := CronJob(p, kind, run.mem.spec.suspend)] else c, policy,
       if r.outcome.Succeeded() && key !in c then run.(pc := Fetch(kind, key)) else Advance(run, kind))
    case Fetch(kind, key) =>
      (c, policy,
       if r.outcome.Succeeded() && key in r.seen then Refer(run, kind, key, false, r.refers) else Advance(run, kind))
    case Save =>
      (c, if r.outcome.Applied() then policy.(executor := run.mem.executor, phase := PhaseOf(run.mem.spec)) else policy,
       run.(pc := Done))
  }

  /** A reconcile starts from the policy as it is; `need` says whether its other parts change the status. */
  function StartRun(policy: Policy, need: bool): Run {
    Enter(Run(policy, need, Done), 0)
  }

  // ---- The whole system ----

  /** Every policy with its latest reconcile. */
  datatype System = System(cluster: Cluster, policies: map<string, Policy>, runs: map<string, Run>)

  datatype Event =
    | Add(p: string, spec: Spec)
    | Edit(p: string, spec: Spec)
    | Begin(p: string, need: bool)
    | Step(p: string, reply: Reply)
    | Delete(key: Key)

  predicate Running(s: System, p: string) {
    p in s.runs && s.runs[p].pc != Done
  }

  predicate Possible(s: System, e: Event) {
    match e
    case Add(p, _) => p !in s.policies
    case Edit(p, _) => p in s.policies
    case Begin(p, _) => p in s.policies && !Running(s, p)
    case Step(p, r) => p in s.policies && Running(s, p) && Fits(p, s.runs[p], r)
    case Delete(key) => key in s.cluster
  }

  function Apply(s: System, e: Event): System
    requires Possible(s, e)
  {
    match e
    case Add(p, spec) => s.(policies := s.policies[p := Policy(spec, None, Empty)])
    case Edit(p, spec) => s.(policies := s.policies[p := s.policies[p].(spec := spec)])
    case Begin(p, need) => s.(runs := s.runs[p := StartRun(s.policies[p], need)])
    case Step(p, r) =>
      var (c, policy, run) := Work(s.cluster, s.policies[p], p, s.runs[p], r);
      System(c, s.policies[p := policy], s.runs[p := run])
    case Delete(key) => s.(cluster := s.cluster - {key})
  }

  ghost predicate PossibleRun(s: System, events: seq<Event>)
    decreases |events|
  {
    events == [] || (Possible(s, events[0]) && PossibleRun(Apply(s, events[0]), events[1..]))
  }

  function ApplyAll(s: System, events: seq<Event>): System
    requires PossibleRun(s, events)
    decreases |events|
  {
    if events == [] then s else ApplyAll(Apply(s, events[0]), events[1..])
  }

  /** Every read that a reconcile of `p` makes is fresh. */
  ghost predicate FreshRun(s: System, events: seq<Event>, p: string)
    requires PossibleRun(s, events)
    decreases |events|
  {
    events == [] || (Fresh(s, events[0], p) && FreshRun(Apply(s, events[0]), events[1..], p))
  }

  predicate Fresh(s: System, e: Event, p: string)
    requires Possible(s, e)
  {
    e.Step? && e.p == p ==> IsFresh(s.cluster, s.runs[p], e.reply)
  }

  /** No policy yet, and no CronJob of one. */
  function Start(): System {
    System(map[], map[], map[])
  }
}
