/** What the status of a policy says about its suspension, and what it leaves out. */
module CronJobStatus {
  import opened Wrappers
  import opened CronJobs
  import opened CronJobSafety
  import opened CronJobResult

  /** The status says what the specification wants. */
  predicate Shows(phase: Phase, suspend: bool) {
    if suspend then phase == Suspended else phase == Standby
  }

  /** The job of the type is there, by reference or by labels. */
  predicate JobThere(c: Cluster, policy: Policy, p: string, kind: Kind) {
    if kind == Inspection then
      policy.executor.Some? && policy.executor.value in c && c[policy.executor.value].owner == p
    else Has(c, p, kind) && AtMostOne(c, p, kind)
  }

  predicate JobsThere(c: Cluster, policy: Policy, p: string) {
    policy.executor.Some? && forall kind :: kind in policy.spec.images ==> JobThere(c, policy, p, kind)
  }

  /** The suspend flag of the job is not the one that the specification wants. */
  predicate Differs(c: Cluster, policy: Policy, p: string, kind: Kind) {
    if kind == Inspection then
      policy.executor.Some? && policy.executor.value in c && c[policy.executor.value].suspend != policy.spec.suspend
    else exists key :: key in c && Match(c, key, p, kind) && c[key].suspend != policy.spec.suspend
  }

  /** ... for a type among the first `n`. */
  predicate SomeDiffer(c: Cluster, policy: Policy, p: string, n: nat) {
    exists kind :: kind in policy.spec.images && Rank(kind) < n && Differs(c, policy, p, kind)
  }

  predicate SameJobs(c: Cluster, c': Cluster, p: string) {
    && (forall key :: key in c && c[key].owner == p ==> key in c' && c'[key] == c[key])
    && (forall key :: key in c' && c'[key].owner == p ==> key in c && c[key] == c'[key])
  }

  /** A reconcile that began at `c` and `policy`, as it goes on. */
  predicate Underway(c: Cluster, policy: Policy, need: bool, p: string, c': Cluster, phase: Phase, run: Run) {
    && SameJobs(c, c', p) && run.mem == policy && !run.pc.Create? && !run.pc.Fetch?
    && (run.pc.Check? ==> run.pc.kind in policy.spec.images)
    && (run.need <==> need || SomeDiffer(c, policy, p, Position(run.pc)))
    && (run.pc.Save? ==> run.need || policy.phase.Empty?)
    && if run.pc.Done? && (run.need || policy.phase.Empty?) then Shows(phase, policy.spec.suspend)
       else phase == policy.phase
  }

  lemma {:induction false} EnterUnderway(c: Cluster, policy: Policy, need: bool, p: string, c': Cluster,
                                         run: Run, rank: nat)
    requires rank <= |KINDS| && SameJobs(c, c', p) && run.mem == policy
    requires run.need <==> need || SomeDiffer(c, policy, p, rank)
    ensures Underway(c, policy, need, p, c', policy.phase, Enter(run, rank))
    decreases |KINDS| - rank
  {
    if rank < |KINDS| && KINDS[rank] !in policy.spec.images {
      assert forall kind :: Rank(kind) == rank ==> kind == KINDS[rank];
      EnterUnderway(c, policy, need, p, c', run, rank + 1);
    }
  }

  lemma SameFound(c: Cluster, policy: Policy, p: string, c': Cluster, run: Run, kind: Kind, pick: Key)
    requires SameJobs(c, c', p) && run.mem == policy && run.pc == Check(kind)
    requires JobsThere(c, policy, p) && kind in policy.spec.images
    requires ByReference(run, kind) || Match(c', pick, p, kind) || !Has(c', p, kind)
    ensures var found := Found(c', p, run, kind, pick);
      found.Some? && (Differs(c, policy, p, kind) <==> c'[found.value].suspend != policy.spec.suspend)
  {
    assert JobThere(c, policy, p, kind);
    if kind != Inspection {
      var key :| key in c && Match(c, key, p, kind);
      assert Match(c', key, p, kind);
      assert Match(c, pick, p, kind);
    }
  }

  lemma OneMoreRank(c: Cluster, policy: Policy, p: string, kind: Kind)
    requires kind in policy.spec.images
    ensures SomeDiffer(c, policy, p, Rank(kind) + 1) <==>
            SomeDiffer(c, policy, p, Rank(kind)) || Differs(c, policy, p, kind)
  {
  }

  lemma WorkUnderway(c: Cluster, policy: Policy, need: bool, p: string, c': Cluster, stored: Policy, run: Run, r: Reply)
    requires JobsThere(c, policy, p) && Underway(c, policy, need, p, c', stored.phase, run) && !run.pc.Done?
    requires Fits(p, run, r) && IsFresh(c', run, r) && r.outcome == Acked && r.generated
    ensures var (c'', stored', run') := Work(c', stored, p, run, r);
      Underway(c, policy, need, p, c'', stored'.phase, run')
  {
    if run.pc.Check? {
      var kind := run.pc.kind;
      SameFound(c, policy, p, c', run, kind, r.pick);
      OneMoreRank(c, policy, p, kind);
      var found := Found(c', p, run, kind, r.pick).value;
      var next := run.(need := run.need || c'[found].suspend != policy.spec.suspend);
      EnterUnderway(c, policy, need, p, c', next, Rank(kind) + 1);
    }
  }

  ghost predicate At(c: Cluster, policy: Policy, need: bool, p: string, s: System) {
    && p in s.policies && p in s.runs
    && Underway(c, policy, need, p, s.cluster, s.policies[p].phase, s.runs[p])
  }

  lemma OthersKeepJobs(c: Cluster, p: string, s: System, e: Event)
    requires SameJobs(c, s.cluster, p) && Possible(s, e)
    requires !(e.Step? && e.p == p) && (e.Delete? ==> s.cluster[e.key].owner != p)
    ensures SameJobs(c, Apply(s, e).cluster, p)
  {
  }

  lemma EventUnderway(c: Cluster, policy: Policy, need: bool, p: string, s: System, e: Event)
    requires JobsThere(c, policy, p) && At(c, policy, need, p, s)
    requires Possible(s, e) && Faultless(s, e, p)
    ensures At(c, policy, need, p, Apply(s, e))
  {
    if e.Step? && e.p == p {
      WorkUnderway(c, policy, need, p, s.cluster, s.policies[p], s.runs[p], e.reply);
    } else {
      OthersKeepJobs(c, p, s, e);
    }
  }

  lemma {:induction false} RunUnderway(c: Cluster, policy: Policy, need: bool, p: string, s: System, events: seq<Event>)
    requires JobsThere(c, policy, p) && At(c, policy, need, p, s)
    requires PossibleRun(s, events) && FaultlessRun(s, events, p)
    ensures At(c, policy, need, p, ApplyAll(s, events))
    decreases |events|
  {
    if events != [] {
      EventUnderway(c, policy, need, p, s, events[0]);
      RunUnderway(c, policy, need, p, Apply(s, events[0]), events[1..]);
    }
  }

  /** A complete reconcile without failures that finds the jobs of its policy leaves a status that says
      whether the policy is suspended if and only if it said so before, it was empty, another part of the
      reconcile asked for an update, or the suspend flag of a job differs from the policy's. */
  lemma ShownIff(s: System, p: string, need: bool, events: seq<Event>)
    requires Possible(s, Begin(p, need)) && JobsThere(s.cluster, s.policies[p], p)
    requires var s1 := Apply(s, Begin(p, need));
      PossibleRun(s1, events) && FaultlessRun(s1, events, p) && p in ApplyAll(s1, events).runs
      && ApplyAll(s1, events).runs[p].pc == Done
    ensures var t, policy := ApplyAll(Apply(s, Begin(p, need)), events), s.policies[p];
      && p in t.policies && SameJobs(s.cluster, t.cluster, p)
      && (Shows(t.policies[p].phase, policy.spec.suspend) <==>
          Shows(policy.phase, policy.spec.suspend) || policy.phase == Empty || need
          || SomeDiffer(s.cluster, policy, p, 3))
      && (!Shows(t.policies[p].phase, policy.spec.suspend) ==> t.policies[p].phase == policy.phase)
  {
    var policy := s.policies[p];
    EnterUnderway(s.cluster, policy, need, p, s.cluster, Run(policy, need, Done), 0);
    RunUnderway(s.cluster, policy, need, p, Apply(s, Begin(p, need)), events);
  }

  // ---- The suspension of the jobs themselves ----

  /** No run ever changes a job: suspending a policy or resuming it does not reach the jobs it has. */
  lemma {:induction false} JobsNeverChange(s: System, events: seq<Event>, key: Key)
    requires PossibleRun(s, events) && key in s.cluster && Delete(key) !in events
    ensures var t := ApplyAll(s, events); key in t.cluster && t.cluster[key] == s.cluster[key]
    decreases |events|
  {
    if events != [] {
      JobsNeverChange(Apply(s, events[0]), events[1..], key);
    }
  }

  /** One policy with one image and its job, and no reconcile under way. */
  predicate Resting(s: System, p: string, policy: Policy, key: Key, job: CronJob) {
    && s.cluster == map[key := job] && job.owner == p
    && s.policies == map[p := policy] && policy.executor == Some(key) && !policy.phase.Empty?
    && s.runs.Keys == {p} && !Running(s, p)
  }

  /** The policy gets another specification, followed by a complete reconcile. */
  function EditAndReconcile(p: string, spec: Spec, key: Key, job: CronJob): seq<Event> {
    var seeing := Step(p, Acking(map[key := job], "", key));
    [Edit(p, spec)] + ([Begin(p, false)] + ([seeing] + (if job.suspend != spec.suspend then [seeing] + [] else [])))
  }

  lemma ReconcileAlone(s: System, p: string, policy: Policy, key: Key, job: CronJob)
    requires Resting(s, p, policy, key, job) && policy.spec.images == {job.kind}
    ensures var rest := EditAndReconcile(p, policy.spec, key, job)[1..];
      Runs(s, rest, p)
      && Resting(ApplyAll(s, rest), p,
           if job.suspend == policy.spec.suspend then policy
           else policy.(phase := if policy.spec.suspend then Suspended else Standby), key, job)
  {
    var seeing := Step(p, Acking(map[key := job], "", key));
    var need := job.suspend != policy.spec.suspend;
    OneImage(Run(policy, false, Done), job.kind);
    OneImage(Run(policy, need, Check(job.kind)), job.kind);
    var s1 := s.(runs := map[p := Run(policy, false, Check(job.kind))]);
    var s2 := s.(runs := map[p := Run(policy, need, if need then Save else Done)]);
    var last := if need then [seeing] + [] else [];
    assert s.policies[p := policy] == s.policies;
    assert Apply(s1, seeing) == s2;
    if need {
      Before(s2, seeing, [], p);
    }
    Before(s1, seeing, last, p);
    assert Apply(s, Begin(p, false)) == s1;
    Before(s, Begin(p, false), [seeing] + last, p);
  }

  lemma EditedAndReconciled(s: System, p: string, policy: Policy, key: Key, job: CronJob, spec: Spec)
    requires Resting(s, p, policy, key, job) && spec.images == {job.kind}
    ensures var events := EditAndReconcile(p, spec, key, job);
      Runs(s, events, p)
      && Resting(ApplyAll(s, events), p,
           if job.suspend == spec.suspend then policy.(spec := spec)
           else policy.(spec := spec, phase := if spec.suspend then Suspended else Standby), key, job)
  {
    var t := Apply(s, Edit(p, spec));
    ReconcileAlone(t, p, policy.(spec := spec), key, job);
    Before(s, Edit(p, spec), EditAndReconcile(p, spec, key, job)[1..], p);
  }

  /** A policy that is suspended and then resumed, each with a complete reconcile, shows Suspended from then
      on, while neither the policy nor its job is suspended. */
  lemma ResumeIsNotShown(p: string, spec: Spec, kind: Kind, name: string)
    requires spec.images == {kind} && !spec.suspend
    ensures Runs(Start(), FirstEvents(p, spec, kind, name), p)
    ensures var s, key := ApplyAll(Start(), FirstEvents(p, spec, kind, name)), Key(spec.workNamespace, name);
      var job := CronJob(p, kind, false);
      var events := EditAndReconcile(p, spec.(suspend := true), key, job) + EditAndReconcile(p, spec, key, job);
      && Runs(s, events, p)
      && Resting(ApplyAll(s, events), p, Policy(spec, Some(key), Suspended), key, job)
  {
    FirstReconcile(p, spec, kind, name);
    var key, job := Key(spec.workNamespace, name), CronJob(p, kind, false);
    var s, wanted := Settled(p, spec, kind, name), spec.(suspend := true);
    EditedAndReconciled(s, p, Policy(spec, Some(key), Standby), key, job, wanted);
    var suspended := ApplyAll(s, EditAndReconcile(p, wanted, key, job));
    EditedAndReconciled(suspended, p, Policy(wanted, Some(key), Suspended), key, job, spec);
    Then(s, EditAndReconcile(p, wanted, key, job), EditAndReconcile(p, spec, key, job), p);
  }
}
