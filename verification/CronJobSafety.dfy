/** At most one CronJob for each policy and type, and what becomes of the executor reference. */
module CronJobSafety {
  import opened Wrappers
  import opened CronJobs

  // ---- What every run keeps ----

  predicate AtMostOne(c: Cluster, p: string, kind: Kind) {
    forall a, b :: a in c && b in c && Match(c, a, p, kind) && Match(c, b, p, kind) ==> a == b
  }

  /** The reference, where there is one, names an existing job. */
  predicate Existing(c: Cluster, executor: Option<Key>) {
    executor.Some? ==> executor.value in c
  }

  /** ... of the policy. */
  predicate Names(c: Cluster, executor: Option<Key>, p: string) {
    executor.Some? ==> executor.value in c && c[executor.value].owner == p
  }

  /** At most one job of the type, and one is created only where there is none. */
  predicate CreatesOnlyFirst(s: System, p: string, kind: Kind) {
    && AtMostOne(s.cluster, p, kind)
    && (Running(s, p) && s.runs[p].pc == Create(kind) ==> !Has(s.cluster, p, kind))
  }

  /** Holds whatever is read, fails or is deleted. */
  ghost predicate Base(s: System) {
    && (forall p :: p in s.runs ==> p in s.policies)
    && (forall key :: key in s.cluster ==> s.cluster[key].owner in s.policies)
    && (forall p :: p in s.policies && s.policies[p].executor.Some? && Running(s, p) ==>
          s.runs[p].mem.executor == s.policies[p].executor)
  }

  lemma EnterKeeps(run: Run, rank: nat)
    ensures var t := Enter(run, rank); t.mem == run.mem && t.need == run.need && !t.pc.Create? && !t.pc.Fetch?
    decreases |KINDS| - rank
  {
    if rank < |KINDS| {
      EnterKeeps(run, rank + 1);
    }
  }

  /** The copy of the policy changes only by setting a reference that was not set. */
  lemma WorkKeepsReference(c: Cluster, policy: Policy, p: string, run: Run, r: Reply)
    ensures var (_, policy', run') := Work(c, policy, p, run, r);
      && run'.mem.spec == run.mem.spec && policy'.spec == policy.spec
      && (run'.mem.executor != run.mem.executor ==> run.mem.executor.None?)
      && (policy'.executor != policy.executor ==> run.pc == Save && policy'.executor == run.mem.executor)
      && (run'.pc.Create? ==> run.pc == Check(run'.pc.kind) && Found(r.seen, p, run, run.pc.kind, r.pick).None?)
  {
    forall a: Run, n: nat ensures Enter(a, n).mem == a.mem && !Enter(a, n).pc.Create? && !Enter(a, n).pc.Fetch? {
      EnterKeeps(a, n);
    }
  }

  /** A step of one policy leaves the jobs of all others. */
  lemma WorkIsLocal(c: Cluster, policy: Policy, p: string, run: Run, r: Reply, q: string, kind: Kind)
    requires q != p || run.pc != Create(kind)
    ensures var (c', _, _) := Work(c, policy, p, run, r);
      forall key :: Match(c', key, q, kind) <==> Match(c, key, q, kind)
  {
  }

  lemma SameMatches(c: Cluster, c': Cluster, p: string, kind: Kind)
    requires forall key :: Match(c', key, p, kind) ==> Match(c, key, p, kind)
    ensures AtMostOne(c, p, kind) ==> AtMostOne(c', p, kind)
    ensures !Has(c, p, kind) ==> !Has(c', p, kind)
  {
  }

  /** Creating where there is none leaves one. */
  lemma WorkCreates(c: Cluster, policy: Policy, p: string, run: Run, r: Reply, kind: Kind)
    requires run.pc == Create(kind) && !Has(c, p, kind)
    ensures var (c', _, run') := Work(c, policy, p, run, r); AtMostOne(c', p, kind) && !run'.pc.Create?
  {
    EnterKeeps(run, Rank(kind) + 1);
  }

  lemma EventKeepsBase(s: System, e: Event)
    requires Base(s) && Possible(s, e)
    ensures Base(Apply(s, e))
  {
    var t := Apply(s, e);
    forall p | p in t.policies && t.policies[p].executor.Some? && Running(t, p)
      ensures t.runs[p].mem.executor == t.policies[p].executor
    {
      if e.Step? && e.p == p {
        WorkKeepsReference(s.cluster, s.policies[p], p, s.runs[p], e.reply);
      }
      if e.Begin? && e.p == p {
        EnterKeeps(Run(s.policies[p], e.need, Done), 0);
      }
    }
  }

  lemma {:induction false} RunKeepsBase(s: System, events: seq<Event>)
    requires Base(s) && PossibleRun(s, events)
    ensures Base(ApplyAll(s, events))
    decreases |events|
  {
    if events != [] {
      EventKeepsBase(s, events[0]);
      RunKeepsBase(Apply(s, events[0]), events[1..]);
    }
  }

  /** With fresh reads, a step of a reconcile creates a job of a type only where there is none, unless it goes
      by a reference whose job is missing. */
  lemma StepKeepsKind(s: System, e: Event, p: string, kind: Kind)
    requires Possible(s, e) && e.Step? && CreatesOnlyFirst(s, p, kind) && Fresh(s, e, p)
    requires e.p == p && s.runs[p].pc == Check(kind) && ByReference(s.runs[p], kind) ==>
      Existing(s.cluster, s.runs[p].mem.executor)
    ensures CreatesOnlyFirst(Apply(s, e), p, kind)
  {
    var q, r := e.p, e.reply;
    var run := s.runs[q];
    if q == p && run.pc == Create(kind) {
      WorkCreates(s.cluster, s.policies[q], q, run, r, kind);
    } else {
      WorkIsLocal(s.cluster, s.policies[q], q, run, r, p, kind);
      SameMatches(s.cluster, Apply(s, e).cluster, p, kind);
      if q == p {
        WorkKeepsReference(s.cluster, s.policies[q], q, run, r);
      }
    }
  }

  lemma OtherKeepsKind(s: System, e: Event, p: string, kind: Kind)
    requires Possible(s, e) && !e.Step? && CreatesOnlyFirst(s, p, kind)
    ensures CreatesOnlyFirst(Apply(s, e), p, kind)
  {
    SameMatches(s.cluster, Apply(s, e).cluster, p, kind);
    if e.Begin? && e.p == p {
      EnterKeeps(Run(s.policies[p], e.need, Done), 0);
    }
  }

  // ---- The types looked up by labels ----

  lemma {:induction false} RunKeepsKind(s: System, events: seq<Event>, p: string, kind: Kind)
    requires CreatesOnlyFirst(s, p, kind) && kind != Inspection
    requires PossibleRun(s, events) && FreshRun(s, events, p)
    ensures CreatesOnlyFirst(ApplyAll(s, events), p, kind)
    decreases |events|
  {
    if events != [] {
      if events[0].Step? {
        StepKeepsKind(s, events[0], p, kind);
      } else {
        OtherKeepsKind(s, events[0], p, kind);
      }
      RunKeepsKind(Apply(s, events[0]), events[1..], p, kind);
    }
  }

  /** In every interleaving, with any call failing or losing its reply and whatever is deleted: if the reads
      for the policy are fresh, it never has two CronJobs of a type that is looked up by its labels. */
  lemma AtMostOneByLabels(events: seq<Event>, p: string, kind: Kind)
    requires PossibleRun(Start(), events) && FreshRun(Start(), events, p) && kind != Inspection
    ensures AtMostOne(ApplyAll(Start(), events).cluster, p, kind)
  {
    RunKeepsKind(Start(), events, p, kind);
  }

  // ---- The type looked up by reference ----

  /** Nobody deletes a job that an executor reference of `p` names, stored or in a running reconcile, nor one
      that its reconcile has just created. */
  predicate Spares(s: System, e: Event, p: string) {
    e.Delete? ==>
      && (p in s.policies ==> s.policies[p].executor != Some(e.key))
      && (Running(s, p) ==>
            s.runs[p].mem.executor != Some(e.key) && (s.runs[p].pc.Fetch? ==> s.runs[p].pc.key != e.key))
  }

  ghost predicate SparingRun(s: System, events: seq<Event>, p: string)
    requires PossibleRun(s, events)
    decreases |events|
  {
    events == [] || (Spares(s, events[0], p) && SparingRun(Apply(s, events[0]), events[1..], p))
  }

  /** The references of `p` name existing jobs. */
  predicate Kept(s: System, p: string) {
    && CreatesOnlyFirst(s, p, Inspection)
    && (p in s.policies ==> Existing(s.cluster, s.policies[p].executor))
    && (Running(s, p) ==> Existing(s.cluster, s.runs[p].mem.executor))
  }

  /** ... of the policy itself. */
  predicate Owned(s: System, p: string) {
    && (p in s.policies ==> Names(s.cluster, s.policies[p].executor, p))
    && (Running(s, p) ==> RunOwned(s.cluster, s.runs[p], p))
  }

  predicate RunOwned(c: Cluster, run: Run, p: string) {
    && Names(c, run.mem.executor, p)
    && (run.pc.Fetch? ==> Match(c, run.pc.key, p, run.pc.kind))
    && (run.pc == Create(Inspection) || (run.pc.Fetch? && run.pc.kind == Inspection) ==> run.mem.executor.None?)
  }

  /** The jobs that stay when nothing is deleted. */
  ghost predicate Grows(c: Cluster, c': Cluster) {
    forall key :: key in c ==> key in c' && c'[key] == c[key]
  }

  lemma WorkKeepsExisting(c: Cluster, policy: Policy, p: string, run: Run, r: Reply)
    requires Existing(c, policy.executor) && Existing(c, run.mem.executor) && IsFresh(c, run, r)
    ensures var (c', policy', run') := Work(c, policy, p, run, r);
      Grows(c, c') && Existing(c', policy'.executor) && Existing(c', run'.mem.executor)
  {
    forall a: Run, n: nat ensures Enter(a, n).mem == a.mem {
      EnterKeeps(a, n);
    }
  }

  lemma WorkKeepsOwned(c: Cluster, policy: Policy, p: string, run: Run, r: Reply)
    requires Names(c, policy.executor, p) && RunOwned(c, run, p) && Fits(p, run, r) && IsFresh(c, run, r)
    ensures var (c', policy', run') := Work(c, policy, p, run, r);
      Names(c', policy'.executor, p) && RunOwned(c', run', p)
  {
    forall a: Run, n: nat ensures Enter(a, n).mem == a.mem && !Enter(a, n).pc.Create? && !Enter(a, n).pc.Fetch? {
      EnterKeeps(a, n);
    }
  }

  lemma EventKeepsKept(s: System, e: Event, p: string)
    requires Base(s) && Kept(s, p) && Possible(s, e) && Fresh(s, e, p) && Spares(s, e, p)
    ensures Kept(Apply(s, e), p)
  {
    if e.Step? {
      StepKeepsKind(s, e, p, Inspection);
      if e.p == p {
        WorkKeepsExisting(s.cluster, s.policies[p], p, s.runs[p], e.reply);
      }
    } else {
      OtherKeepsKind(s, e, p, Inspection);
      if e.Begin? && e.p == p {
        EnterKeeps(Run(s.policies[p], e.need, Done), 0);
      }
    }
  }

  lemma {:induction false} RunKeepsKept(s: System, events: seq<Event>, p: string)
    requires Base(s) && Kept(s, p) && PossibleRun(s, events) && FreshRun(s, events, p) && SparingRun(s, events, p)
    ensures Kept(ApplyAll(s, events), p)
    decreases |events|
  {
    if events != [] {
      EventKeepsBase(s, events[0]);
      EventKeepsKept(s, events[0], p);
      RunKeepsKept(Apply(s, events[0]), events[1..], p);
    }
  }

  lemma EventKeepsOwned(s: System, e: Event, p: string)
    requires Base(s) && Owned(s, p) && Possible(s, e) && Fresh(s, e, p) && Spares(s, e, p)
    ensures Owned(Apply(s, e), p)
  {
    if e.Step? && e.p == p {
      WorkKeepsOwned(s.cluster, s.policies[p], p, s.runs[p], e.reply);
    } else if e.Step? {
      assert Grows(s.cluster, Apply(s, e).cluster);
    } else if e.Begin? && e.p == p {
      EnterKeeps(Run(s.policies[p], e.need, Done), 0);
    }
  }

  lemma {:induction false} RunKeepsOwned(s: System, events: seq<Event>, p: string)
    requires Base(s) && Owned(s, p) && PossibleRun(s, events) && FreshRun(s, events, p) && SparingRun(s, events, p)
    ensures Owned(ApplyAll(s, events), p)
    decreases |events|
  {
    if events != [] {
      EventKeepsBase(s, events[0]);
      EventKeepsOwned(s, events[0], p);
      RunKeepsOwned(Apply(s, events[0]), events[1..], p);
    }
  }

  // ---- Results ----

  /** With fresh reads for the policy, and while nobody deletes a job that it refers to: it has at most one
      CronJob of each type, and a reference that is set names an existing job of the policy. What happens
      to other policies does not matter. */
  lemma AtMostOneCronJob(events: seq<Event>, p: string, kind: Kind)
    requires PossibleRun(Start(), events) && FreshRun(Start(), events, p) && SparingRun(Start(), events, p)
    ensures var s := ApplyAll(Start(), events);
      && AtMostOne(s.cluster, p, kind)
      && (p in s.policies ==> Names(s.cluster, s.policies[p].executor, p))
  {
    RunKeepsKept(Start(), events, p);
    RunKeepsOwned(Start(), events, p);
    if kind != Inspection {
      AtMostOneByLabels(events, p, kind);
    }
  }

  /** A reference that is set never changes again, whatever is read, fails or is deleted. */
  lemma {:induction false} ReferenceIsForever(s: System, events: seq<Event>, p: string)
    requires Base(s) && PossibleRun(s, events) && p in s.policies && s.policies[p].executor.Some?
    ensures p in ApplyAll(s, events).policies
    ensures ApplyAll(s, events).policies[p].executor == s.policies[p].executor
    decreases |events|
  {
    if events != [] {
      var e := events[0];
      EventKeepsBase(s, e);
      if e.Step? && e.p == p {
        WorkKeepsReference(s.cluster, s.policies[p], p, s.runs[p], e.reply);
      }
      ReferenceIsForever(Apply(s, e), events[1..], p);
    }
  }

  // ---- A reference to a job of another type ----

  /** The reference names a job of another type, and there is no Inspection job. */
  predicate Misled(s: System, p: string) {
    && p in s.policies && s.policies[p].executor.Some?
    && s.policies[p].executor.value in s.cluster
    && s.cluster[s.policies[p].executor.value].kind != Inspection
    && !Has(s.cluster, p, Inspection)
  }

  lemma EventKeepsMisled(s: System, e: Event, p: string)
    requires Base(s) && Kept(s, p) && Owned(s, p) && Misled(s, p)
    requires Possible(s, e) && Fresh(s, e, p) && Spares(s, e, p)
    ensures Misled(Apply(s, e), p)
  {
    var t := Apply(s, e);
    if e.Step? {
      var run := s.runs[e.p];
      WorkKeepsReference(s.cluster, s.policies[e.p], e.p, run, e.reply);
      WorkIsLocal(s.cluster, s.policies[e.p], e.p, run, e.reply, p, Inspection);
    }
    SameMatches(s.cluster, t.cluster, p, Inspection);
  }

  /** Such a policy never gets an Inspection job, whatever image is configured and however often it is
      reconciled. */
  lemma {:induction false} MisledForever(s: System, events: seq<Event>, p: string)
    requires Base(s) && Kept(s, p) && Owned(s, p) && Misled(s, p)
    requires PossibleRun(s, events) && FreshRun(s, events, p) && SparingRun(s, events, p)
    ensures !Has(ApplyAll(s, events).cluster, p, Inspection)
    decreases |events|
  {
    if events != [] {
      EventKeepsBase(s, events[0]);
      EventKeepsKept(s, events[0], p);
      EventKeepsOwned(s, events[0], p);
      EventKeepsMisled(s, events[0], p);
      MisledForever(Apply(s, events[0]), events[1..], p);
    }
  }
}
