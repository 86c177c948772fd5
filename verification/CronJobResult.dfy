/** What a reconcile without failures leaves behind, and what it never repairs. */
module CronJobResult {
  import opened Wrappers
  import opened CronJobs
  import opened CronJobSafety

  // ---- A reconcile of one policy among those of others ----

  /** No call of `p` fails or shows an old state, its generated names are free, it starts no second
      reconcile, and none of its jobs is deleted. */
  predicate Faultless(s: System, e: Event, p: string)
    requires Possible(s, e)
  {
    && Fresh(s, e, p)
    && match e
       case Delete(key) => s.cluster[key].owner != p
       case Begin(q, _) => q != p
       case Step(q, r) =>
         q == p ==>
           && r.outcome == Acked && r.generated && r.refers
           && (s.runs[p].pc.Create? ==> Key(s.runs[p].mem.spec.workNamespace, r.name) !in s.cluster)
       case _ => true
  }

  ghost predicate FaultlessRun(s: System, events: seq<Event>, p: string)
    requires PossibleRun(s, events)
    decreases |events|
  {
    events == [] || (Faultless(s, events[0], p) && FaultlessRun(Apply(s, events[0]), events[1..], p))
  }

  function Position(pc: Pc): nat {
    match pc
    case Check(kind) => Rank(kind)
    case Create(kind) => Rank(kind)
    case Fetch(kind, _) => Rank(kind)
    case _ => |KINDS|
  }

  /** Once the reconcile has passed the type, its job is there; for Inspection that needs a reference, if
      there is one, not to stand in the way. */
  predicate Served(c: Cluster, run: Run, p: string, kind: Kind) {
    && kind in run.mem.spec.images
    && (Rank(kind) < Position(run.pc) ==> Has(c, p, kind))
    && (kind == Inspection && run.mem.executor.Some? ==> Has(c, p, kind))
  }

  /** The next type with an image comes after `rank`, and those in between have none. */
  lemma EnterSkips(run: Run, rank: nat)
    ensures var t := Enter(run, rank);
      && t.mem == run.mem && !t.pc.Create? && !t.pc.Fetch?
      && (rank <= |KINDS| ==> Position(t.pc) >= rank)
      && forall kind :: rank <= Rank(kind) < Position(t.pc) ==> kind !in run.mem.spec.images
    decreases |KINDS| - rank
  {
    if rank < |KINDS| {
      EnterSkips(run, rank + 1);
    }
  }

  /** The jobs of `p` stay. */
  ghost predicate OwnGrow(c: Cluster, c': Cluster, p: string) {
    forall key :: key in c && c[key].owner == p ==> key in c' && c'[key] == c[key]
  }

  lemma HasGrows(c: Cluster, c': Cluster, p: string, kind: Kind)
    requires OwnGrow(c, c', p) && Has(c, p, kind)
    ensures Has(c', p, kind)
  {
    var key :| key in c && Match(c, key, p, kind);
    assert Match(c', key, p, kind);
  }

  lemma WorkServes(c: Cluster, policy: Policy, p: string, run: Run, r: Reply, kind: Kind)
    requires RunOwned(c, run, p) && Served(c, run, p, kind) && Fits(p, run, r) && IsFresh(c, run, r) && !run.pc.Done?
    requires r.outcome == Acked && r.generated && r.refers
    requires run.pc.Create? ==> Key(run.mem.spec.workNamespace, r.name) !in c
    ensures var (c', _, run') := Work(c, policy, p, run, r); Served(c', run', p, kind)
  {
    var (c', _, run') := Work(c, policy, p, run, r);
    forall a: Run, n: nat
      ensures Enter(a, n).mem == a.mem
      ensures n <= Rank(kind) && kind in a.mem.spec.images ==> Rank(kind) >= Position(Enter(a, n).pc)
    {
      EnterSkips(a, n);
    }
    if Has(c, p, kind) {
      HasGrows(c, c', p, kind);
    }
    if Position(run.pc) == Rank(kind) {
      assert run.pc.kind == kind;
      if run.pc.Create? {
        assert Match(c', Key(run.mem.spec.workNamespace, r.name), p, kind);
      }
      if run.pc.Fetch? {
        assert Match(c, run.pc.key, p, kind);
      }
      if run.pc.Check? && !ByReference(run, kind) && Found(r.seen, p, run, kind, r.pick).Some? {
        assert Match(c, r.pick, p, kind);
      }
    }
  }

  /** What is needed of the state for one policy. */
  ghost predicate Sound(s: System, p: string) {
    Base(s) && Kept(s, p) && Owned(s, p)
  }

  lemma FaultlessSpares(s: System, e: Event, p: string)
    requires Owned(s, p) && Possible(s, e) && Faultless(s, e, p)
    ensures Fresh(s, e, p) && Spares(s, e, p)
  {
  }

  lemma EventKeepsSound(s: System, e: Event, p: string)
    requires Sound(s, p) && Possible(s, e) && Fresh(s, e, p) && Spares(s, e, p)
    ensures Sound(Apply(s, e), p)
  {
    EventKeepsBase(s, e);
    EventKeepsKept(s, e, p);
    EventKeepsOwned(s, e, p);
  }

  lemma EventServes(s: System, e: Event, p: string, kind: Kind)
    requires Sound(s, p) && Possible(s, e) && Faultless(s, e, p)
    requires p in s.policies && p in s.runs && Served(s.cluster, s.runs[p], p, kind)
    ensures var t := Apply(s, e);
      Sound(t, p) && p in t.policies && p in t.runs && Served(t.cluster, t.runs[p], p, kind)
  {
    FaultlessSpares(s, e, p);
    EventKeepsSound(s, e, p);
    var t := Apply(s, e);
    if e.Step? && e.p == p {
      WorkServes(s.cluster, s.policies[p], p, s.runs[p], e.reply, kind);
    } else {
      assert OwnGrow(s.cluster, t.cluster, p);
      if Has(s.cluster, p, kind) {
        HasGrows(s.cluster, t.cluster, p, kind);
      }
    }
  }

  lemma {:induction false} RunServes(s: System, events: seq<Event>, p: string, kind: Kind)
    requires Sound(s, p) && PossibleRun(s, events) && FaultlessRun(s, events, p)
    requires p in s.policies && p in s.runs && Served(s.cluster, s.runs[p], p, kind)
    ensures var t := ApplyAll(s, events); p in t.runs && Served(t.cluster, t.runs[p], p, kind)
    decreases |events|
  {
    if events != [] {
      EventServes(s, events[0], p, kind);
      RunServes(Apply(s, events[0]), events[1..], p, kind);
    }
  }

  lemma {:induction false} FaultlessRunSpares(s: System, events: seq<Event>, p: string)
    requires Sound(s, p) && PossibleRun(s, events) && FaultlessRun(s, events, p)
    ensures FreshRun(s, events, p) && SparingRun(s, events, p)
    decreases |events|
  {
    if events != [] {
      FaultlessSpares(s, events[0], p);
      EventKeepsSound(s, events[0], p);
      FaultlessRunSpares(Apply(s, events[0]), events[1..], p);
    }
  }

  /** A complete reconcile without failures, among any events of other policies, leaves a CronJob for every
      type with an image, except for Inspection if and only if the policy's reference named a job of
      another type when it began. */
  lemma FaultlessReconcileIff(s: System, p: string, need: bool, events: seq<Event>, kind: Kind)
    requires Sound(s, p) && Possible(s, Begin(p, need))
    requires var s1 := Apply(s, Begin(p, need));
      PossibleRun(s1, events) && FaultlessRun(s1, events, p) && p in ApplyAll(s1, events).runs
      && ApplyAll(s1, events).runs[p].pc == Done
    requires kind in s.policies[p].spec.images
    ensures var t := ApplyAll(Apply(s, Begin(p, need)), events);
      Has(t.cluster, p, kind) <==> !(kind == Inspection && Misled(s, p))
  {
    var s1 := Apply(s, Begin(p, need));
    EventKeepsSound(s, Begin(p, need), p);
    FaultlessRunSpares(s1, events, p);
    EnterSkips(Run(s.policies[p], need, Done), 0);
    if kind == Inspection && Misled(s, p) {
      EventKeepsMisled(s, Begin(p, need), p);
      MisledForever(s1, events, p);
    } else {
      var executor := s.policies[p].executor;
      if kind == Inspection && executor.Some? && s.cluster[executor.value].kind == Inspection {
        assert Match(s.cluster, executor.value, p, Inspection);
      }
      RunServes(s1, events, p, kind);
    }
  }

  /** Every run from the beginning leads to such states. */
  lemma SoundFromTheStart(events: seq<Event>, p: string)
    requires PossibleRun(Start(), events) && FreshRun(Start(), events, p) && SparingRun(Start(), events, p)
    ensures Sound(ApplyAll(Start(), events), p)
  {
    RunKeepsBase(Start(), events);
    RunKeepsKept(Start(), events, p);
    RunKeepsOwned(Start(), events, p);
  }

  // ---- Two states the reconciler does not leave ----

  function Acking(seen: Cluster, name: string, pick: Key): Reply {
    Reply(Acked, seen, pick, true, true, name)
  }

  /** A run whose reads for `p` are fresh. */
  ghost predicate Runs(s: System, events: seq<Event>, p: string) {
    PossibleRun(s, events) && FreshRun(s, events, p)
  }

  lemma Before(s: System, e: Event, rest: seq<Event>, p: string)
    requires Possible(s, e) && Fresh(s, e, p) && Runs(Apply(s, e), rest, p)
    ensures Runs(s, [e] + rest, p) && ApplyAll(s, [e] + rest) == ApplyAll(Apply(s, e), rest)
  {
    assert ([e] + rest)[1..] == rest;
  }

  /** One policy with one image, after its first reconcile. */
  function Settled(p: string, spec: Spec, kind: Kind, name: string): System {
    var key := Key(spec.workNamespace, name);
    System(map[key := CronJob(p, kind, spec.suspend)],
           map[p := Policy(spec, Some(key), if spec.suspend then Suspended else Standby)],
           map[p := Run(Policy(spec, Some(key), Empty), true, Done)])
  }

  lemma OneImage(run: Run, kind: Kind)
    requires run.mem.spec.images == {kind}
    ensures Enter(run, 0) == run.(pc := Check(kind))
    ensures Advance(run, kind) == run.(pc := if run.need || run.mem.phase.Empty? then Save else Done)
  {
    assert Inspection in run.mem.spec.images <==> kind == Inspection;
    assert Risk in run.mem.spec.images <==> kind == Risk;
    assert WorkloadScanner in run.mem.spec.images <==> kind == WorkloadScanner;
    assert Enter(run, 3) == run.(pc := if run.need || run.mem.phase.Empty? then Save else Done);
    assert KINDS[2] == WorkloadScanner && KINDS[1] == Risk && KINDS[0] == Inspection;
    assert kind != WorkloadScanner ==> Enter(run, 2) == Enter(run, 3);
    assert kind == Inspection ==> Enter(run, 1) == Enter(run, 2);
    assert kind == WorkloadScanner ==> Enter(run, 1) == Enter(run, 2);
  }

  function FirstEvents(p: string, spec: Spec, kind: Kind, name: string): seq<Event> {
    var key := Key(spec.workNamespace, name);
    var blind := Step(p, Acking(map[], name, key));
    var seeing := Step(p, Acking(map[key := CronJob(p, kind, spec.suspend)], name, key));
    [Add(p, spec)] + ([Begin(p, false)] + ([blind] + ([blind] + ([seeing] + ([seeing] + [])))))
  }

  /** The first reconcile sets the reference to the job of the first type with an image. */
  lemma FirstReconcile(p: string, spec: Spec, kind: Kind, name: string)
    requires spec.images == {kind}
    ensures Runs(Start(), FirstEvents(p, spec, kind, name), p)
    ensures ApplyAll(Start(), FirstEvents(p, spec, kind, name)) == Settled(p, spec, kind, name)
  {
    var key := Key(spec.workNamespace, name);
    var job := CronJob(p, kind, spec.suspend);
    var blind := Step(p, Acking(map[], name, key));
    var seeing := Step(p, Acking(map[key := job], name, key));
    var mem := Policy(spec, None, Empty);
    var run := Run(mem, false, Check(kind));
    OneImage(Run(mem, false, Done), kind);
    var saved := Run(mem.(executor := Some(key)), true, Save);
    OneImage(saved.(pc := Fetch(kind, key)), kind);
    var s2 := System(map[], map[p := mem], map[p := run]);
    var s3 := System(map[], map[p := mem], map[p := run.(pc := Create(kind))]);
    var s4 := System(map[key := job], map[p := mem], map[p := run.(pc := Fetch(kind, key))]);
    var s5 := System(map[key := job], map[p := mem], map[p := saved]);
    assert Apply(s5, seeing) == Settled(p, spec, kind, name);
    Before(s5, seeing, [], p);
    assert Refer(run.(pc := Fetch(kind, key)), kind, key, false, true) == saved;
    assert Apply(s4, seeing) == s5;
    Before(s4, seeing, [seeing] + [], p);
    assert Apply(s3, blind) == s4;
    Before(s3, blind, [seeing] + ([seeing] + []), p);
    assert Apply(s2, blind) == s3;
    var rest := [blind] + ([blind] + ([seeing] + ([seeing] + [])));
    Before(s2, blind, [blind] + ([seeing] + ([seeing] + [])), p);
    var s1 := System(map[], map[p := mem], map[]);
    assert Apply(s1, Begin(p, false)) == s2;
    Before(s1, Begin(p, false), rest, p);
    assert Apply(Start(), Add(p, spec)) == s1;
    Before(Start(), Add(p, spec), [Begin(p, false)] + rest, p);
  }

  /** A policy that first had the risk image alone is misled: an inspection image added later has no effect. */
  lemma LateImageMisleads(p: string, spec: Spec, later: Spec, name: string)
    requires spec.images == {Risk}
    ensures Runs(Start(), FirstEvents(p, spec, Risk, name), p)
    ensures var s := ApplyAll(Start(), FirstEvents(p, spec, Risk, name));
      Possible(s, Edit(p, later)) && Misled(Apply(s, Edit(p, later)), p)
  {
    FirstReconcile(p, spec, Risk, name);
  }

  /** Fresh reads are needed: with a list from before the first reconcile, the second one creates a second
      CronJob of the type. */
  lemma StaleListDuplicates(p: string, spec: Spec, kind: Kind, name: string, other: string)
    requires spec.images == {kind} && kind != Inspection && other != name
    ensures Runs(Start(), FirstEvents(p, spec, kind, name), p)
    ensures var s := ApplyAll(Start(), FirstEvents(p, spec, kind, name));
            var stale := Step(p, Acking(map[], other, Key("", "")));
            var events := [Begin(p, false)] + ([stale] + ([stale] + []));
      PossibleRun(s, events) && !AtMostOne(ApplyAll(s, events).cluster, p, kind)
  {
    FirstReconcile(p, spec, kind, name);
    var s := Settled(p, spec, kind, name);
    var stale := Step(p, Acking(map[], other, Key("", "")));
    OneImage(Run(s.policies[p], false, Done), kind);
    var s1 := Apply(s, Begin(p, false));
    var s2 := Apply(s1, stale);
    assert s2.runs[p].pc == Create(kind);
    var s3 := Apply(s2, stale);
    var a, b := Key(spec.workNamespace, name), Key(spec.workNamespace, other);
    assert Match(s3.cluster, a, p, kind) && Match(s3.cluster, b, p, kind);
    var q := p + "'";
    Before(s2, stale, [], q);
    Before(s1, stale, [stale] + [], q);
    Before(s, Begin(p, false), [stale] + ([stale] + []), q);
  }

  // ---- After a deletion ----

  function Inspections(c: Cluster, p: string): set<Key> {
    set key | key in c && Match(c, key, p, Inspection)
  }

  /** The reference names nothing, and no reconcile is on its way. */
  predicate Dangling(s: System, p: string) {
    && p in s.policies && !Running(s, p)
    && s.policies[p].executor.Some? && s.policies[p].executor.value !in s.cluster
    && s.policies[p].spec.images == {Inspection} && !s.policies[p].phase.Empty?
  }

  function NewJob(policy: Policy, p: string): CronJob {
    CronJob(p, Inspection, policy.spec.suspend)
  }

  function NewKey(policy: Policy, name: string): Key {
    Key(policy.spec.workNamespace, name)
  }

  function Again(c: Cluster, policy: Policy, p: string, name: string): seq<Event> {
    var seeing := Step(p, Acking(c, name, Key("", "")));
    var later := Step(p, Acking(c[NewKey(policy, name) := NewJob(policy, p)], name, Key("", "")));
    [Begin(p, false)] + ([seeing] + ([seeing] + ([later] + [])))
  }

  lemma AgainCreates(s: System, p: string, name: string)
    requires Dangling(s, p)
    requires var key := NewKey(s.policies[p], name); key !in s.cluster && Some(key) != s.policies[p].executor
    ensures Runs(s, Again(s.cluster, s.policies[p], p, name), p)
    ensures var t := ApplyAll(s, Again(s.cluster, s.policies[p], p, name));
      && t.policies == s.policies && Dangling(t, p)
      && t.cluster == s.cluster[NewKey(s.policies[p], name) := NewJob(s.policies[p], p)]
  {
    var policy := s.policies[p];
    var key := NewKey(policy, name);
    var c := s.cluster[key := NewJob(policy, p)];
    var seeing := Step(p, Acking(s.cluster, name, Key("", "")));
    var later := Step(p, Acking(c, name, Key("", "")));
    var run := Run(policy, false, Check(Inspection));
    OneImage(Run(policy, false, Done), Inspection);
    OneImage(run.(pc := Fetch(Inspection, key)), Inspection);
    var s1 := s.(runs := s.runs[p := run]);
    var s2 := s.(runs := s.runs[p := run.(pc := Create(Inspection))]);
    var s3 := System(c, s.policies, s.runs[p := run.(pc := Fetch(Inspection, key))]);
    var s4 := System(c, s.policies, s.runs[p := run.(pc := Done)]);
    assert s.policies[p := policy] == s.policies;
    assert Apply(s3, later) == s4;
    Before(s3, later, [], p);
    assert Apply(s2, seeing) == s3;
    Before(s2, seeing, [later] + [], p);
    assert Apply(s1, seeing) == s2;
    Before(s1, seeing, [seeing] + ([later] + []), p);
    assert Apply(s, Begin(p, false)) == s1;
    Before(s, Begin(p, false), [seeing] + ([seeing] + ([later] + [])), p);
  }

  lemma OneMore(c: Cluster, p: string, key: Key, suspend: bool)
    requires key !in c
    ensures |Inspections(c[key := CronJob(p, Inspection, suspend)], p)| == |Inspections(c, p)| + 1
  {
    assert Inspections(c[key := CronJob(p, Inspection, suspend)], p) == Inspections(c, p) + {key};
  }

  /** Names of jobs that do not exist and that the reference does not name. */
  predicate Free(c: Cluster, policy: Policy, names: seq<string>) {
    && (forall i :: 0 <= i < |names| ==>
          NewKey(policy, names[i]) !in c && Some(NewKey(policy, names[i])) != policy.executor)
    && (forall i, j :: 0 <= i < j < |names| ==> names[i] != names[j])
  }

  lemma FreeTail(c: Cluster, policy: Policy, p: string, names: seq<string>)
    requires names != [] && Free(c, policy, names)
    ensures Free(c[NewKey(policy, names[0]) := NewJob(policy, p)], policy, names[1..])
  {
    forall i | 0 <= i < |names[1..]| ensures names[1..][i] == names[i + 1] {
    }
  }

  function AgainAll(c: Cluster, policy: Policy, p: string, names: seq<string>): seq<Event>
    decreases |names|
  {
    if names == [] then []
    else
      Again(c, policy, p, names[0])
      + AgainAll(c[NewKey(policy, names[0]) := NewJob(policy, p)], policy, p, names[1..])
  }

  lemma {:induction false} Then(s: System, a: seq<Event>, b: seq<Event>, p: string)
    requires Runs(s, a, p) && Runs(ApplyAll(s, a), b, p)
    ensures Runs(s, a + b, p) && ApplyAll(s, a + b) == ApplyAll(ApplyAll(s, a), b)
    decreases |a|
  {
    if a == [] {
      assert a + b == b;
    } else {
      assert (a + b)[0] == a[0] && (a + b)[1..] == a[1..] + b;
      Then(Apply(s, a[0]), a[1..], b, p);
    }
  }

  /** Once the referenced job is deleted, every further reconcile adds another Inspection job, without
      end: the reference is looked up, found missing, and not replaced. */
  lemma {:induction false} DeletionMultiplies(s: System, p: string, names: seq<string>)
    requires Dangling(s, p) && Free(s.cluster, s.policies[p], names)
    ensures var events := AgainAll(s.cluster, s.policies[p], p, names);
      Runs(s, events, p) && |Inspections(ApplyAll(s, events).cluster, p)| == |Inspections(s.cluster, p)| + |names|
    decreases |names|
  {
    if names != [] {
      var policy := s.policies[p];
      AgainCreates(s, p, names[0]);
      var again := Again(s.cluster, policy, p, names[0]);
      var t := ApplyAll(s, again);
      OneMore(s.cluster, p, NewKey(policy, names[0]), policy.spec.suspend);
      FreeTail(s.cluster, policy, p, names);
      DeletionMultiplies(t, p, names[1..]);
      Then(s, again, AgainAll(t.cluster, policy, p, names[1..]), p);
    }
  }

  /** And that is reached by one reconcile and one deletion. */
  lemma DeletionReached(p: string, spec: Spec, name: string)
    requires spec.images == {Inspection}
    ensures Runs(Start(), FirstEvents(p, spec, Inspection, name), p)
    ensures var s, key := ApplyAll(Start(), FirstEvents(p, spec, Inspection, name)), Key(spec.workNamespace, name);
      Possible(s, Delete(key)) && Dangling(Apply(s, Delete(key)), p)
  {
    FirstReconcile(p, spec, Inspection, name);
  }
}
