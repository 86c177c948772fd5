/** What the goroutine pool guarantees over every schedule. */
module PoolSafety {
  import opened Wrappers
  import opened Sequences
  import opened PoolModel
  import Strings

  // ---- Counting one job in the pool ----

  /** Three views of a runner: its job as not yet done, as run but not done, as reported but not done. */
  datatype View = Live | Ran | Told

  predicate Shows(phase: Phase, v: View) {
    match v
    case Live => phase != Finished
    case Ran => phase == Emitted || phase == Reported
    case Told => phase == Reported
  }

  function One(r: Runner, v: View, j: Job): nat {
    if r.job == j && Shows(r.phase, v) then 1 else 0
  }

  /** How many runners show job `j` in view `v`. */
  function Tally(rs: seq<Runner>, v: View, j: Job): nat {
    if rs == [] then 0 else One(rs[0], v, j) + Tally(rs[1..], v, j)
  }

  lemma {:induction false} TallySplit(a: seq<Runner>, b: seq<Runner>, v: View, j: Job)
    ensures Tally(a + b, v, j) == Tally(a, v, j) + Tally(b, v, j)
  {
    if a == [] {
      assert a + b == b;
    } else {
      TallySplit(a[1..], b, v, j);
      assert (a + b)[1..] == a[1..] + b;
    }
  }

  lemma TallyAdd(rs: seq<Runner>, r: Runner, v: View, j: Job)
    ensures Tally(rs + [r], v, j) == Tally(rs, v, j) + One(r, v, j)
  {
    TallySplit(rs, [r], v, j);
    assert [r][1..] == [];
  }

  lemma TallyAt(rs: seq<Runner>, i: nat, v: View, j: Job)
    requires i < |rs|
    ensures Tally(rs, v, j) == Tally(rs[..i], v, j) + One(rs[i], v, j) + Tally(rs[i + 1..], v, j)
  {
    TallySplit(rs[..i], rs[i..], v, j);
    assert rs == rs[..i] + rs[i..];
  }

  lemma TallyUpdate(rs: seq<Runner>, i: nat, r: Runner, v: View, j: Job)
    requires i < |rs|
    ensures Tally(rs[i := r], v, j) == Tally(rs, v, j) - One(rs[i], v, j) + One(r, v, j)
  {
    TallyAt(rs, i, v, j);
    TallyAt(rs[i := r], i, v, j);
    assert rs[i := r][..i] == rs[..i] && rs[i := r][i + 1..] == rs[i + 1..];
  }

  lemma TallyRemove(rs: seq<Runner>, i: nat, v: View, j: Job)
    requires i < |rs|
    ensures Tally(rs[..i] + rs[i + 1..], v, j) == Tally(rs, v, j) - One(rs[i], v, j)
  {
    TallyAt(rs, i, v, j);
    TallySplit(rs[..i], rs[i + 1..], v, j);
  }

  // ---- The invariant ----

  function Held(p: Processor, j: Job): nat {
    if p == Holding(j) then 1 else 0
  }

  /** The errors of a list of jobs, in the order of the list. */
  function ErrorsOf(jobs: seq<Job>): seq<string> {
    if jobs == [] then []
    else (if jobs[0].emits.Some? then [jobs[0].emits.value] else []) + ErrorsOf(jobs[1..])
  }

  /** What the accumulator should hold: nothing, or all errors joined by colons. */
  function Joined(errors: seq<string>): Option<string> {
    if errors == [] then None else Some(Strings.Join(errors, ":"))
  }

  /** No channel holds more than its capacity: at most `workers` jobs run. */
  predicate Bounded(cfg: Config, s: System) {
    |s.pool.queue| <= cfg.queueSize && |s.pool.runners| <= cfg.workers
  }

  /** How often `j` was queued and its wg.Done has not happened. */
  function Outstanding(p: Pool, j: Job): nat {
    Count(p.queue, j) + Held(p.processor, j) + Tally(p.runners, Live, j)
  }

  /** Every queued copy of `j` is in one place, and has run and reported once it is past that. */
  predicate Conserved(s: System, j: Job) {
    && Count(s.queued, j) == Outstanding(s.pool, j) + Count(s.finished, j)
    && Count(s.executed, j) == Tally(s.pool.runners, Ran, j) + Count(s.finished, j)
    && Count(s.told, j) == Tally(s.pool.runners, Told, j) + Count(s.finished, j)
  }

  /** How many queued jobs have not called wg.Done. */
  function Unfinished(p: Pool): nat {
    |p.queue| + (if p.processor == Selecting then 0 else 1) + LiveRunners(p.runners)
  }

  function LiveRunners(rs: seq<Runner>): nat {
    if rs == [] then 0 else (if rs[0].phase == Finished then 0 else 1) + LiveRunners(rs[1..])
  }

  /** The WaitGroup counter is what was planned and not queued, plus what is queued and not done. */
  predicate Counted(s: System) {
    && s.pool.wg + |s.queued| == s.planned + Unfinished(s.pool)
    && s.pool.wg + |s.finished| == s.planned
  }

  predicate Accumulated(s: System) {
    s.pool.lastErr == Joined(ErrorsOf(s.told))
  }

  ghost predicate Inv(cfg: Config, s: System) {
    Bounded(cfg, s) && Counted(s) && Accumulated(s) && forall j :: Conserved(s, j)
  }

  lemma {:induction false} LiveSplit(a: seq<Runner>, b: seq<Runner>)
    ensures LiveRunners(a + b) == LiveRunners(a) + LiveRunners(b)
  {
    if a == [] {
      assert a + b == b;
    } else {
      LiveSplit(a[1..], b);
      assert (a + b)[1..] == a[1..] + b;
    }
  }

  lemma LiveAt(rs: seq<Runner>, i: nat)
    requires i < |rs|
    ensures LiveRunners(rs) ==
            LiveRunners(rs[..i]) + (if rs[i].phase == Finished then 0 else 1) + LiveRunners(rs[i + 1..])
  {
    LiveSplit(rs[..i], rs[i..]);
    assert rs == rs[..i] + rs[i..];
  }

  lemma LivePhase(rs: seq<Runner>, i: nat, r: Runner)
    requires i < |rs| && rs[i].phase != Finished
    ensures LiveRunners(rs[i := r]) == LiveRunners(rs) - (if r.phase == Finished then 1 else 0)
  {
    LiveAt(rs, i);
    LiveAt(rs[i := r], i);
    assert rs[i := r][..i] == rs[..i] && rs[i := r][i + 1..] == rs[i + 1..];
  }

  lemma LiveRemove(rs: seq<Runner>, i: nat)
    requires i < |rs| && rs[i].phase == Finished
    ensures LiveRunners(rs[..i] + rs[i + 1..]) == LiveRunners(rs)
  {
    LiveAt(rs, i);
    LiveSplit(rs[..i], rs[i + 1..]);
  }

  lemma StepKeepsCount(cfg: Config, s: System, a: Action, t: System)
    requires Bounded(cfg, s) && Counted(s) && Next(cfg, s, a) == Some(t)
    ensures Bounded(cfg, t) && Counted(t)
  {
    match a
    case Client => ClientKeepsCount(cfg, s, t);
    case Dequeue =>
    case Occupy => LiveSplit(s.pool.runners, [Runner(s.pool.processor.job, Spawned)]);
    case _ => RunnerKeepsCount(cfg, s, a, t);
  }

  lemma ClientKeepsCount(cfg: Config, s: System, t: System)
    requires Bounded(cfg, s) && Counted(s) && Next(cfg, s, Client) == Some(t)
    ensures Bounded(cfg, t) && Counted(t)
  {
  }

  lemma RunnerKeepsCount(cfg: Config, s: System, a: Action, t: System)
    requires a.Run? || a.Report? || a.Done? || a.Release?
    requires Bounded(cfg, s) && Counted(s) && RunnerStep(s, a) == Some(t)
    ensures Bounded(cfg, t) && Counted(t)
  {
    var rs := s.pool.runners;
    match a
    case Run(i) => LivePhase(rs, i, rs[i].(phase := Emitted));
    case Report(i) => LivePhase(rs, i, rs[i].(phase := Reported));
    case Done(i) => LivePhase(rs, i, rs[i].(phase := Finished));
    case Release(i) => LiveRemove(rs, i);
  }

  lemma PhaseChange(rs: seq<Runner>, i: nat, phase: Phase, j: Job)
    requires i < |rs|
    ensures var r := rs[i].(phase := phase);
      && Tally(rs[i := r], Live, j) == Tally(rs, Live, j) - One(rs[i], Live, j) + One(r, Live, j)
      && Tally(rs[i := r], Ran, j) == Tally(rs, Ran, j) - One(rs[i], Ran, j) + One(r, Ran, j)
      && Tally(rs[i := r], Told, j) == Tally(rs, Told, j) - One(rs[i], Told, j) + One(r, Told, j)
  {
    var r := rs[i].(phase := phase);
    TallyUpdate(rs, i, r, Live, j);
    TallyUpdate(rs, i, r, Ran, j);
    TallyUpdate(rs, i, r, Told, j);
  }

  lemma RunnerKeepsConserved(s: System, a: Action, t: System, j: Job)
    requires a.Run? || a.Report? || a.Done? || a.Release?
    requires Conserved(s, j) && RunnerStep(s, a) == Some(t)
    ensures Conserved(t, j)
  {
    match a
    case Run(i) => RunKeepsConserved(s, i, t, j);
    case Report(i) => ReportKeepsConserved(s, i, t, j);
    case Done(i) => DoneKeepsConserved(s, i, t, j);
    case Release(i) =>
      forall v {
        TallyRemove(s.pool.runners, i, v, j);
      }
  }

  lemma RunKeepsConserved(s: System, i: nat, t: System, j: Job)
    requires Conserved(s, j) && RunnerStep(s, Run(i)) == Some(t)
    ensures Conserved(t, j)
  {
    PhaseChange(s.pool.runners, i, Emitted, j);
    CountSnoc(s.executed, s.pool.runners[i].job, j);
  }

  lemma ReportKeepsConserved(s: System, i: nat, t: System, j: Job)
    requires Conserved(s, j) && RunnerStep(s, Report(i)) == Some(t)
    ensures Conserved(t, j)
  {
    PhaseChange(s.pool.runners, i, Reported, j);
    CountSnoc(s.told, s.pool.runners[i].job, j);
  }

  lemma DoneKeepsConserved(s: System, i: nat, t: System, j: Job)
    requires Conserved(s, j) && RunnerStep(s, Done(i)) == Some(t)
    ensures Conserved(t, j)
  {
    Leaves(s.pool.runners, i, j);
    CountSnoc(s.finished, s.pool.runners[i].job, j);
  }

  /** wg.Done takes a runner out of every view at once. */
  lemma Leaves(rs: seq<Runner>, i: nat, j: Job)
    requires i < |rs| && rs[i].phase == Reported
    ensures var n := if rs[i].job == j then 1 else 0; var after := rs[i := rs[i].(phase := Finished)];
      && Tally(after, Live, j) == Tally(rs, Live, j) - n
      && Tally(after, Ran, j) == Tally(rs, Ran, j) - n
      && Tally(after, Told, j) == Tally(rs, Told, j) - n
  {
    PhaseChange(rs, i, Finished, j);
  }

  lemma ClientKeepsConserved(cfg: Config, s: System, t: System, j: Job)
    requires Conserved(s, j) && Next(cfg, s, Client) == Some(t)
    ensures Conserved(t, j)
  {
    if s.script[0].Queue? && s.script[0].job.Some? {
      CountSnoc(s.queued, s.script[0].job.value, j);
      EnqueuedCounts(cfg, s.pool, s.script[0].job.value, j);
    }
  }

  lemma EnqueuedCounts(cfg: Config, p: Pool, x: Job, j: Job)
    requires Accepts(cfg, p)
    ensures Outstanding(Enqueued(cfg, p, x), j) == Outstanding(p, j) + (if x == j then 1 else 0)
  {
    CountSnoc(p.queue, x, j);
  }

  lemma StepKeepsConserved(cfg: Config, s: System, a: Action, t: System, j: Job)
    requires Conserved(s, j) && Next(cfg, s, a) == Some(t)
    ensures Conserved(t, j)
  {
    match a
    case Client => ClientKeepsConserved(cfg, s, t, j);
    case Dequeue =>
    case Occupy =>
      forall v {
        TallyAdd(s.pool.runners, Runner(s.pool.processor.job, Spawned), v, j);
      }
    case _ => RunnerKeepsConserved(s, a, t, j);
  }

  lemma {:induction false} ErrorsOfAppend(jobs: seq<Job>, j: Job)
    ensures ErrorsOf(jobs + [j]) == ErrorsOf(jobs) + (if j.emits.Some? then [j.emits.value] else [])
  {
    if jobs == [] {
      assert [j][1..] == [];
    } else {
      ErrorsOfAppend(jobs[1..], j);
      assert (jobs + [j])[1..] == jobs[1..] + [j];
    }
  }

  /** handleLastError keeps the accumulator equal to the colon-join of what was reported. */
  lemma AccumulateJoins(told: seq<Job>, j: Job)
    ensures Accumulate(Joined(ErrorsOf(told)), j.emits) == Joined(ErrorsOf(told + [j]))
  {
    ErrorsOfAppend(told, j);
    var es := ErrorsOf(told);
    if j.emits.None? {
      assert ErrorsOf(told + [j]) == es;
    } else if es != [] {
      Strings.JoinAppend(es, j.emits.value, ":");
      assert Strings.Join(es, ":") + ":" + j.emits.value == Strings.Join(es, ":") + (":" + j.emits.value);
    }
  }

  lemma StepKeepsInv(cfg: Config, s: System, a: Action, t: System)
    requires Inv(cfg, s) && Next(cfg, s, a) == Some(t)
    ensures Inv(cfg, t)
  {
    StepKeepsCount(cfg, s, a, t);
    forall j ensures Conserved(t, j) {
      StepKeepsConserved(cfg, s, a, t, j);
    }
    if a.Report? {
      AccumulateJoins(s.told, s.pool.runners[a.i].job);
    }
  }

  lemma {:induction false} RunKeepsInv(cfg: Config, s: System, acts: seq<Action>, t: System)
    requires Inv(cfg, s) && Exec(cfg, s, acts) == Some(t)
    ensures Inv(cfg, t)
    decreases |acts|
  {
    if acts != [] {
      var u := Next(cfg, s, acts[0]).value;
      StepKeepsInv(cfg, s, acts[0], u);
      RunKeepsInv(cfg, u, acts[1..], t);
    }
  }

  lemma StartInv(cfg: Config, script: seq<ClientOp>)
    ensures Inv(cfg, Start(script))
  {
  }

  // ---- What Wait promises ----

  lemma {:induction false} NoLiveRunner(rs: seq<Runner>, v: View, j: Job)
    requires LiveRunners(rs) == 0
    ensures Tally(rs, v, j) == 0
  {
    if rs != [] {
      NoLiveRunner(rs[1..], v, j);
    }
  }

  lemma {:induction false} NoErrorsIff(jobs: seq<Job>)
    ensures ErrorsOf(jobs) == [] <==> forall j :: j in jobs ==> j.emits.None?
  {
    if jobs != [] {
      NoErrorsIff(jobs[1..]);
    }
  }

  /** Nothing of what was queued is left to be done. */
  predicate Drained(p: Pool) {
    p.queue == [] && p.processor == Selecting && LiveRunners(p.runners) == 0
  }

  lemma DrainedRanAll(cfg: Config, s: System)
    requires Inv(cfg, s) && Drained(s.pool)
    ensures multiset(s.executed) == multiset(s.queued) == multiset(s.told)
  {
    forall j ensures Count(s.executed, j) == Count(s.queued, j) == Count(s.told, j) {
      assert Conserved(s, j);
      NoLiveRunner(s.pool.runners, Live, j);
      NoLiveRunner(s.pool.runners, Ran, j);
      NoLiveRunner(s.pool.runners, Told, j);
    }
    SameCounts(s.executed, s.queued);
    SameCounts(s.told, s.queued);
  }

  /** Over every schedule: when Wait returns and as many jobs were queued as planned, every queued
      job has run exactly once, and Wait returns nil exactly if no job emitted an error, otherwise
      the colon-join of all errors in the order in which the jobs completed. */
  lemma WaitReturnsAfterAllJobs(cfg: Config, script: seq<ClientOp>, acts: seq<Action>, s: System, t: System)
    requires Exec(cfg, Start(script), acts) == Some(s)
    requires s.script != [] && s.script[0] == Wait && s.planned == |s.queued|
    requires Next(cfg, s, Client) == Some(t)
    ensures Drained(t.pool)
    ensures multiset(t.executed) == multiset(t.queued) == multiset(t.told)
    ensures t.waits == s.waits + [Joined(ErrorsOf(t.told))]
    ensures ErrorsOf(t.told) == [] <==> forall j :: j in t.queued ==> j.emits.None?
  {
    StartInv(cfg, script);
    RunKeepsInv(cfg, Start(script), acts, s);
    DrainedRanAll(cfg, s);
    NoErrorsIff(s.told);
    forall j ensures j in s.told <==> j in s.queued {
      assert j in multiset(s.told) <==> j in multiset(s.queued);
    }
  }

  /** Over every schedule: no more jobs run than there are workers, and the WaitGroup counter is
      what is planned and not queued plus what is queued, held by the processor or unfinished. */
  lemma AlwaysBoundedAndCounted(cfg: Config, script: seq<ClientOp>, acts: seq<Action>, s: System)
    requires Exec(cfg, Start(script), acts) == Some(s)
    ensures |s.pool.queue| <= cfg.queueSize && |s.pool.runners| <= cfg.workers
    ensures s.pool.wg == s.planned - |s.queued| + Unfinished(s.pool)
    ensures forall j :: multiset(s.executed)[j] <= multiset(s.queued)[j]
  {
    StartInv(cfg, script);
    RunKeepsInv(cfg, Start(script), acts, s);
    forall j ensures multiset(s.executed)[j] <= multiset(s.queued)[j] {
      assert Conserved(s, j);
      RanIsLive(s.pool.runners, j);
      CountIsMultiplicity(s.executed, j);
      CountIsMultiplicity(s.queued, j);
    }
  }

  lemma {:induction false} RanIsLive(rs: seq<Runner>, j: Job)
    ensures Tally(rs, Ran, j) <= Tally(rs, Live, j)
  {
    if rs != [] {
      RanIsLive(rs[1..], j);
    }
  }
}
