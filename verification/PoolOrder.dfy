/** The order of jobs: first in, first out, and with one worker also in completion. */
module PoolOrder {
  import opened Wrappers
  import opened Sequences
  import opened PoolModel
  import opened PoolSafety

  predicate IsPrefix(a: seq<Job>, b: seq<Job>) {
    |a| <= |b| && b[..|a|] == a
  }

  predicate IsSuffix(a: seq<Job>, b: seq<Job>) {
    |a| <= |b| && b[|b| - |a|..] == a
  }

  /** The job that the processor holds, followed by the jobs in the queue. */
  function Ahead(p: Pool): seq<Job> {
    (if p.processor == Selecting then [] else [p.processor.job]) + p.queue
  }

  /** The queued jobs that have been given to a worker. */
  function Begun(s: System): seq<Job>
    requires IsSuffix(Ahead(s.pool), s.queued)
  {
    s.queued[..|s.queued| - |Ahead(s.pool)|]
  }

  lemma SuffixSnoc(a: seq<Job>, b: seq<Job>, x: Job)
    requires IsSuffix(a, b)
    ensures IsSuffix(a + [x], b + [x])
    ensures (b + [x])[..|b + [x]| - |a + [x]|] == b[..|b| - |a|]
  {
  }

  lemma SuffixTail(a: seq<Job>, b: seq<Job>)
    requires IsSuffix(a, b) && a != []
    ensures IsSuffix(a[1..], b)
    ensures b[..|b| - |a[1..]|] == b[..|b| - |a|] + [a[0]]
  {
    assert b[|b| - |a|..][0] == a[0];
  }

  lemma EnqueuedAhead(cfg: Config, p: Pool, j: Job)
    requires Accepts(cfg, p) && |p.queue| <= cfg.queueSize
    ensures Ahead(Enqueued(cfg, p, j)) == Ahead(p) + [j]
  {
  }

  /** A step hands the oldest waiting job to a worker, or adds a job at the end, or leaves the line as it is. */
  lemma StepKeepsLine(cfg: Config, s: System, a: Action, t: System)
    requires Bounded(cfg, s) && IsSuffix(Ahead(s.pool), s.queued) && Next(cfg, s, a) == Some(t)
    ensures IsSuffix(Ahead(t.pool), t.queued)
    ensures Begun(t) == if a.Occupy? then Begun(s) + [s.pool.processor.job] else Begun(s)
  {
    match a
    case Client => ClientKeepsLine(cfg, s, t);
    case Dequeue => DequeueKeepsLine(s, t);
    case Occupy => OccupyMovesLine(s, t);
    case _ => RunnerKeepsLine(s, a, t);
  }

  lemma DequeueKeepsLine(s: System, t: System)
    requires IsSuffix(Ahead(s.pool), s.queued) && s.pool.processor == Selecting && s.pool.queue != []
    requires t.pool == s.pool.(processor := Holding(s.pool.queue[0]), queue := s.pool.queue[1..])
    requires t.queued == s.queued
    ensures IsSuffix(Ahead(t.pool), t.queued) && Begun(t) == Begun(s)
  {
    DequeuedAhead(s.pool);
  }

  lemma OccupyMovesLine(s: System, t: System)
    requires IsSuffix(Ahead(s.pool), s.queued) && s.pool.processor.Holding? && t.queued == s.queued
    requires t.pool == s.pool.(processor := Selecting, runners := t.pool.runners)
    ensures IsSuffix(Ahead(t.pool), t.queued) && Begun(t) == Begun(s) + [s.pool.processor.job]
  {
    OccupiedAhead(s.pool);
    SuffixTail(Ahead(s.pool), s.queued);
    assert Ahead(t.pool) == Ahead(s.pool)[1..];
  }

  lemma DequeuedAhead(p: Pool)
    requires p.processor == Selecting && p.queue != []
    ensures Ahead(p.(processor := Holding(p.queue[0]), queue := p.queue[1..])) == Ahead(p)
  {
  }

  lemma OccupiedAhead(p: Pool)
    requires p.processor.Holding?
    ensures Ahead(p) != [] && Ahead(p)[0] == p.processor.job
    ensures forall rs :: Ahead(p.(processor := Selecting, runners := rs)) == Ahead(p)[1..]
  {
  }

  lemma ClientKeepsLine(cfg: Config, s: System, t: System)
    requires Bounded(cfg, s) && IsSuffix(Ahead(s.pool), s.queued) && Next(cfg, s, Client) == Some(t)
    ensures IsSuffix(Ahead(t.pool), t.queued) && Begun(t) == Begun(s)
  {
    if s.script[0].Queue? && s.script[0].job.Some? {
      EnqueuedAhead(cfg, s.pool, s.script[0].job.value);
      SuffixSnoc(Ahead(s.pool), s.queued, s.script[0].job.value);
    } else {
      SameLine(s, t);
    }
  }

  lemma SameLine(s: System, t: System)
    requires IsSuffix(Ahead(s.pool), s.queued)
    requires t.pool.queue == s.pool.queue && t.pool.processor == s.pool.processor && t.queued == s.queued
    ensures IsSuffix(Ahead(t.pool), t.queued) && Begun(t) == Begun(s)
  {
  }

  lemma RunnerKeepsLine(s: System, a: Action, t: System)
    requires (a.Run? || a.Report? || a.Done? || a.Release?) && RunnerStep(s, a) == Some(t)
    requires IsSuffix(Ahead(s.pool), s.queued)
    ensures IsSuffix(Ahead(t.pool), t.queued) && Begun(t) == Begun(s)
  {
    SameLine(s, t);
  }

  lemma {:induction false} RunKeepsLine(cfg: Config, s: System, acts: seq<Action>, t: System)
    requires Inv(cfg, s) && IsSuffix(Ahead(s.pool), s.queued) && Exec(cfg, s, acts) == Some(t)
    ensures IsSuffix(Ahead(t.pool), t.queued)
    decreases |acts|
  {
    if acts != [] {
      var u := Next(cfg, s, acts[0]).value;
      StepKeepsInv(cfg, s, acts[0], u);
      StepKeepsLine(cfg, s, acts[0], u);
      RunKeepsLine(cfg, u, acts[1..], t);
    }
  }

  /** In every reachable state, whatever the number of workers: the job held and the jobs in the queue are the
      last ones queued, in the order in which they were queued. */
  lemma FirstInFirstOut(cfg: Config, script: seq<ClientOp>, acts: seq<Action>, s: System)
    requires Exec(cfg, Start(script), acts) == Some(s)
    ensures IsSuffix(Ahead(s.pool), s.queued)
  {
    StartInv(cfg, script);
    RunKeepsLine(cfg, Start(script), acts, s);
  }

  // ---- One worker ----

  /** The job of the only runner, as long as it shows in the view. */
  function Current(rs: seq<Runner>, v: View): seq<Job> {
    if |rs| == 1 && Shows(rs[0].phase, v) then [rs[0].job] else []
  }

  /** Jobs finish in the order in which they began, and the one that is running comes next. */
  predicate InOrder(s: System) {
    && IsSuffix(Ahead(s.pool), s.queued)
    && Begun(s) == s.finished + Current(s.pool.runners, Live)
    && s.executed == s.finished + Current(s.pool.runners, Ran)
    && s.told == s.finished + Current(s.pool.runners, Told)
  }

  lemma RunnerKeepsOrder(s: System, a: Action, t: System)
    requires |s.pool.runners| <= 1 && InOrder(s)
    requires (a.Run? || a.Report? || a.Done? || a.Release?) && RunnerStep(s, a) == Some(t)
    requires IsSuffix(Ahead(t.pool), t.queued) && Begun(t) == Begun(s)
    ensures InOrder(t)
  {
    var rs, i := s.pool.runners, a.i;
    assert i == 0 && rs == [rs[0]];
    match a
    case Run(_) => Associate(s.finished, [], [rs[0].job]);
    case Report(_) => Associate(s.finished, [], [rs[0].job]);
    case Done(_) => Associate(s.finished, [rs[0].job], []);
    case Release(_) => assert rs[..0] + rs[1..] == [];
  }

  lemma BeginsInOrder(s: System, t: System)
    requires InOrder(s) && s.pool.processor.Holding? && s.pool.runners == []
    requires t.pool.runners == [Runner(s.pool.processor.job, Spawned)]
    requires t.finished == s.finished && t.executed == s.executed && t.told == s.told
    requires IsSuffix(Ahead(t.pool), t.queued) && Begun(t) == Begun(s) + [s.pool.processor.job]
    ensures InOrder(t)
  {
    assert s.finished + [] == s.finished;
  }

  lemma StepKeepsOrder(cfg: Config, s: System, a: Action, t: System)
    requires cfg.workers == 1 && Inv(cfg, s) && InOrder(s) && Next(cfg, s, a) == Some(t)
    ensures InOrder(t)
  {
    StepKeepsLine(cfg, s, a, t);
    match a
    case Client => SameOrder(s, t);
    case Dequeue => SameOrder(s, t);
    case Occupy => BeginsInOrder(s, t);
    case _ => RunnerKeepsOrder(s, a, t);
  }

  lemma SameOrder(s: System, t: System)
    requires InOrder(s) && t.pool.runners == s.pool.runners
    requires t.finished == s.finished && t.executed == s.executed && t.told == s.told
    requires IsSuffix(Ahead(t.pool), t.queued) && Begun(t) == Begun(s)
    ensures InOrder(t)
  {
  }

  lemma {:induction false} RunKeepsOrder(cfg: Config, s: System, acts: seq<Action>, t: System)
    requires cfg.workers == 1 && Inv(cfg, s) && InOrder(s) && Exec(cfg, s, acts) == Some(t)
    ensures InOrder(t)
    decreases |acts|
  {
    if acts != [] {
      var u := Next(cfg, s, acts[0]).value;
      StepKeepsInv(cfg, s, acts[0], u);
      StepKeepsOrder(cfg, s, acts[0], u);
      RunKeepsOrder(cfg, u, acts[1..], t);
    }
  }

  /** With one worker, in every reachable state: the jobs that have run, and those that have been reported,
      are the first ones queued, in the order in which they were queued. */
  lemma OneWorkerInOrder(cfg: Config, script: seq<ClientOp>, acts: seq<Action>, s: System)
    requires cfg.workers == 1 && Exec(cfg, Start(script), acts) == Some(s)
    ensures IsPrefix(s.executed, s.queued) && IsPrefix(s.told, s.queued) && IsPrefix(s.finished, s.queued)
  {
    StartInv(cfg, script);
    StartInOrder(script);
    RunKeepsOrder(cfg, Start(script), acts, s);
    OrderIsPrefix(s);
  }

  lemma NothingInOrder(s: System)
    requires Ahead(s.pool) == [] && s.pool.runners == []
    requires s.queued == [] && s.finished == [] && s.executed == [] && s.told == []
    ensures InOrder(s)
  {
    var none: seq<Job> := [];
    assert none + none == none;
    assert Begun(s) == none;
  }

  lemma StartInOrder(script: seq<ClientOp>)
    ensures InOrder(Start(script))
  {
    assert Ahead(EMPTY) == [];
    NothingInOrder(Start(script));
  }

  lemma OrderIsPrefix(s: System)
    requires InOrder(s)
    ensures IsPrefix(s.executed, s.queued) && IsPrefix(s.told, s.queued) && IsPrefix(s.finished, s.queued)
  {
    var rs := s.pool.runners;
    FrontOf(s.finished, Current(rs, Live), Ahead(s.pool), s.queued, Current(rs, Ran));
    FrontOf(s.finished, Current(rs, Live), Ahead(s.pool), s.queued, Current(rs, Told));
    FrontOf(s.finished, Current(rs, Live), Ahead(s.pool), s.queued, []);
    assert s.finished + [] == s.finished;
  }

  lemma FrontOf(done: seq<Job>, current: seq<Job>, ahead: seq<Job>, queued: seq<Job>, shown: seq<Job>)
    requires IsSuffix(ahead, queued) && queued[..|queued| - |ahead|] == done + current
    requires shown == current || shown == []
    ensures IsPrefix(done + shown, queued)
  {
    assert queued == (done + current) + ahead;
  }

  lemma DrainedInOrder(s: System)
    requires InOrder(s) && multiset(s.told) == multiset(s.queued)
    ensures s.told == s.queued
  {
    OrderIsPrefix(s);
    assert |multiset(s.told)| == |s.told| && |multiset(s.queued)| == |s.queued|;
    assert s.queued[..|s.queued|] == s.queued;
  }

  /** So with one worker a Wait for all jobs returns the errors in the order in which the jobs were queued. */
  lemma OneWorkerJoinsInOrder(cfg: Config, script: seq<ClientOp>, acts: seq<Action>, s: System, t: System)
    requires cfg.workers == 1 && Exec(cfg, Start(script), acts) == Some(s)
    requires s.script != [] && s.script[0] == Wait && s.planned == |s.queued|
    requires Next(cfg, s, Client) == Some(t)
    ensures t.told == t.executed == t.queued && t.waits == s.waits + [Joined(ErrorsOf(t.queued))]
  {
    WaitReturnsAfterAllJobs(cfg, script, acts, s, t);
    OneWorkerInOrder(cfg, script, acts, s);
    assert |multiset(s.told)| == |s.told| && |multiset(s.queued)| == |s.queued|;
    assert |multiset(s.executed)| == |s.executed|;
    assert s.queued[..|s.queued|] == s.queued;
  }
}
