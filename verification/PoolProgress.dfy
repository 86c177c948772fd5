/** Progress of the goroutine pool: every schedule is finite, and exactly the balanced clients are
    carried to their end by every schedule. */
module PoolProgress {
  import opened Wrappers
  import opened PoolModel
  import opened PoolSafety

  // ---- A measure that every step decreases ----

  function PhaseWeight(phase: Phase): nat {
    match phase
    case Spawned => 4
    case Emitted => 3
    case Reported => 2
    case Finished => 1
  }

  function RunnersWeight(rs: seq<Runner>): nat {
    if rs == [] then 0 else PhaseWeight(rs[0].phase) + RunnersWeight(rs[1..])
  }

  function ScriptWeight(script: seq<ClientOp>): nat {
    if script == [] then 0
    else (if script[0].Queue? && script[0].job.Some? then 7 else 1) + ScriptWeight(script[1..])
  }

  /** Unqueued jobs weigh 7, queued ones 6, a held one 5, running ones 4 down to 1. */
  function Measure(s: System): nat {
    ScriptWeight(s.script) + 6 * |s.pool.queue| + (if s.pool.processor == Selecting then 0 else 5)
    + RunnersWeight(s.pool.runners) + (if s.pool.panicked then 0 else 1)
  }

  lemma {:induction false} WeightSplit(a: seq<Runner>, b: seq<Runner>)
    ensures RunnersWeight(a + b) == RunnersWeight(a) + RunnersWeight(b)
  {
    if a == [] {
      assert a + b == b;
    } else {
      WeightSplit(a[1..], b);
      assert (a + b)[1..] == a[1..] + b;
    }
  }

  lemma WeightAt(rs: seq<Runner>, i: nat)
    requires i < |rs|
    ensures RunnersWeight(rs) == RunnersWeight(rs[..i]) + PhaseWeight(rs[i].phase) + RunnersWeight(rs[i + 1..])
  {
    WeightSplit(rs[..i], rs[i..]);
    assert rs == rs[..i] + rs[i..];
  }

  lemma WeightUpdate(rs: seq<Runner>, i: nat, r: Runner)
    requires i < |rs|
    ensures RunnersWeight(rs[i := r]) == RunnersWeight(rs) - PhaseWeight(rs[i].phase) + PhaseWeight(r.phase)
  {
    WeightAt(rs, i);
    WeightAt(rs[i := r], i);
    assert rs[i := r][..i] == rs[..i] && rs[i := r][i + 1..] == rs[i + 1..];
  }

  lemma StepDecreases(cfg: Config, s: System, a: Action, t: System)
    requires Next(cfg, s, a) == Some(t)
    ensures Measure(t) < Measure(s)
  {
    var rs := s.pool.runners;
    match a
    case Client =>
    case Dequeue =>
    case Occupy =>
      WeightSplit(rs, [Runner(s.pool.processor.job, Spawned)]);
      assert RunnersWeight([Runner(s.pool.processor.job, Spawned)]) == 4;
    case Run(i) => WeightUpdate(rs, i, rs[i].(phase := Emitted));
    case Report(i) => WeightUpdate(rs, i, rs[i].(phase := Reported));
    case Done(i) => WeightUpdate(rs, i, rs[i].(phase := Finished));
    case Release(i) =>
      WeightAt(rs, i);
      WeightSplit(rs[..i], rs[i + 1..]);
  }

  /** No schedule is longer than the initial measure. */
  lemma {:induction false} SchedulesAreFinite(cfg: Config, s: System, acts: seq<Action>, t: System)
    requires Exec(cfg, s, acts) == Some(t)
    ensures |acts| + Measure(t) <= Measure(s)
    decreases |acts|
  {
    if acts != [] {
      var u := Next(cfg, s, acts[0]).value;
      StepDecreases(cfg, s, acts[0], u);
      SchedulesAreFinite(cfg, u, acts[1..], t);
    }
  }

  // ---- No deadlock ----

  lemma RunnerIsEnabled(cfg: Config, s: System)
    requires !s.pool.panicked && s.pool.runners != []
    ensures exists a :: Next(cfg, s, a).Some?
  {
    var a :=
      match s.pool.runners[0].phase
      case Spawned => Run(0)
      case Emitted => Report(0)
      case Reported => Done(0)
      case Finished => Release(0);
    assert Next(cfg, s, a).Some?;
  }

  /** With a worker, the only stuck states have an idle pool and a client at its end or at a Wait
      whose counter is above zero. */
  lemma StuckIsIdle(cfg: Config, s: System)
    requires cfg.workers >= 1 && !s.pool.panicked && Stuck(cfg, s)
    ensures s.pool.runners == [] && s.pool.processor == Selecting && s.pool.queue == []
    ensures s.script == [] || (s.script[0] == Wait && s.pool.wg > 0)
  {
    assert Next(cfg, s, Client).None? && Next(cfg, s, Dequeue).None? && Next(cfg, s, Occupy).None?;
    if s.pool.runners != [] {
      RunnerIsEnabled(cfg, s);
    }
  }

  ghost predicate WellUsed(s: System) {
    |s.queued| <= s.planned && Balanced(s.script, s.planned, |s.queued|) && !s.pool.panicked
  }

  lemma StepKeepsWellUsed(cfg: Config, s: System, a: Action, t: System)
    requires Inv(cfg, s) && WellUsed(s) && Next(cfg, s, a) == Some(t)
    ensures WellUsed(t)
  {
    if a.Done? {
      LiveAt(s.pool.runners, a.i);
    }
  }

  lemma {:induction false} RunKeepsWellUsed(cfg: Config, s: System, acts: seq<Action>, t: System)
    requires Inv(cfg, s) && WellUsed(s) && Exec(cfg, s, acts) == Some(t)
    ensures WellUsed(t)
    decreases |acts|
  {
    if acts != [] {
      var u := Next(cfg, s, acts[0]).value;
      StepKeepsInv(cfg, s, acts[0], u);
      StepKeepsWellUsed(cfg, s, acts[0], u);
      RunKeepsWellUsed(cfg, u, acts[1..], t);
    }
  }

  /** The schedule neither panics nor leaves the client blocked. */
  ghost predicate Served(cfg: Config, s: System) {
    !s.pool.panicked && (Stuck(cfg, s) ==> s.script == [])
  }

  lemma BalancedIsServed(cfg: Config, script: seq<ClientOp>, acts: seq<Action>, s: System)
    requires cfg.workers >= 1 && Balanced(script, 0, 0)
    requires Exec(cfg, Start(script), acts) == Some(s)
    ensures Served(cfg, s)
  {
    StartInv(cfg, script);
    RunKeepsInv(cfg, Start(script), acts, s);
    RunKeepsWellUsed(cfg, Start(script), acts, s);
    if Stuck(cfg, s) {
      StuckIsIdle(cfg, s);
    }
  }

  // ---- ... and only balanced clients are always served ----

  lemma {:induction false} ExecSplit(cfg: Config, s: System, a: seq<Action>, b: seq<Action>)
    requires Exec(cfg, s, a).Some?
    ensures Exec(cfg, s, a + b) == Exec(cfg, Exec(cfg, s, a).value, b)
    decreases |a|
  {
    if a == [] {
      assert a + b == b;
    } else {
      ExecSplit(cfg, Next(cfg, s, a[0]).value, a[1..], b);
      assert (a + b)[1..] == a[1..] + b;
    }
  }

  lemma ExecOne(cfg: Config, s: System, a: Action)
    ensures Exec(cfg, s, [a]) == Next(cfg, s, a)
  {
    assert [a][1..] == [];
  }

  lemma ExecThen(cfg: Config, s: System, acts: seq<Action>, a: Action)
    requires Exec(cfg, s, acts).Some?
    ensures Exec(cfg, s, acts + [a]) == Next(cfg, Exec(cfg, s, acts).value, a)
  {
    ExecSplit(cfg, s, acts, [a]);
    ExecOne(cfg, Exec(cfg, s, acts).value, a);
  }

  predicate Quiet(s: System) {
    && s.pool.queue == [] && s.pool.processor == Selecting && s.pool.runners == []
    && !s.pool.panicked && s.pool.wg + |s.queued| == s.planned
  }

  /** Carries the job that the client queues next through the pool, alone. */
  lemma RunOneJob(cfg: Config, s: System) returns (acts: seq<Action>, t: System)
    requires cfg.workers >= 1 && Quiet(s)
    requires s.script != [] && s.script[0].Queue? && s.script[0].job.Some?
    ensures Exec(cfg, s, acts) == Some(t)
    ensures s.pool.wg == 0 ==> t.pool.panicked
    ensures s.pool.wg > 0 ==> Quiet(t) && t.script == s.script[1..]
                              && t.planned == s.planned && |t.queued| == |s.queued| + 1
  {
    acts := [Client];
    ExecOne(cfg, s, Client);
    if cfg.queueSize > 0 {
      ExecThen(cfg, s, acts, Dequeue);
      acts := acts + [Dequeue];
    }
    ExecThen(cfg, s, acts, Occupy);
    acts := acts + [Occupy];
    ExecThen(cfg, s, acts, Run(0));
    acts := acts + [Run(0)];
    ExecThen(cfg, s, acts, Report(0));
    acts := acts + [Report(0)];
    ExecThen(cfg, s, acts, Done(0));
    acts := acts + [Done(0)];
    if s.pool.wg > 0 {
      ExecThen(cfg, s, acts, Release(0));
      acts := acts + [Release(0)];
    }
    t := Exec(cfg, s, acts).value;
  }

  /** An unbalanced client meets a schedule that panics or blocks it. */
  lemma {:induction false} UnbalancedIsRefuted(cfg: Config, s: System) returns (acts: seq<Action>, t: System)
    requires cfg.workers >= 1 && Quiet(s) && !Balanced(s.script, s.planned, |s.queued|)
    ensures Exec(cfg, s, acts) == Some(t) && !Served(cfg, t)
    decreases |s.script|
  {
    if s.script[0] == Wait && s.pool.wg > 0 {
      acts, t := [], s;
      assert Stuck(cfg, s);
    } else {
      var first, u;
      if s.script[0].Queue? && s.script[0].job.Some? {
        first, u := RunOneJob(cfg, s);
      } else {
        first, u := [Client], Next(cfg, s, Client).value;
        ExecOne(cfg, s, Client);
      }
      if u.pool.panicked {
        acts, t := first, u;
      } else {
        var rest;
        rest, t := UnbalancedIsRefuted(cfg, u);
        acts := first + rest;
        ExecSplit(cfg, s, first, rest);
      }
    }
  }

  /** With at least one worker, a client program is carried to its end by every schedule, without
      deadlock or a negative WaitGroup counter, if and only if it is balanced. The size of the job
      queue does not matter. */
  lemma ServedIffBalanced(cfg: Config, script: seq<ClientOp>)
    requires cfg.workers >= 1
    ensures Balanced(script, 0, 0) <==>
            forall acts :: Exec(cfg, Start(script), acts).Some? ==> Served(cfg, Exec(cfg, Start(script), acts).value)
  {
    if Balanced(script, 0, 0) {
      forall acts | Exec(cfg, Start(script), acts).Some?
        ensures Served(cfg, Exec(cfg, Start(script), acts).value)
      {
        BalancedIsServed(cfg, script, acts, Exec(cfg, Start(script), acts).value);
      }
    } else {
      var acts, t := UnbalancedIsRefuted(cfg, Start(script));
      assert Exec(cfg, Start(script), acts).Some?;
    }
  }

  /** Without workers no job ever runs, so a Wait after a Plan never returns. */
  lemma {:induction false} NoWorkersNoProgress(cfg: Config, script: seq<ClientOp>, acts: seq<Action>, s: System)
    requires cfg.workers == 0 && Exec(cfg, Start(script), acts) == Some(s)
    requires s.planned > 0 && s.script != [] && s.script[0] == Wait
    ensures s.executed == [] && Next(cfg, s, Client).None?
  {
    StartInv(cfg, script);
    NeverSpawned(cfg, Start(script), acts, s);
    RunKeepsInv(cfg, Start(script), acts, s);
  }

  lemma {:induction false} NeverSpawned(cfg: Config, s: System, acts: seq<Action>, t: System)
    requires cfg.workers == 0 && s.pool.runners == [] && Exec(cfg, s, acts) == Some(t)
    ensures t.executed == s.executed && t.finished == s.finished
    decreases |acts|
  {
    if acts != [] {
      NeverSpawned(cfg, Next(cfg, s, acts[0]).value, acts[1..], t);
    }
  }
}
