/** The pool as the object it is: its fields are updated in place, one method per atomic step. */
module PoolObject {
  import opened Wrappers
  import opened PoolModel
  import opened PoolSafety
  import opened PoolOrder
  import opened PoolProgress

  class GrPool {
    const cfg: Config
    var queue: seq<Job>
    var processor: Processor
    var runners: seq<Runner>
    var wg: nat
    var panicked: bool
    var lastErr: Option<string>

    function View(): Pool
      reads this
    {
      Pool(queue, processor, runners, wg, panicked, lastErr)
    }

    constructor (cfg: Config)
      ensures View() == EMPTY && this.cfg == cfg
    {
      this.cfg := cfg;
      queue, processor, runners, wg, panicked, lastErr := [], Selecting, [], 0, false, None;
    }

    method Plan(jobSize: int) returns (ok: bool)
      modifies this
      ensures ok <==> jobSize > 0
      ensures View() == old(View()).(wg := if ok then old(wg) + jobSize else old(wg))
    {
      if jobSize <= 0 {
        return false;
      }
      wg := wg + jobSize;
      return true;
    }

    /** The send on the job channel, once it no longer blocks. A nil job is dropped. */
    method Queue(job: Option<Job>)
      requires job.Some? ==> Accepts(cfg, View())
      modifies this
      ensures View() == if job.None? then old(View()) else Enqueued(cfg, old(View()), job.value)
    {
      if job.Some? {
        if cfg.queueSize == 0 {
          processor := Holding(job.value);
        } else {
          queue := queue + [job.value];
        }
      }
    }

    method Dequeue()
      requires processor == Selecting && queue != []
      modifies this
      ensures View() == old(View()).(processor := Holding(old(queue)[0]), queue := old(queue)[1..])
    {
      processor, queue := Holding(queue[0]), queue[1..];
    }

    method Occupy()
      requires processor != Selecting
      modifies this
      ensures View() == old(View()).(processor := Selecting,
                                     runners := old(runners) + [Runner(old(processor).job, Spawned)])
    {
      runners, processor := runners + [Runner(processor.job, Spawned)], Selecting;
    }

    method HandleLastError(err: Option<string>)
      modifies this
      ensures View() == old(View()).(lastErr := Accumulate(old(lastErr), err))
    {
      if err.None? {
        return;
      }
      if lastErr.None? {
        lastErr := err;
      } else {
        lastErr := Some(lastErr.value + ":" + err.value);
      }
    }

    method SetPhase(i: nat, phase: Phase)
      requires i < |runners|
      modifies this
      ensures View() == old(View()).(runners := old(runners)[i := old(runners)[i].(phase := phase)])
    {
      runners := runners[i := runners[i].(phase := phase)];
    }

    method Done(i: nat)
      requires i < |runners|
      modifies this
      ensures View() == DonePool(old(View()), i)
    {
      if wg == 0 {
        panicked := true;
      } else {
        wg := wg - 1;
        SetPhase(i, Finished);
      }
    }

    method Release(i: nat)
      requires i < |runners|
      modifies this
      ensures View() == old(View()).(runners := old(runners)[..i] + old(runners)[i + 1..])
    {
      runners := runners[..i] + runners[i + 1..];
    }

    /** Takes one step of some goroutine. */
    method Step(s: System, a: Action) returns (t: System)
      requires s.pool == View() && Next(cfg, s, a).Some?
      modifies this
      ensures Next(cfg, s, a) == Some(t) && t.pool == View()
    {
      t := Next(cfg, s, a).value;
      match a
      case Client =>
        match s.script[0] {
          case Plan(n) => var _ := Plan(n);
          case Queue(j) => Queue(j);
          case Wait =>
        }
      case Dequeue => Dequeue();
      case Occupy => Occupy();
      case Run(i) => SetPhase(i, Emitted);
      case Report(i) =>
        HandleLastError(runners[i].job.emits);
        SetPhase(i, Reported);
      case Done(i) => Done(i);
      case Release(i) => Release(i);
    }

    /** Runs a client program to its end, the scheduler taking any enabled step it likes. A balanced
        client gets every queued job run exactly once, whatever the scheduler does. */
    method Serve(script: seq<ClientOp>) returns (end: System)
      requires View() == EMPTY && cfg.workers >= 1 && Balanced(script, 0, 0)
      modifies this
      ensures end.pool == View() && end.script == []
      ensures runners == [] && queue == [] && processor == Selecting && !panicked
      ensures end.queued == JobsOf(script)
      ensures multiset(end.executed) == multiset(JobsOf(script)) == multiset(end.told)
      ensures lastErr == Joined(ErrorsOf(end.told))
      ensures cfg.workers == 1 ==> end.told == JobsOf(script)
    {
      end := Start(script);
      StartsOnTrack(cfg, script);
      var choices := EnabledActions(cfg, end);
      while choices != []
        invariant end.pool == View() && OnTrack(cfg, script, end)
        invariant choices == EnabledActions(cfg, end)
        decreases Measure(end)
      {
        var k: nat :| k < |choices|;
        var a := choices[k];
        ghost var before := end;
        assert Next(cfg, end, a).Some?;
        end := Step(end, a);
        StepKeepsTrack(cfg, script, before, a, end);
        StepDecreases(cfg, before, a, end);
        choices := EnabledActions(cfg, end);
      }
      TrackEnds(cfg, script, end);
    }
  }

  /** What a balanced client can rely on at every step. */
  ghost predicate OnTrack(cfg: Config, script: seq<ClientOp>, s: System) {
    && Inv(cfg, s) && WellUsed(s)
    && (cfg.workers == 1 ==> InOrder(s))
    && s.queued + JobsOf(s.script) == JobsOf(script)
  }

  lemma StartsOnTrack(cfg: Config, script: seq<ClientOp>)
    requires Balanced(script, 0, 0)
    ensures OnTrack(cfg, script, Start(script))
  {
    StartInv(cfg, script);
    StartInOrder(script);
  }

  lemma StepKeepsTrack(cfg: Config, script: seq<ClientOp>, s: System, a: Action, t: System)
    requires OnTrack(cfg, script, s) && Next(cfg, s, a) == Some(t)
    ensures OnTrack(cfg, script, t)
  {
    StepKeepsInv(cfg, s, a, t);
    StepKeepsWellUsed(cfg, s, a, t);
    StepKeepsJobs(cfg, s, a, t);
    if cfg.workers == 1 {
      StepKeepsOrder(cfg, s, a, t);
    }
  }

  lemma TrackEnds(cfg: Config, script: seq<ClientOp>, s: System)
    requires cfg.workers >= 1 && OnTrack(cfg, script, s) && EnabledActions(cfg, s) == []
    ensures s.script == [] && s.queued == JobsOf(script)
    ensures s.pool.runners == [] && s.pool.queue == [] && s.pool.processor == Selecting && !s.pool.panicked
    ensures multiset(s.executed) == multiset(s.queued) == multiset(s.told)
    ensures s.pool.lastErr == Joined(ErrorsOf(s.told))
    ensures cfg.workers == 1 ==> s.told == s.queued
  {
    NothingEnabled(cfg, s);
    StuckIsIdle(cfg, s);
    assert JobsOf([]) == [] && s.queued + [] == s.queued;
    DrainedRanAll(cfg, s);
    if cfg.workers == 1 {
      DrainedInOrder(s);
    }
  }

  /** The jobs that a client program queues, in order. */
  function JobsOf(script: seq<ClientOp>): seq<Job> {
    if script == [] then []
    else (if script[0].Queue? && script[0].job.Some? then [script[0].job.value] else []) + JobsOf(script[1..])
  }

  lemma StepKeepsJobs(cfg: Config, s: System, a: Action, t: System)
    requires Next(cfg, s, a) == Some(t)
    ensures t.queued + JobsOf(t.script) == s.queued + JobsOf(s.script)
  {
    if a.Client? && s.script[0].Queue? && s.script[0].job.Some? {
      var j := s.script[0].job.value;
      assert JobsOf(s.script) == [j] + JobsOf(t.script);
      assert s.queued + ([j] + JobsOf(t.script)) == (s.queued + [j]) + JobsOf(t.script);
    } else if a.Client? {
      assert JobsOf(s.script) == [] + JobsOf(t.script);
    }
  }

  /** The scheduler's choices: every enabled action of the client, the processor and the runners. */
  function EnabledActions(cfg: Config, s: System): (acts: seq<Action>)
    ensures forall a :: a in acts <==> Next(cfg, s, a).Some?
  {
    Enabled(cfg, s, [Client, Dequeue, Occupy] + RunnerActions(|s.pool.runners|))
  }

  function RunnerActions(n: nat): (acts: seq<Action>)
    ensures forall i: nat | i < n :: Run(i) in acts && Report(i) in acts && Done(i) in acts && Release(i) in acts
  {
    if n == 0 then [] else RunnerActions(n - 1) + [Run(n - 1), Report(n - 1), Done(n - 1), Release(n - 1)]
  }

  function Enabled(cfg: Config, s: System, acts: seq<Action>): (r: seq<Action>)
    ensures forall a :: a in r <==> a in acts && Next(cfg, s, a).Some?
  {
    if acts == [] then []
    else (if Next(cfg, s, acts[0]).Some? then [acts[0]] else []) + Enabled(cfg, s, acts[1..])
  }

  lemma NothingEnabled(cfg: Config, s: System)
    requires EnabledActions(cfg, s) == []
    ensures Stuck(cfg, s)
  {
    forall a ensures Next(cfg, s, a).None? {
      assert a !in EnabledActions(cfg, s);
    }
  }
}
