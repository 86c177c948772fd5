/** The goroutine pool: one processor goroutine between a bounded job queue and a bounded set of
    worker tokens, a WaitGroup, and an error accumulator behind a lock. The transition system
    below has one action for every statement at which goroutines can interleave, for runs in which
    nobody calls Close and the context is not cancelled. */
module PoolModel {
  import opened Wrappers

  /** A job is known by what its channel yields first: an error text, or nothing (nil or closed). */
  datatype Job = Job(id: nat, emits: Option<string>)

  /** Where a job's goroutine stands: before running the job, with the job's value received, with
      the value handed to handleLastError, and after wg.Done but still holding its worker token. */
  datatype Phase = Spawned | Emitted | Reported | Finished

  datatype Runner = Runner(job: Job, phase: Phase)

  /** The processor goroutine: at its select, or holding a job and waiting for a worker token. */
  datatype Processor = Selecting | Holding(job: Job)

  datatype Config = Config(workers: nat, queueSize: nat)

  /** The pool itself. One runner holds one token of the `workers` channel. */
  datatype Pool = Pool(
    queue: seq<Job>,
    processor: Processor,
    runners: seq<Runner>,
    wg: nat,
    panicked: bool,
    lastErr: Option<string>)

  /** What the goroutine using the pool does next. A nil job is `Queue(None)`. */
  datatype ClientOp = Plan(size: int) | Queue(job: Option<Job>) | Wait

  /** The pool, the rest of the client's program, and what has happened so far. */
  datatype System = System(
    pool: Pool,
    script: seq<ClientOp>,
    planned: nat,
    queued: seq<Job>,
    executed: seq<Job>,
    finished: seq<Job>,
    told: seq<Job>,
    waits: seq<Option<string>>)

  datatype Action =
    | Client
    | Dequeue
    | Occupy
    | Run(i: nat)
    | Report(i: nat)
    | Done(i: nat)
    | Release(i: nat)

  const EMPTY := Pool([], Selecting, [], 0, false, None)

  function Start(script: seq<ClientOp>): System {
    System(EMPTY, script, 0, [], [], [], [], [])
  }

  /** handleLastError: the first error is kept, later ones are appended after a colon. */
  function Accumulate(lastErr: Option<string>, e: Option<string>): Option<string> {
    match (lastErr, e)
    case (_, None) => lastErr
    case (None, Some(x)) => Some(x)
    case (Some(l), Some(x)) => Some(l + ":" + x)
  }

  predicate Accepts(cfg: Config, p: Pool) {
    |p.queue| < cfg.queueSize || (cfg.queueSize == 0 && p.processor == Selecting)
  }

  /** The send on the queue channel; an unbuffered channel hands the job straight over. */
  function Enqueued(cfg: Config, p: Pool, j: Job): Pool {
    if cfg.queueSize == 0 then p.(processor := Holding(j)) else p.(queue := p.queue + [j])
  }

  /** wg.Done by runner `i`: a WaitGroup counter below zero panics. */
  function DonePool(p: Pool, i: nat): Pool
    requires i < |p.runners|
  {
    if p.wg == 0 then p.(panicked := true)
    else p.(wg := p.wg - 1, runners := p.runners[i := p.runners[i].(phase := Finished)])
  }

  function ClientStep(cfg: Config, s: System): Option<System> {
    if s.script == [] then None
    else
      var t := s.(script := s.script[1..]);
      match s.script[0]
      case Plan(n) =>
        if n <= 0 then Some(t)
        else Some(t.(pool := s.pool.(wg := s.pool.wg + n), planned := s.planned + n))
      case Queue(None) => Some(t)
      case Queue(Some(j)) =>
        if Accepts(cfg, s.pool)
        then Some(t.(pool := Enqueued(cfg, s.pool, j), queued := s.queued + [j]))
        else None
      case Wait =>
        if s.pool.wg == 0 then Some(t.(waits := s.waits + [s.pool.lastErr])) else None
  }

  predicate InPhase(p: Pool, i: nat, phase: Phase) {
    i < |p.runners| && p.runners[i].phase == phase
  }

  function RunnerStep(s: System, a: Action): Option<System>
    requires a.Run? || a.Report? || a.Done? || a.Release?
  {
    var p := s.pool;
    match a
    case Run(i) =>
      if !InPhase(p, i, Spawned) then None
      else Some(s.(pool := p.(runners := p.runners[i := p.runners[i].(phase := Emitted)]),
                   executed := s.executed + [p.runners[i].job]))
    case Report(i) =>
      if !InPhase(p, i, Emitted) then None
      else Some(s.(pool := p.(runners := p.runners[i := p.runners[i].(phase := Reported)],
                            lastErr := Accumulate(p.lastErr, p.runners[i].job.emits)),
                   told := s.told + [p.runners[i].job]))
    case Done(i) =>
      if !InPhase(p, i, Reported) then None
      else Some(s.(pool := DonePool(p, i),
                   finished := if p.wg == 0 then s.finished else s.finished + [p.runners[i].job]))
    case Release(i) =>
      if !InPhase(p, i, Finished) then None
      else Some(s.(pool := p.(runners := p.runners[..i] + p.runners[i + 1..])))
  }

  /** One step of the whole system; None when the action is not enabled. */
  function Next(cfg: Config, s: System, a: Action): Option<System> {
    var p := s.pool;
    if p.panicked then None
    else
      match a
      case Client => ClientStep(cfg, s)
      case Dequeue =>
        if p.processor != Selecting || p.queue == [] then None
        else Some(s.(pool := p.(processor := Holding(p.queue[0]), queue := p.queue[1..])))
      case Occupy =>
        if p.processor == Selecting || |p.runners| >= cfg.workers then None
        else Some(s.(pool := p.(processor := Selecting,
                                runners := p.runners + [Runner(p.processor.job, Spawned)])))
      case _ => RunnerStep(s, a)
  }

  /** The state after a schedule, None when some action of it was not enabled. */
  function Exec(cfg: Config, s: System, acts: seq<Action>): Option<System>
    decreases |acts|
  {
    if acts == [] then Some(s)
    else
      match Next(cfg, s, acts[0])
      case None => None
      case Some(t) => Exec(cfg, t, acts[1..])
  }

  /** Every goroutine is blocked or gone. */
  ghost predicate Stuck(cfg: Config, s: System) {
    forall a :: Next(cfg, s, a).None?
  }

  /** The client plans before it queues, and waits only when everything planned was queued. */
  predicate Balanced(script: seq<ClientOp>, planned: nat, queued: nat) {
    if script == [] then true
    else
      match script[0]
      case Plan(n) => Balanced(script[1..], if n > 0 then planned + n else planned, queued)
      case Queue(None) => Balanced(script[1..], planned, queued)
      case Queue(Some(_)) => queued < planned && Balanced(script[1..], planned, queued + 1)
      case Wait => planned == queued && Balanced(script[1..], planned, queued)
  }
}
