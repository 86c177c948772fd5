/** The life of a scan job: the enqueuer publishes it and then creates its record, while a worker may
    already be running it against the same keyed store. */
module ScanJobs {
  import opened Wrappers

  datatype Status = Queued | Pending | Finished | Failed

  /** A record; `report` is None while it holds the zero value. */
  datatype ScanJob = ScanJob(id: string, status: Status, error: string, report: Option<string>)

  type Store = map<string, ScanJob>

  const NIL_DEREFERENCE := "runtime error: invalid memory address or nil pointer dereference"
  const STATUS_ERROR := "updating scan job status: "
  const REPORT_ERROR := "saving scan report: "
  const UPDATE_ERROR := "updating scan job: "
  const WRAPPER_ERROR := "running trivy wrapper: "

  /** getKeyForScanJob */
  function Key(namespace: string, id: string): string {
    namespace + ":scan-job:" + id
  }

  // ---- The two Redis writes ----

  /** SET key NX: an existing record is kept, without an error. */
  function SetNX(st: Store, key: string, job: ScanJob, o: Outcome): Store {
    if o.Applied() && key !in st then st[key := job] else st
  }

  /** SET key XX: a missing record stays missing, without an error. */
  function SetXX(st: Store, key: string, job: ScanJob, o: Outcome): Store {
    if o.Applied() && key in st then st[key := job] else st
  }

  // ---- The worker ----

  /** What the worker of a job does next. */
  datatype Pc =
    | Decode
    | PendingGet
    | PendingSet(job: ScanJob)
    | Scanning
    | ReportGet(report: string)
    | ReportSet(job: ScanJob)
    | FinishedGet
    | FinishedSet(job: ScanJob)
    | FailedGet(message: string)
    | FailedSet(job: ScanJob)
    | Returned(ok: bool)
    | Panicked

  datatype ScanResult = Report(text: string) | BadImage(error: string) | TrivyFailed(error: string)

  datatype Reply =
    | Stored(outcome: Outcome, error: string)  // of a store call, with the text of its error
    | Decoded(ok: bool)                        // of the request's JSON
    | Scanned(result: ScanResult)              // of the image reference and trivy

  predicate Ended(pc: Pc) {
    pc.Returned? || pc.Panicked?
  }

  predicate Fits(pc: Pc, r: Reply) {
    match pc
    case Decode => r.Decoded?
    case Scanning => r.Scanned?
    case Returned(_) => false
    case Panicked => false
    case _ => r.Stored?
  }

  predicate Reads(pc: Pc) {
    pc.PendingGet? || pc.ReportGet? || pc.FinishedGet? || pc.FailedGet?
  }

  /** A failed read of the store: `scan` hands its error to `Scan`, which cannot handle one itself. */
  function AfterReadError(pc: Pc, error: string): Pc {
    match pc
    case FailedGet(_) => Returned(false)
    case ReportGet(_) => FailedGet(REPORT_ERROR + error)
    case _ => FailedGet(STATUS_ERROR + error)
  }

  /** A missing record is dereferenced: recovered inside `scan`, not recovered in `Scan`. */
  function AfterMissing(pc: Pc): Pc {
    if pc.FailedGet? then Panicked else FailedGet(NIL_DEREFERENCE)
  }

  function AfterRead(pc: Pc, job: ScanJob): Pc
    requires Reads(pc)
  {
    match pc
    case PendingGet => PendingSet(job.(status := Pending))
    case ReportGet(r) => ReportSet(job.(report := Some(r)))
    case FinishedGet => FinishedSet(job.(status := Finished))
    case FailedGet(m) => FailedSet(job.(status := Failed, error := m))
  }

  /** One step of the worker on its record. */
  function Work(st: Store, key: string, pc: Pc, r: Reply): (Store, Pc)
    requires Fits(pc, r)
  {
    match pc
    case Decode => (st, if r.ok then PendingGet else Returned(false))
    case Scanning =>
      (st, match r.result
           case Report(text) => ReportGet(text)
           case BadImage(error) => FailedGet(error)
           case TrivyFailed(error) => FailedGet(WRAPPER_ERROR + error))
    case PendingSet(job) =>
      (SetXX(st, key, job, r.outcome),
       if r.outcome.Succeeded() then Scanning else FailedGet(STATUS_ERROR + (UPDATE_ERROR + r.error)))
    case ReportSet(job) =>
      (SetXX(st, key, job, r.outcome),
       if r.outcome.Succeeded() then FinishedGet else FailedGet(REPORT_ERROR + (UPDATE_ERROR + r.error)))
    case FinishedSet(job) =>
      (SetXX(st, key, job, r.outcome),
       if r.outcome.Succeeded() then Returned(true) else FailedGet(STATUS_ERROR + (UPDATE_ERROR + r.error)))
    case FailedSet(job) =>
      (SetXX(st, key, job, r.outcome), Returned(r.outcome.Succeeded()))
    case _ =>
      (st, if !r.outcome.Succeeded() then AfterReadError(pc, r.error)
           else if key !in st then AfterMissing(pc)
           else AfterRead(pc, st[key]))
  }

  // ---- The whole protocol ----

  datatype Enqueuer = Publishing | Creating | Over

  /** One job: its enqueuer, its worker once the job is published, whether the worker's latest read of the
      store found the record, and what the scan yielded. A job runs once (scanJobMaxFailures is 1). */
  datatype Job = Job(enqueuer: Enqueuer, worker: Option<Pc>, found: bool, output: Option<string>)

  datatype System = System(namespace: string, store: Store, jobs: map<string, Job>)

  datatype Event =
    | Request(id: string)
    | Publish(id: string, outcome: Outcome)
    | Create(id: string, outcome: Outcome)
    | Step(id: string, reply: Reply)

  predicate Possible(s: System, e: Event) {
    match e
    case Request(id) => id !in s.jobs
    case Publish(id, _) => id in s.jobs && s.jobs[id].enqueuer == Publishing
    case Create(id, _) => id in s.jobs && s.jobs[id].enqueuer == Creating
    case Step(id, r) => id in s.jobs && s.jobs[id].worker.Some? && Fits(s.jobs[id].worker.value, r)
  }

  function Fresh(id: string): ScanJob {
    ScanJob(id, Queued, "", None)
  }

  function Apply(s: System, e: Event): System
    requires Possible(s, e)
  {
    match e
    case Request(id) => s.(jobs := s.jobs[id := Job(Publishing, None, false, None)])
    case Publish(id, o) =>
      s.(jobs := s.jobs[id := s.jobs[id].(enqueuer := if o.Succeeded() then Creating else Over,
                                          worker := if o.Applied() then Some(Decode) else None)])
    case Create(id, o) =>
      s.(store := SetNX(s.store, Key(s.namespace, id), Fresh(id), o),
         jobs := s.jobs[id := s.jobs[id].(enqueuer := Over)])
    case Step(id, r) =>
      var key := Key(s.namespace, id);
      var pc := s.jobs[id].worker.value;
      var (st, pc') := Work(s.store, key, pc, r);
      var found := if Reads(pc) then key in s.store else s.jobs[id].found;
      var output := if pc.Scanning? && r.result.Report? then Some(r.result.text) else s.jobs[id].output;
      s.(store := st, jobs := s.jobs[id := s.jobs[id].(worker := Some(pc'), found := found, output := output)])
  }

  ghost predicate PossibleRun(s: System, events: seq<Event>)
    decreases |events|
  {
    events == [] || (Possible(s, events[0]) && PossibleRun(Apply(s, events[0]), events[1..]))
  }

  function ApplyAll(s: System, events: seq<Event>): System
    requires PossibleRun(s, events)
    decreases |events|
  {
    if events == [] then s else ApplyAll(Apply(s, events[0]), events[1..])
  }

  function Record(s: System, id: string): Option<ScanJob> {
    var key := Key(s.namespace, id);
    if key in s.store then Some(s.store[key]) else None
  }

  function Start(namespace: string): System {
    System(namespace, map[], map[])
  }
}
