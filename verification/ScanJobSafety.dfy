/** What every interleaving of enqueuers and workers keeps. */
module ScanJobSafety {
  import opened Wrappers
  import opened ScanJobs

  lemma KeysDiffer(namespace: string, id1: string, id2: string)
    requires id1 != id2
    ensures Key(namespace, id1) != Key(namespace, id2)
  {
    var p := namespace + ":scan-job:";
    assert Key(namespace, id1)[|p|..] == id1 && Key(namespace, id2)[|p|..] == id2;
  }

  // ---- The invariant: what a job's record is, seen from where its worker is ----

  /** The record holds what the job's own scan yielded, and no error. */
  predicate Saved(job: ScanJob, output: Option<string>) {
    job.report.Some? && job.report == output && job.error == ""
  }

  predicate IsPending(r: Option<ScanJob>, id: string) {
    r.Some? && r.value.id == id && r.value.status == Pending && r.value.error == ""
  }

  /** Nobody has worked on the record yet. */
  predicate Untouched(r: Option<ScanJob>, id: string) {
    r.None? || r == Some(Fresh(id))
  }

  /** The record before the worker has reported a failure. */
  predicate Unfailed(r: Option<ScanJob>, id: string, output: Option<string>) {
    Untouched(r, id) || IsPending(r, id)
    || (r.Some? && r.value.id == id && r.value.status == Finished && Saved(r.value, output))
  }

  predicate Agrees(r: Option<ScanJob>, id: string, pc: Pc, output: Option<string>) {
    match pc
    case Decode => Untouched(r, id)
    case PendingGet => Untouched(r, id)
    case PendingSet(job) => r == Some(Fresh(id)) && job == Fresh(id).(status := Pending)
    case Scanning => IsPending(r, id)
    case ReportGet(text) => IsPending(r, id) && output == Some(text)
    case ReportSet(job) => IsPending(r, id) && output.Some? && job == r.value.(report := output)
    case FinishedGet => IsPending(r, id) && output.Some? && r.value.report == output
    case FinishedSet(job) =>
      IsPending(r, id) && output.Some? && r.value.report == output && job == r.value.(status := Finished)
    case FailedGet(_) => Unfailed(r, id, output)
    case FailedSet(job) => r.Some? && Unfailed(r, id, output) && job == r.value.(status := Failed, error := job.error)
    case Returned(_) => Unfailed(r, id, output) || (r.Some? && r.value.id == id && r.value.status == Failed)
    case Panicked => Untouched(r, id)
  }

  predicate JobInv(s: System, id: string) {
    var r := Record(s, id);
    if id !in s.jobs then r.None?
    else
      var j := s.jobs[id];
      && (j.enqueuer != Over ==> r.None?)
      && (j.enqueuer == Publishing ==> j.worker.None?)
      && if j.worker.None? then Untouched(r, id) && !j.found else Agrees(r, id, j.worker.value, j.output)
  }

  ghost predicate Inv(s: System) {
    forall id :: JobInv(s, id)
  }

  lemma StartInv(namespace: string)
    ensures Inv(Start(namespace))
  {
  }

  /** An event concerns one job: no other job and no other job's record changes. */
  lemma EventIsLocal(s: System, e: Event, id: string)
    requires Possible(s, e) && id != e.id
    ensures Record(Apply(s, e), id) == Record(s, id)
    ensures id in Apply(s, e).jobs <==> id in s.jobs
    ensures id in s.jobs ==> Apply(s, e).jobs[id] == s.jobs[id]
  {
    KeysDiffer(s.namespace, id, e.id);
  }

  lemma ReadKeepsJobInv(s: System, e: Event)
    requires JobInv(s, e.id) && Possible(s, e) && e.Step? && Reads(s.jobs[e.id].worker.value)
    ensures JobInv(Apply(s, e), e.id)
  {
  }

  lemma OtherStepKeepsJobInv(s: System, e: Event)
    requires JobInv(s, e.id) && Possible(s, e) && e.Step? && !Reads(s.jobs[e.id].worker.value)
    ensures JobInv(Apply(s, e), e.id)
  {
  }

  lemma EventKeepsJobInv(s: System, e: Event)
    requires JobInv(s, e.id) && Possible(s, e)
    ensures JobInv(Apply(s, e), e.id)
  {
    if e.Step? {
      if Reads(s.jobs[e.id].worker.value) {
        ReadKeepsJobInv(s, e);
      } else {
        OtherStepKeepsJobInv(s, e);
      }
    }
  }

  lemma EventKeepsInv(s: System, e: Event)
    requires Inv(s) && Possible(s, e)
    ensures Inv(Apply(s, e))
  {
    forall id ensures JobInv(Apply(s, e), id) {
      assert JobInv(s, id);
      if id != e.id {
        EventIsLocal(s, e, id);
      } else {
        EventKeepsJobInv(s, e);
      }
    }
  }

  lemma {:induction false} RunKeepsInv(s: System, events: seq<Event>)
    requires Inv(s) && PossibleRun(s, events)
    ensures Inv(ApplyAll(s, events))
    decreases |events|
  {
    if events != [] {
      EventKeepsInv(s, events[0]);
      RunKeepsInv(Apply(s, events[0]), events[1..]);
    }
  }

  // ---- The statuses only move forward ----

  /** The moves of a record in one step. */
  predicate Forward(before: Option<ScanJob>, after: Option<ScanJob>) {
    || after == before
    || (before.None? && after.Some? && after.value.status == Queued)
    || (before.Some? && after.Some?
        && match (before.value.status, after.value.status)
           case (Queued, Pending) => true
           case (Queued, Failed) => true
           case (Pending, Pending) => after.value == before.value.(report := after.value.report)
           case (Pending, Finished) => true
           case (Pending, Failed) => true
           case _ => false)
  }

  /** The one move that is not forward: a finished record is marked failed. */
  predicate Spoiled(before: Option<ScanJob>, after: Option<ScanJob>) {
    before.Some? && after.Some? && before.value.status == Finished && after.value.status == Failed
  }

  lemma StepMovesForward(s: System, e: Event, id: string)
    requires Inv(s) && Possible(s, e)
    ensures Forward(Record(s, id), Record(Apply(s, e), id)) || Spoiled(Record(s, id), Record(Apply(s, e), id))
  {
    assert JobInv(s, id);
    if id != e.id {
      EventIsLocal(s, e, id);
    }
  }

  /** Over every interleaving, with any call failing or losing its reply: each event moves each record
      forward or not at all, except that a finished one may be marked failed; and a finished record
      holds the report of its own job's scan and no error. */
  lemma RecordsMoveForward(namespace: string, events: seq<Event>, e: Event, id: string)
    requires PossibleRun(Start(namespace), events) && Possible(ApplyAll(Start(namespace), events), e)
    ensures var s := ApplyAll(Start(namespace), events);
            var before, after := Record(s, id), Record(Apply(s, e), id);
      && (Forward(before, after) || Spoiled(before, after))
      && (after.Some? && after.value.status == Finished ==>
        id in s.jobs && Saved(after.value, Apply(s, e).jobs[id].output))
      && (after.Some? ==> after.value.id == id)
      && (id != e.id ==> after == before)
  {
    StartInv(namespace);
    RunKeepsInv(Start(namespace), events);
    var s := ApplyAll(Start(namespace), events);
    StepMovesForward(s, e, id);
    EventKeepsInv(s, e);
    assert JobInv(Apply(s, e), id);
    if id != e.id {
      EventIsLocal(s, e, id);
    }
  }

  // ---- When a record goes back ----

  /** The reply to the write that marks the job finished is lost. */
  predicate Loses(s: System, e: Event, id: string) {
    && e.Step? && e.id == id && id in s.jobs
    && s.jobs[id].worker.Some? && s.jobs[id].worker.value.FinishedSet?
    && e.reply.Stored? && e.reply.outcome == LostReply
  }

  ghost predicate LostFinish(s: System, events: seq<Event>, id: string)
    requires PossibleRun(s, events)
    decreases |events|
  {
    events != [] && (Loses(s, events[0], id) || LostFinish(Apply(s, events[0]), events[1..], id))
  }

  predicate IsFinished(r: Option<ScanJob>) {
    r.Some? && r.value.status == Finished
  }

  predicate IsFailed(r: Option<ScanJob>) {
    r.Some? && r.value.status == Failed
  }

  predicate Working(s: System, id: string) {
    id in s.jobs && s.jobs[id].worker.Some? && !Ended(s.jobs[id].worker.value)
  }

  /** A finished record belongs to a worker that has returned. */
  predicate FinishedIsFinal(s: System, id: string) {
    IsFinished(Record(s, id)) ==> id in s.jobs && s.jobs[id].worker == Some(Returned(true))
  }

  lemma EventKeepsFinal(s: System, e: Event, id: string)
    requires Inv(s) && FinishedIsFinal(s, id) && Possible(s, e) && !Loses(s, e, id)
    ensures FinishedIsFinal(Apply(s, e), id)
  {
    assert JobInv(s, id);
    if id != e.id {
      EventIsLocal(s, e, id);
    }
  }

  lemma {:induction false} RunKeepsFinal(s: System, events: seq<Event>, id: string)
    requires Inv(s) && FinishedIsFinal(s, id) && PossibleRun(s, events) && !LostFinish(s, events, id)
    ensures FinishedIsFinal(ApplyAll(s, events), id)
    decreases |events|
  {
    if events != [] {
      EventKeepsInv(s, events[0]);
      EventKeepsFinal(s, events[0], id);
      RunKeepsFinal(Apply(s, events[0]), events[1..], id);
    }
  }

  /** Whatever else fails or loses its reply, for this job or others: as long as no reply to the job's own
      last write has been lost, its record never moves backwards, and a finished one stays. */
  lemma RecordNeverGoesBack(namespace: string, events: seq<Event>, e: Event, id: string)
    requires PossibleRun(Start(namespace), events) && Possible(ApplyAll(Start(namespace), events), e)
    requires !LostFinish(Start(namespace), events, id)
    ensures var s := ApplyAll(Start(namespace), events); Forward(Record(s, id), Record(Apply(s, e), id))
  {
    StartInv(namespace);
    RunKeepsInv(Start(namespace), events);
    RunKeepsFinal(Start(namespace), events, id);
    var s := ApplyAll(Start(namespace), events);
    StepMovesForward(s, e, id);
    assert JobInv(s, id);
    if id != e.id {
      EventIsLocal(s, e, id);
    }
  }

  /** After the loss: the worker takes the finished job for a failed one, until it has ended. */
  predicate AfterLoss(s: System, id: string) {
    && id in s.jobs && s.jobs[id].worker.Some?
    && var pc := s.jobs[id].worker.value;
       Ended(pc) || ((pc.FailedGet? || pc.FailedSet?) && IsFinished(Record(s, id)))
  }

  lemma EventKeepsAfterLoss(s: System, e: Event, id: string)
    requires Inv(s) && Possible(s, e) && (AfterLoss(s, id) || Loses(s, e, id))
    ensures AfterLoss(Apply(s, e), id)
  {
    assert JobInv(s, id);
    if id != e.id {
      EventIsLocal(s, e, id);
    }
  }

  lemma {:induction false} RunAfterLoss(s: System, events: seq<Event>, id: string)
    requires Inv(s) && PossibleRun(s, events) && (AfterLoss(s, id) || LostFinish(s, events, id))
    ensures AfterLoss(ApplyAll(s, events), id)
    decreases |events|
  {
    if events != [] {
      EventKeepsInv(s, events[0]);
      if AfterLoss(s, id) || Loses(s, events[0], id) {
        EventKeepsAfterLoss(s, events[0], id);
      }
      RunAfterLoss(Apply(s, events[0]), events[1..], id);
    }
  }

  /** Once its worker has ended, an existing record does not change any more. */
  lemma {:induction false} EndedRecordStays(s: System, events: seq<Event>, id: string)
    requires PossibleRun(s, events) && Record(s, id).Some?
    requires id in s.jobs && s.jobs[id].worker.Some? && Ended(s.jobs[id].worker.value)
      && s.jobs[id].enqueuer != Publishing
    ensures Record(ApplyAll(s, events), id) == Record(s, id)
    decreases |events|
  {
    if events != [] {
      if id != events[0].id {
        EventIsLocal(s, events[0], id);
      }
      EndedRecordStays(Apply(s, events[0]), events[1..], id);
    }
  }

  /** Some continuation marks the record failed. */
  ghost predicate CanFail(s: System, id: string) {
    exists more :: PossibleRun(s, more) && IsFailed(Record(ApplyAll(s, more), id))
  }

  lemma FailsFromHere(s: System, id: string) returns (more: seq<Event>)
    requires Inv(s) && AfterLoss(s, id) && Working(s, id)
    ensures PossibleRun(s, more) && IsFailed(Record(ApplyAll(s, more), id))
  {
    assert JobInv(s, id);
    var ok := Step(id, Stored(Acked, ""));
    var t := Apply(s, ok);
    if s.jobs[id].worker.value.FailedGet? {
      more := [ok] + ([ok] + []);
      Before(t, ok, []);
      Before(s, ok, [ok] + []);
    } else {
      more := [ok] + [];
      Before(s, ok, []);
    }
  }

  /** A run leaves a finished record that can still be marked failed if and only if it contains a lost
      reply to the job's last write and the job's worker has not ended since. */
  lemma FinishedCanFailIff(namespace: string, events: seq<Event>, id: string)
    requires PossibleRun(Start(namespace), events)
    ensures var s := ApplyAll(Start(namespace), events);
      (IsFinished(Record(s, id)) && CanFail(s, id)) <==> (LostFinish(Start(namespace), events, id) && Working(s, id))
  {
    var s := ApplyAll(Start(namespace), events);
    StartInv(namespace);
    RunKeepsInv(Start(namespace), events);
    assert JobInv(s, id);
    if LostFinish(Start(namespace), events, id) {
      RunAfterLoss(Start(namespace), events, id);
    } else {
      RunKeepsFinal(Start(namespace), events, id);
    }
    if LostFinish(Start(namespace), events, id) && Working(s, id) {
      var more := FailsFromHere(s, id);
      assert PossibleRun(s, more) && IsFailed(Record(ApplyAll(s, more), id));
      assert IsFinished(Record(s, id));
    } else if IsFinished(Record(s, id)) {
      forall more | PossibleRun(s, more) ensures Record(ApplyAll(s, more), id) == Record(s, id) {
        EndedRecordStays(s, more, id);
      }
    }
  }

  lemma Before(s: System, e: Event, rest: seq<Event>)
    requires Possible(s, e) && PossibleRun(Apply(s, e), rest)
    ensures PossibleRun(s, [e] + rest) && ApplyAll(s, [e] + rest) == ApplyAll(Apply(s, e), rest)
  {
    assert ([e] + rest)[1..] == rest;
  }

  /** One job, and the only record, with its worker at `pc`. */
  function Alone(namespace: string, job: ScanJob, pc: Pc, output: Option<string>): System {
    var found := !pc.Decode? && !pc.PendingGet?;
    System(namespace, map[Key(namespace, job.id) := job], map[job.id := Job(Over, Some(pc), found, output)])
  }

  function Reporting(id: string, report: string): seq<Event> {
    var ok := Step(id, Stored(Acked, ""));
    [Step(id, Scanned(Report(report)))] + ([ok] + ([ok] + ([ok] + [])))
  }

  lemma ReportingRun(namespace: string, id: string, report: string)
    ensures var job := ScanJob(id, Pending, "", Some(report));
            var s := Alone(namespace, job.(report := None), Scanning, None);
      && PossibleRun(s, Reporting(id, report))
      && ApplyAll(s, Reporting(id, report)) == Alone(namespace, job, FinishedSet(job.(status := Finished)),
        Some(report))
  {
    var ok := Step(id, Stored(Acked, ""));
    var job := ScanJob(id, Pending, "", Some(report));
    var blank := ScanJob(id, Pending, "", None);
    var done := Alone(namespace, job, FinishedSet(job.(status := Finished)), Some(report));
    assert Apply(Alone(namespace, job, FinishedGet, Some(report)), ok) == done;
    Before(Alone(namespace, job, FinishedGet, Some(report)), ok, []);
    assert Apply(Alone(namespace, blank, ReportSet(job), Some(report)), ok) ==
      Alone(namespace, job, FinishedGet, Some(report));
    Before(Alone(namespace, blank, ReportSet(job), Some(report)), ok, [ok] + []);
    assert Apply(Alone(namespace, blank, ReportGet(report), Some(report)), ok) ==
      Alone(namespace, blank, ReportSet(job), Some(report));
    Before(Alone(namespace, blank, ReportGet(report), Some(report)), ok, [ok] + ([ok] + []));
    var scanned := Step(id, Scanned(Report(report)));
    assert Apply(Alone(namespace, blank, Scanning, None), scanned) ==
      Alone(namespace, blank, ReportGet(report), Some(report));
    Before(Alone(namespace, blank, Scanning, None), scanned, [ok] + ([ok] + ([ok] + [])));
  }

  /** Every request can come to the point where its finished record is about to be written. */
  lemma FinishedSetReached(namespace: string, id: string, report: string)
    ensures var ok := Step(id, Stored(Acked, ""));
            var job := ScanJob(id, Pending, "", Some(report));
            var events := [Request(id)] + ([Publish(id, Acked)] + ([Create(id, Acked)] + ([Step(id, Decoded(true))]
                          + ([ok] + ([ok] + Reporting(id, report))))));
      && PossibleRun(Start(namespace), events)
      && ApplyAll(Start(namespace), events) == Alone(namespace, job, FinishedSet(job.(status := Finished)),
        Some(report))
  {
    var ok := Step(id, Stored(Acked, ""));
    var blank := ScanJob(id, Pending, "", None);
    var rest := Reporting(id, report);
    ReportingRun(namespace, id, report);
    assert Apply(Alone(namespace, Fresh(id), PendingSet(blank), None), ok) == Alone(namespace, blank, Scanning, None);
    Before(Alone(namespace, Fresh(id), PendingSet(blank), None), ok, rest);
    assert Apply(Alone(namespace, Fresh(id), PendingGet, None), ok) ==
      Alone(namespace, Fresh(id), PendingSet(blank), None);
    Before(Alone(namespace, Fresh(id), PendingGet, None), ok, [ok] + rest);
    var decoded := Step(id, Decoded(true));
    assert Apply(Alone(namespace, Fresh(id), Decode, None), decoded) == Alone(namespace, Fresh(id), PendingGet, None);
    Before(Alone(namespace, Fresh(id), Decode, None), decoded, [ok] + ([ok] + rest));
    StartsAlone(namespace, id, [decoded] + ([ok] + ([ok] + rest)));
  }

  lemma Published(namespace: string, id: string, rest: seq<Event>)
    requires PossibleRun(System(namespace, map[], map[id := Job(Creating, Some(Decode), false, None)]), rest)
    ensures var published := System(namespace, map[], map[id := Job(Creating, Some(Decode), false, None)]);
            var events := [Request(id)] + ([Publish(id, Acked)] + rest);
      PossibleRun(Start(namespace), events) && ApplyAll(Start(namespace), events) == ApplyAll(published, rest)
  {
    var requested := System(namespace, map[], map[id := Job(Publishing, None, false, None)]);
    assert Apply(requested, Publish(id, Acked))
        == System(namespace, map[], map[id := Job(Creating, Some(Decode), false, None)]);
    Before(requested, Publish(id, Acked), rest);
    assert Apply(Start(namespace), Request(id)) == requested;
    Before(Start(namespace), Request(id), [Publish(id, Acked)] + rest);
  }

  lemma StartsAlone(namespace: string, id: string, rest: seq<Event>)
    requires PossibleRun(Alone(namespace, Fresh(id), Decode, None), rest)
    ensures var events := [Request(id)] + ([Publish(id, Acked)] + ([Create(id, Acked)] + rest));
      && PossibleRun(Start(namespace), events)
      && ApplyAll(Start(namespace), events) == ApplyAll(Alone(namespace, Fresh(id), Decode, None), rest)
  {
    var published := System(namespace, map[], map[id := Job(Creating, Some(Decode), false, None)]);
    assert Apply(published, Create(id, Acked)) == Alone(namespace, Fresh(id), Decode, None);
    Before(published, Create(id, Acked), rest);
    Published(namespace, id, [Create(id, Acked)] + rest);
  }

  /** A lost reply there breaks the order, in every reachable state: the record is finished, the worker
      believes it is not, and its next two calls mark it failed with its report saved. */
  lemma LostReplySpoils(s: System, id: string, error: string)
    requires JobInv(s, id) && id in s.jobs && s.jobs[id].worker.Some? && s.jobs[id].worker.value.FinishedSet?
    ensures var ok := Step(id, Stored(Acked, ""));
            var s1 := Apply(s, Step(id, Stored(LostReply, error)));
            var s3 := Apply(Apply(s1, ok), ok);
      && Record(s1, id).Some? && Record(s1, id).value.status == Finished
      && Record(s3, id) == Some(Record(s1, id).value.(
           status := Failed, error := "updating scan job status: " + ("updating scan job: " + error)))
      && s3.jobs[id].worker == Some(Returned(true))
  {
  }

  lemma {:induction false} Then(s: System, a: seq<Event>, b: seq<Event>)
    requires PossibleRun(s, a) && PossibleRun(ApplyAll(s, a), b)
    ensures PossibleRun(s, a + b) && ApplyAll(s, a + b) == ApplyAll(ApplyAll(s, a), b)
    decreases |a|
  {
    if a == [] {
      assert a + b == b;
    } else {
      assert (a + b)[0] == a[0] && (a + b)[1..] == a[1..] + b;
      Then(Apply(s, a[0]), a[1..], b);
    }
  }

  /** So there is a run from the start, for every job and report, that marks a finished record failed. */
  lemma FinishedCanFail(namespace: string, id: string, report: string, error: string) returns (events: seq<Event>)
    ensures PossibleRun(Start(namespace), events)
    ensures var s, ok := ApplyAll(Start(namespace), events), Step(id, Stored(Acked, ""));
      && Record(s, id) == Some(ScanJob(id, Finished, "", Some(report)))
      && Possible(s, ok)
      && Record(Apply(s, ok), id) ==
         Some(ScanJob(id, Failed, "updating scan job status: " + ("updating scan job: " + error), Some(report)))
  {
    var ok, lost := Step(id, Stored(Acked, "")), Step(id, Stored(LostReply, error));
    var first := [Request(id)] + ([Publish(id, Acked)] + ([Create(id, Acked)] + ([Step(id, Decoded(true))]
                 + ([ok] + ([ok] + Reporting(id, report))))));
    FinishedSetReached(namespace, id, report);
    var s := ApplyAll(Start(namespace), first);
    Before(Apply(s, lost), ok, []);
    Before(s, lost, [ok] + []);
    events := first + ([lost] + ([ok] + []));
    Then(Start(namespace), first, [lost] + ([ok] + []));
  }

  // ---- What is recorded of a failure ----

  /** The text of the error that a step makes of its reply; None when it does not fail. `there` says whether
      the record exists. */
  function Why(pc: Pc, r: Reply, there: bool): Option<string>
    requires Fits(pc, r)
  {
    match pc
    case PendingGet => WhyRead("updating scan job status: ", r, there)
    case ReportGet(_) => WhyRead("saving scan report: ", r, there)
    case FinishedGet => WhyRead("updating scan job status: ", r, there)
    case PendingSet(_) => WhyWritten("updating scan job status: ", r)
    case ReportSet(_) => WhyWritten("saving scan report: ", r)
    case FinishedSet(_) => WhyWritten("updating scan job status: ", r)
    case Scanning =>
      (match r.result
       case Report(_) => None
       case BadImage(error) => Some(error)
       case TrivyFailed(error) => Some("running trivy wrapper: " + error))
    case _ => None
  }

  function WhyRead(what: string, r: Reply, there: bool): Option<string>
    requires r.Stored?
  {
    if r.outcome != Acked then Some(what + r.error)
    else if !there then Some("runtime error: invalid memory address or nil pointer dereference")
    else None
  }

  function WhyWritten(what: string, r: Reply): Option<string>
    requires r.Stored?
  {
    if r.outcome != Acked then Some(what + ("updating scan job: " + r.error)) else None
  }

  /** A step before a failure is reported fails if and only if its reply is one that names a reason, and then
      the worker goes on to record exactly that. */
  lemma FailureIsNamed(s: System, e: Event, id: string)
    requires Possible(s, e) && e.Step? && e.id == id
    requires !s.jobs[id].worker.value.FailedGet? && !s.jobs[id].worker.value.FailedSet?
    ensures var why := Why(s.jobs[id].worker.value, e.reply, Record(s, id).Some?);
      var pc := Apply(s, e).jobs[id].worker.value;
      if why.Some? then pc == FailedGet(why.value) else !pc.FailedGet?
  {
  }

  /** ... and two calls that go well leave it as the error of the failed record. */
  lemma FailureIsRecorded(s: System, id: string, message: string)
    requires id in s.jobs && s.jobs[id].worker == Some(FailedGet(message)) && Record(s, id).Some?
    ensures var ok := Step(id, Stored(Acked, ""));
            var t := Apply(Apply(s, ok), ok);
      && Record(t, id) == Some(Record(s, id).value.(status := Failed, error := message))
      && t.jobs[id].worker == Some(Returned(true))
  {
  }

  /** The record is marked failed with this text, or the worker is about to write such a record. */
  predicate Carries(s: System, id: string, text: string) {
    || (Record(s, id).Some? && Record(s, id).value.status == Failed && Record(s, id).value.error == text)
    || (id in s.jobs && s.jobs[id].worker.Some? && Holds(s.jobs[id].worker.value, text))
  }

  predicate Holds(pc: Pc, text: string) {
    match pc
    case FailedGet(message) => message == text
    case PendingSet(job) => job.status == Failed && job.error == text
    case ReportSet(job) => job.status == Failed && job.error == text
    case FinishedSet(job) => job.status == Failed && job.error == text
    case FailedSet(job) => job.status == Failed && job.error == text
    case _ => false
  }

  /** A step of the job in these events named the reason. */
  ghost predicate Gave(s: System, events: seq<Event>, id: string, text: string)
    requires PossibleRun(s, events)
    decreases |events|
  {
    events != [] && (Names(s, events[0], id, text) || Gave(Apply(s, events[0]), events[1..], id, text))
  }

  predicate Names(s: System, e: Event, id: string, text: string)
    requires Possible(s, e)
  {
    e.Step? && e.id == id && Why(s.jobs[id].worker.value, e.reply, Record(s, id).Some?) == Some(text)
  }

  lemma EventGivesReason(s: System, e: Event, id: string, text: string)
    requires Possible(s, e) && Carries(Apply(s, e), id, text)
    ensures Carries(s, id, text) || Names(s, e, id, text)
  {
    if e.id != id {
      EventIsLocal(s, e, id);
    }
  }

  lemma {:induction false} RunGivesReason(s: System, events: seq<Event>, id: string, text: string)
    requires PossibleRun(s, events) && Carries(ApplyAll(s, events), id, text)
    ensures Carries(s, id, text) || Gave(s, events, id, text)
    decreases |events|
  {
    if events != [] {
      RunGivesReason(Apply(s, events[0]), events[1..], id, text);
      if Carries(Apply(s, events[0]), id, text) {
        EventGivesReason(s, events[0], id, text);
      }
    }
  }

  /** Every failed record, in every run from the start, has for its error the text of a step of its own job
      that did fail. */
  lemma FailedHasReason(namespace: string, events: seq<Event>, id: string)
    requires PossibleRun(Start(namespace), events)
    requires var r := Record(ApplyAll(Start(namespace), events), id); r.Some? && r.value.status == Failed
    ensures Gave(Start(namespace), events, id, Record(ApplyAll(Start(namespace), events), id).value.error)
  {
    RunGivesReason(Start(namespace), events, id, Record(ApplyAll(Start(namespace), events), id).value.error);
  }

  /** A request that cannot be decoded ends its worker at once: the record stays Queued for ever. */
  lemma UndecodableStaysQueued(s: System, events: seq<Event>, id: string)
    requires Inv(s) && id in s.jobs && s.jobs[id].worker == Some(Decode)
    requires var e := Step(id, Decoded(false)); Possible(s, e) && PossibleRun(Apply(s, e), events)
    ensures var s1 := Apply(s, Step(id, Decoded(false)));
      && s1.jobs[id].worker == Some(Returned(false))
      && (Record(ApplyAll(s1, events), id).Some? ==> Record(ApplyAll(s1, events), id).value == Fresh(id))
  {
    assert JobInv(s, id);
    NobodyTouches(Apply(s, Step(id, Decoded(false))), events, id);
  }

  lemma {:induction false} NobodyTouches(s: System, events: seq<Event>, id: string)
    requires id in s.jobs && s.jobs[id].worker == Some(Returned(false)) && s.jobs[id].enqueuer != Publishing
    requires Untouched(Record(s, id), id) && PossibleRun(s, events)
    ensures Untouched(Record(ApplyAll(s, events), id), id)
    decreases |events|
  {
    if events != [] {
      if id != events[0].id {
        EventIsLocal(s, events[0], id);
      }
      NobodyTouches(Apply(s, events[0]), events[1..], id);
    }
  }

  // ---- How a job ends when nothing fails ----

  predicate Faultless(e: Event) {
    match e
    case Request(_) => true
    case Publish(_, o) => o == Acked
    case Create(_, o) => o == Acked
    case Step(_, r) => (r.Stored? ==> r.outcome == Acked) && (r.Decoded? ==> r.ok)
  }

  predicate Terminal(r: Option<ScanJob>) {
    r.Some? && (r.value.status == Finished || r.value.status == Failed)
  }

  /** Where a worker's last read found the record, the worker's end leaves it terminal; where it did
      not, the worker is dead and the record untouched. */
  predicate EndsWell(s: System, id: string) {
    id in s.jobs && s.jobs[id].worker.Some? ==>
      match s.jobs[id].worker.value
      case Decode => !s.jobs[id].found
      case PendingGet => !s.jobs[id].found
      case FailedGet(_) => true
      case Returned(_) => s.jobs[id].found && Terminal(Record(s, id))
      case Panicked => !s.jobs[id].found && Untouched(Record(s, id), id)
      case _ => s.jobs[id].found
  }

  lemma EventKeepsEndsWell(s: System, e: Event, id: string)
    requires Inv(s) && Possible(s, e) && (e.id == id ==> Faultless(e)) && EndsWell(s, id)
    ensures EndsWell(Apply(s, e), id)
  {
    assert JobInv(s, id);
    if id != e.id {
      EventIsLocal(s, e, id);
    }
  }

  lemma {:induction false} FaultlessRunEndsWell(s: System, events: seq<Event>, id: string)
    requires Inv(s) && PossibleRun(s, events) && EndsWell(s, id)
    requires forall e :: e in events && e.id == id ==> Faultless(e)
    ensures Inv(ApplyAll(s, events)) && EndsWell(ApplyAll(s, events), id)
    decreases |events|
  {
    if events != [] {
      EventKeepsInv(s, events[0]);
      EventKeepsEndsWell(s, events[0], id);
      FaultlessRunEndsWell(Apply(s, events[0]), events[1..], id);
    }
  }

  /** In every interleaving in which no call of the job itself fails, whatever happens to other jobs: once
      its worker has ended, its record is Finished or Failed if and only if Create landed before the
      worker's last read. */
  lemma EndsTerminalIffFound(namespace: string, events: seq<Event>, id: string)
    requires PossibleRun(Start(namespace), events)
    requires forall e :: e in events && e.id == id ==> Faultless(e)
    requires var s := ApplyAll(Start(namespace), events);
      id in s.jobs && s.jobs[id].worker.Some? && Ended(s.jobs[id].worker.value)
    ensures var s := ApplyAll(Start(namespace), events);
      Terminal(Record(s, id)) <==> s.jobs[id].found
  {
    StartInv(namespace);
    FaultlessRunEndsWell(Start(namespace), events, id);
  }

  /** A job whose worker has died on a missing record stays Queued for ever once it is created. */
  lemma {:induction false} DeadJobStaysQueued(s: System, events: seq<Event>, id: string)
    requires Inv(s) && PossibleRun(s, events) && id in s.jobs && s.jobs[id].worker == Some(Panicked)
    ensures var t := ApplyAll(s, events);
      Record(t, id).None? || (Record(t, id).value.status == Queued)
    decreases |events|
  {
    assert JobInv(s, id);
    if events != [] {
      EventKeepsInv(s, events[0]);
      if events[0].id != id {
        EventIsLocal(s, events[0], id);
      }
      DeadJobStaysQueued(Apply(s, events[0]), events[1..], id);
    }
  }

  /** Such a job is real: its worker reads the store twice before Create lands, and dies. */
  lemma DeadJobReached(namespace: string, id: string)
    ensures var ok := Step(id, Stored(Acked, ""));
            var events := [Request(id)] + ([Publish(id, Acked)] + ([Step(id, Decoded(true))] + ([ok] + ([ok]
                          + ([Create(id, Acked)] + [])))));
      && PossibleRun(Start(namespace), events)
      && var s := ApplyAll(Start(namespace), events);
         Record(s, id) == Some(Fresh(id)) && id in s.jobs && s.jobs[id].worker == Some(Panicked)
  {
    var ok := Step(id, Stored(Acked, ""));
    var decoded := Step(id, Decoded(true));
    var none: Store := map[];
    var s2 := System(namespace, none, map[id := Job(Creating, Some(Decode), false, None)]);
    var s3 := System(namespace, none, map[id := Job(Creating, Some(PendingGet), false, None)]);
    var s4 := System(namespace, none, map[id := Job(Creating, Some(FailedGet(NIL_DEREFERENCE)), false, None)]);
    var s5 := System(namespace, none, map[id := Job(Creating, Some(Panicked), false, None)]);
    Before(s5, Create(id, Acked), []);
    assert Apply(s4, ok) == s5;
    Before(s4, ok, [Create(id, Acked)] + []);
    assert Apply(s3, ok) == s4;
    Before(s3, ok, [ok] + ([Create(id, Acked)] + []));
    assert Apply(s2, decoded) == s3;
    Before(s2, decoded, [ok] + ([ok] + ([Create(id, Acked)] + [])));
    Published(namespace, id, [decoded] + ([ok] + ([ok] + ([Create(id, Acked)] + []))));
  }
}
