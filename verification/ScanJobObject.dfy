/** The record store, the scan controller and the two ends of the queue as they are written. */
module ScanJobObject {
  import opened Wrappers
  import opened ScanJobs

  /** How a store operation ends for its caller. */
  datatype Reaction = Fine | Failure(error: string) | NilPanic

  /** The steps of a worker that is alone at the store; replies that do not fit are skipped. */
  function Drive(st: Store, key: string, pc: Pc, replies: seq<Reply>): (Store, Pc)
    decreases |replies|
  {
    if replies == [] then (st, pc)
    else if !Fits(pc, replies[0]) then Drive(st, key, pc, replies[1..])
    else
      var (st', pc') := Work(st, key, pc, replies[0]);
      Drive(st', key, pc', replies[1..])
  }

  lemma {:induction false} DriveSplit(st: Store, key: string, pc: Pc, a: seq<Reply>, b: seq<Reply>)
    ensures Drive(st, key, pc, a + b) == Drive(Drive(st, key, pc, a).0, key, Drive(st, key, pc, a).1, b)
    decreases |a|
  {
    if a == [] {
      assert a + b == b;
    } else {
      assert (a + b)[1..] == a[1..] + b;
      if Fits(pc, a[0]) {
        var (st', pc') := Work(st, key, pc, a[0]);
        DriveSplit(st', key, pc', a[1..], b);
      } else {
        DriveSplit(st, key, pc, a[1..], b);
      }
    }
  }

  lemma DriveOneMore(st: Store, key: string, pc: Pc, a: seq<Reply>, r: Reply)
    requires Fits(Drive(st, key, pc, a).1, r)
    ensures Drive(st, key, pc, a + [r]) == Work(Drive(st, key, pc, a).0, key, Drive(st, key, pc, a).1, r)
  {
    DriveSplit(st, key, pc, a, [r]);
    assert [r][1..] == [];
  }

  /** Where a worker stands after a whole store operation that begins with the read `pc`. */
  function After(pc: Pc, r: Reaction): Pc
    requires Reads(pc)
  {
    match r
    case Failure(error) => AfterReadError(pc, error)
    case NilPanic => AfterMissing(pc)
    case Fine =>
      match pc
      case PendingGet => Scanning
      case ReportGet(_) => FinishedGet
      case _ => Returned(true)
  }

  /** The error of `scan` for a store operation that did not go well; a panic is recovered as it is. */
  function Message(what: string, r: Reaction): string
    requires r != Fine
  {
    if r == NilPanic then NIL_DEREFERENCE else what + r.error
  }

  class RedisStore {
    const namespace: string
    var records: Store

    constructor (namespace: string)
      ensures this.namespace == namespace && records == map[]
    {
      this.namespace := namespace;
      records := map[];
    }

    method Create(job: ScanJob) returns (ok: bool, o: Outcome)
      modifies this
      ensures records == SetNX(old(records), Key(namespace, job.id), job, o) && (ok <==> o.Succeeded())
    {
      o := *;
      ok := o.Succeeded();
      var key := Key(namespace, job.id);
      if o.Applied() && key !in records {
        records := records[key := job];
      }
    }

    /** `update`: the record is replaced under the key of `id`. */
    method Update(id: string, job: ScanJob) returns (ok: bool, o: Outcome, error: string)
      modifies this
      ensures records == SetXX(old(records), Key(namespace, id), job, o) && (ok <==> o.Succeeded())
    {
      o := *;
      error := *;
      ok := o.Succeeded();
      var key := Key(namespace, id);
      if o.Applied() && key in records {
        records := records[key := job];
      }
    }

    /** None when the call fails, Some(None) when there is no record. */
    method Get(id: string) returns (r: Option<Option<ScanJob>>, o: Outcome, error: string)
      ensures r == if !o.Succeeded() then None
                   else if Key(namespace, id) in records then Some(Some(records[Key(namespace, id)]))
                   else Some(None)
    {
      o, error := *, *;
      var key := Key(namespace, id);
      if !o.Succeeded() {
        return None, o, error;
      }
      r := if key in records then Some(Some(records[key])) else Some(None);
    }

    /** The status, and the error when one is given, of the record read before. */
    method UpdateStatus(id: string, status: Status, error: Option<string>, ghost pc: Pc)
      returns (reaction: Reaction, ghost replies: seq<Reply>)
      requires pc == match status { case Pending => PendingGet case Finished => FinishedGet
                                    case _ => FailedGet(if error.Some? then error.value else "") }
      requires status != Queued && (status == Failed <==> error.Some?)
      modifies this
      ensures Drive(old(records), Key(namespace, id), pc, replies) == (records, After(pc, reaction))
    {
      ghost var key := Key(namespace, id);
      var r, o, e := Get(id);
      replies := [Stored(o, e)];
      DriveOneMore(records, key, pc, [], Stored(o, e));
      if r.None? {
        return Failure(e), replies;
      }
      if r.value.None? {
        return NilPanic, replies;
      }
      var job := r.value.value.(status := status);
      if error.Some? {
        job := job.(error := error.value);
      }
      var ok, o2, e2 := Update(id, job);
      DriveOneMore(old(records), key, pc, replies, Stored(o2, e2));
      replies := replies + [Stored(o2, e2)];
      reaction := if ok then Fine else Failure(UPDATE_ERROR + e2);
    }

    method UpdateReport(id: string, report: string) returns (reaction: Reaction, ghost replies: seq<Reply>)
      modifies this
      ensures Drive(old(records), Key(namespace, id), ReportGet(report), replies) ==
              (records, After(ReportGet(report), reaction))
    {
      ghost var key := Key(namespace, id);
      ghost var pc := ReportGet(report);
      var r, o, e := Get(id);
      replies := [Stored(o, e)];
      DriveOneMore(records, key, pc, [], Stored(o, e));
      if r.None? {
        return Failure(e), replies;
      }
      if r.value.None? {
        return NilPanic, replies;
      }
      var job := r.value.value.(report := Some(report));
      var ok, o2, e2 := Update(id, job);
      DriveOneMore(old(records), key, pc, replies, Stored(o2, e2));
      replies := replies + [Stored(o2, e2)];
      reaction := if ok then Fine else Failure(UPDATE_ERROR + e2);
    }

    // ---- The controller ----

    /** `scan`: the error it returns, with a panic recovered into one. */
    method Attempt(id: string) returns (err: Option<string>, ghost replies: seq<Reply>)
      modifies this
      ensures Drive(old(records), Key(namespace, id), PendingGet, replies) ==
              (records, if err.None? then Returned(true) else FailedGet(err.value))
    {
      ghost var key := Key(namespace, id);
      ghost var more;
      var reaction;
      reaction, replies := UpdateStatus(id, Pending, None, PendingGet);
      if reaction != Fine {
        return Some(Message(STATUS_ERROR, reaction)), replies;
      }
      var result: ScanResult := *;
      DriveOneMore(old(records), key, PendingGet, replies, Scanned(result));
      replies := replies + [Scanned(result)];
      match result {
        case BadImage(error) => return Some(error), replies;
        case TrivyFailed(error) => return Some(WRAPPER_ERROR + error), replies;
        case Report(_) =>
      }
      reaction, more := UpdateReport(id, result.text);
      DriveSplit(old(records), key, PendingGet, replies, more);
      replies := replies + more;
      if reaction != Fine {
        return Some(Message(REPORT_ERROR, reaction)), replies;
      }
      reaction, more := UpdateStatus(id, Finished, None, FinishedGet);
      DriveSplit(old(records), key, PendingGet, replies, more);
      replies := replies + more;
      if reaction != Fine {
        return Some(Message(STATUS_ERROR, reaction)), replies;
      }
      err := None;
    }

    /** `Scan`: an error of `scan` is recorded; a panic on the way escapes. */
    method Scan(id: string) returns (end: Pc, ghost replies: seq<Reply>)
      modifies this
      ensures Drive(old(records), Key(namespace, id), PendingGet, replies) == (records, end) && Ended(end)
    {
      var err;
      err, replies := Attempt(id);
      if err.None? {
        return Returned(true), replies;
      }
      ghost var more;
      var reaction;
      reaction, more := UpdateStatus(id, Failed, err, FailedGet(err.value));
      DriveSplit(old(records), Key(namespace, id), PendingGet, replies, more);
      replies := replies + more;
      end := if reaction == NilPanic then Panicked else Returned(reaction == Fine);
    }

    /** ScanArtifact: the handler of the queue. */
    method ScanArtifact(id: string) returns (end: Pc, ghost replies: seq<Reply>)
      modifies this
      ensures Drive(old(records), Key(namespace, id), Decode, replies) == (records, end) && Ended(end)
    {
      ghost var key := Key(namespace, id);
      var decoded: bool := *;
      DriveOneMore(records, key, Decode, [], Decoded(decoded));
      if !decoded {
        return Returned(false), [Decoded(false)];
      }
      ghost var more;
      end, more := Scan(id);
      DriveSplit(old(records), key, Decode, [Decoded(true)], more);
      replies := [Decoded(true)] + more;
    }

    /** Enqueue: publish first, then create the record; `published` says whether a worker may run. */
    method Enqueue(id: string) returns (ok: bool, publish: Outcome, create: Outcome)
      modifies this
      ensures records == if publish.Succeeded() then SetNX(old(records), Key(namespace, id), Fresh(id), create)
                         else old(records)
      ensures ok <==> publish.Succeeded() && create.Succeeded()
    {
      publish := *;
      create := Refused;
      if !publish.Succeeded() {
        return false, publish, create;
      }
      ok, create := Create(Fresh(id));
    }
  }
}
