/** The whole record of a job, read off the history of the run: what was enqueued
    and what was reported for it since. */
module JobQueueRecord {
  import opened Prelude
  import opened JobQueueSpec
  import opened JobQueueOwnership
  import opened JobQueueHistory

  // ---- History ----

  /** The event that enqueued `id`. */
  function Origin(evs: seq<Event>, id: JobId): (o: Option<Event>)
    ensures o.Some? ==> o.value.Enqueue?
  {
    if evs == [] then None
    else
      var n := |evs| - 1;
      var earlier := Origin(evs[..n], id);
      if earlier.Some? then earlier else if evs[n].Enqueue? && evs[n].id == id then Some(evs[n]) else None
  }

  datatype Report = Success(result: Json) | Failure(error: string)

  function NextReports(s: State, e: Event, id: JobId, origin: Option<Event>, reports: seq<Report>): seq<Report> {
    match e
    case Succeed(result, _) => if s.worker == Executing(id) then reports + [Success(result)] else reports
    case Fail(error, _, _) => if s.worker == Executing(id) then reports + [Failure(error)] else reports
    case Reject(_, _) =>
      if s.worker == Rejected(id) && origin.Some? && origin.value.Enqueue?
      then reports + [Failure("No handler registered for job type '" + origin.value.jobType + "'.")] else reports
    case _ => reports
  }

  /** What became of the runs of `id`, oldest first: what its handler returned or
      raised, and the complaint about a missing handler for its type. */
  function Reports(base: nat, clock: real, evs: seq<Event>, id: JobId): seq<Report> {
    if evs == [] then []
    else
      var n := |evs| - 1;
      NextReports(Run(base, clock, evs[..n]), evs[n], id, Origin(evs[..n], id), Reports(base, clock, evs[..n], id))
  }

  function NextTouch(s: State, e: Event, id: JobId, touched: real): real {
    match e
    case Enqueue(added, _, _, _, now) => if added == id && id !in s.mem.jobs then now else touched
    case Dequeue(now) => if Happens(Picking, s, e, id) then now else touched
    case Succeed(_, now) => if s.worker == Executing(id) then now else touched
    case Fail(_, now, _) => if s.worker == Executing(id) then now else touched
    case Reject(now, _) => if s.worker == Rejected(id) then now else touched
    case _ => touched
  }

  /** The latest clock reading for `id`: of its enqueueing, a dequeue or a report. */
  function Touched(base: nat, clock: real, evs: seq<Event>, id: JobId): real {
    if evs == [] then 0.0
    else
      var n := |evs| - 1;
      NextTouch(Run(base, clock, evs[..n]), evs[n], id, Touched(base, clock, evs[..n], id))
  }

  function Failures(reports: seq<Report>): nat {
    if reports == [] then 0
    else Failures(reports[..|reports|-1]) + if reports[|reports|-1].Failure? then 1 else 0
  }

  function Latest(reports: seq<Report>): Option<Report> {
    if reports == [] then None else Some(reports[|reports|-1])
  }

  // ---- The record ----

  /** Everything a record holds but `runAfter`, which the backoff theorems are about. */
  ghost predicate Records(j: Job, origin: Option<Event>, reports: seq<Report>, touched: real) {
    && origin.Some? && origin.value.Enqueue?
    && j.jobType == origin.value.jobType && j.payload == origin.value.payload
    && j.maxRetries == Max(0, origin.value.maxRetries) && j.createdAt == Trunc(origin.value.now)
    && j.attempts == Failures(reports)
    && j.updatedAt == Trunc(touched)
    && match Latest(reports)
       case None => !IsTerminal(j) && j.result == None && j.lastError == None
       case Some(Success(result)) => j.status.Completed? && j.result == Some(result) && j.lastError == None
       case Some(Failure(error)) =>
         && j.result == None && j.lastError == Some(error)
         && (IsTerminal(j) ==> j.status.Failed?)
         && (j.status.Failed? <==> Failures(reports) > Max(0, origin.value.maxRetries))
  }

  /** Reading one more report. */
  lemma ReportAdds(reports: seq<Report>, r: Report)
    ensures Latest(reports + [r]) == Some(r)
    ensures Failures(reports + [r]) == Failures(reports) + if r.Failure? then 1 else 0
  {
    assert (reports + [r])[..|reports|] == reports;
  }

  lemma SuccessRecords(j: Job, origin: Option<Event>, reports: seq<Report>, touched: real, result: Json, now: real)
    requires Records(j, origin, reports, touched) && j.status.Running?
    ensures Records(Finished(j, result, now), origin, reports + [Success(result)], now)
  {
    ReportAdds(reports, Success(result));
  }

  lemma FailureRecords(base: nat, j: Job, origin: Option<Event>, reports: seq<Report>, touched: real,
      error: string, now: real, later: real)
    requires Records(j, origin, reports, touched) && j.status.Running?
    ensures Records(Attempted(base, j, error, now, later), origin, reports + [Failure(error)], now)
  {
    ReportAdds(reports, Failure(error));
  }

  lemma MoveRecords(j: Job, origin: Option<Event>, reports: seq<Report>, touched: real, now: real)
    requires Records(j, origin, reports, touched)
    ensures j.status.Queued? ==> Records(Claimed(j, now), origin, reports, now)
    ensures Records(Requeued(j), origin, reports, touched)
  {
  }

  lemma StepKeepsRecord(base: nat, s: State, e: Event, id: JobId, origin: Option<Event>, reports: seq<Report>,
      touched: real)
    requires Inv(s) && id in s.mem.jobs && Records(s.mem.jobs[id], origin, reports, touched)
    ensures id in Step(base, s, e).mem.jobs
    ensures Records(Step(base, s, e).mem.jobs[id], origin, NextReports(s, e, id, origin, reports),
                    NextTouch(s, e, id, touched))
  {
    var j := s.mem.jobs[id];
    assert origin.Some? && origin.value.Enqueue? && j.jobType == origin.value.jobType;
    StepEntry(base, s, e, id);
    HeldIsRunning(s);
    assert EntryAfter(base, s, e, id) == Some(Step(base, s, e).mem.jobs[id]);
    if Happens(Picking, s, e, id) { DequeueIsRotation(s.mem, e.now); }
    hide Step, Inv, Records;
    match e
    case Dequeue(now) => MoveRecords(j, origin, reports, touched, now);
    case Crash => MoveRecords(j, origin, reports, touched, 0.0);
    case Succeed(result, now) =>
      if s.worker == Executing(id) { SuccessRecords(j, origin, reports, touched, result, now); }
    case Fail(error, now, later) =>
      if s.worker == Executing(id) { FailureRecords(base, j, origin, reports, touched, error, now, later); }
    case Reject(now, later) =>
      if s.worker == Rejected(id) {
        FailureRecords(base, j, origin, reports, touched, NoHandlerError(j.jobType), now, later);
      }
    case _ =>
  }

  lemma StepAddsRecord(base: nat, s: State, e: Event, id: JobId)
    requires Inv(s) && id !in s.mem.jobs
    ensures var jobs := Step(base, s, e).mem.jobs;
            && (id in jobs <==> e.Enqueue? && e.id == id)
            && (id in jobs ==> Records(jobs[id], Some(e), [], NextTouch(s, e, id, 0.0)))
            && forall origin :: NextReports(s, e, id, origin, []) == []
  {
    StepEntry(base, s, e, id);
    HeldIsRunning(s);
    assert Entry(Step(base, s, e).mem.jobs, id) == EntryAfter(base, s, e, id);
  }

  /** Over every run, a job is known exactly when it was enqueued, and its record is
      its history: what was enqueued, as many attempts as failures were reported,
      the result or the error of the latest report, and failed for good as soon as
      more failures were reported than retries allowed. */
  lemma {:induction false} RecordIsHistory(base: nat, clock: real, evs: seq<Event>, id: JobId)
    ensures var jobs := Run(base, clock, evs).mem.jobs;
            && (id in jobs <==> Origin(evs, id).Some?)
            && (id !in jobs ==> Reports(base, clock, evs, id) == [])
            && (id in jobs ==>
                  Records(jobs[id], Origin(evs, id), Reports(base, clock, evs, id), Touched(base, clock, evs, id)))
  {
    if evs == [] {
      BootEmpty(base, clock);
    } else {
      hide Records;
      var n := |evs| - 1;
      RecordIsHistory(base, clock, evs[..n], id);
      RunKeepsInv(base, clock, evs[..n]);
      var s := Run(base, clock, evs[..n]);
      if id in s.mem.jobs {
        StepKeepsRecord(base, s, evs[n], id, Origin(evs[..n], id), Reports(base, clock, evs[..n], id),
                        Touched(base, clock, evs[..n], id));
      } else {
        StepAddsRecord(base, s, evs[n], id);
      }
    }
  }

  // ---- The worker and its handlers ----

  /** A handler for the type was registered since the process started. */
  predicate Registered(evs: seq<Event>, jobType: string) {
    evs != [] &&
    match evs[|evs|-1]
    case Register(t) => t == jobType || Registered(evs[..|evs|-1], jobType)
    case Crash => false
    case _ => Registered(evs[..|evs|-1], jobType)
  }

  lemma {:induction false} HandlersAreRegistered(base: nat, clock: real, evs: seq<Event>, jobType: string)
    ensures jobType in Run(base, clock, evs).handlers <==> Registered(evs, jobType)
  {
    if evs == [] {
      BootEmpty(base, clock);
    } else {
      HandlersAreRegistered(base, clock, evs[..|evs|-1], jobType);
    }
  }

  /** A dequeued job goes to the handler registered for the type it was enqueued
      with, or is rejected exactly when there is none; then the next report for it
      is the complaint. */
  lemma {:induction false} DispatchFindsHandler(base: nat, clock: real, evs: seq<Event>, id: JobId)
    requires Run(base, clock, evs).worker == Fetched(id)
    ensures Origin(evs, id).Some?
    ensures Run(base, clock, evs + [Dispatch]).worker
            == if Registered(evs, Origin(evs, id).value.jobType) then Executing(id) else Rejected(id)
  {
    RunKeepsInv(base, clock, evs);
    HeldIsRunning(Run(base, clock, evs));
    RecordIsHistory(base, clock, evs, id);
    HandlersAreRegistered(base, clock, evs, Origin(evs, id).value.jobType);
    RunStep(base, clock, evs, Dispatch);
  }

  /** The worker was started and has neither been stopped nor ended since. */
  predicate On(base: nat, clock: real, evs: seq<Event>) {
    evs != [] &&
    var n := |evs| - 1;
    match evs[n]
    case Start => true
    case Stop => false
    case Crash => false
    case HandlerCancelled => On(base, clock, evs[..n]) && !Run(base, clock, evs[..n]).worker.Executing?
    case _ => On(base, clock, evs[..n])
  }

  /** Starting is never lost and never doubles the worker. */
  lemma {:induction false} WorkerIsOn(base: nat, clock: real, evs: seq<Event>)
    ensures var worker := Run(base, clock, evs).worker;
            && (On(base, clock, evs) <==> !worker.Off? && !worker.Ended?)
            && (On(base, clock, evs) ==> Run(base, clock, evs + [Start]) == Run(base, clock, evs))
  {
    RunStep(base, clock, evs, Start);
    if evs == [] {
      BootEmpty(base, clock);
    } else {
      WorkerIsOn(base, clock, evs[..|evs|-1]);
    }
  }
}
