/** What the jobs of a run owe to its history: nothing is lost, finished jobs
    are frozen, attempts are accounted for, and retries back off. */
module JobQueueHistory {
  import opened Prelude
  import opened JobQueueSpec
  import opened JobQueueOwnership

  // ---- Things that happen to one job ----

  datatype Kind = Picking | Recovering | Launching

  /** `e`, taken in `s`, saves the job as running, puts an interrupted job back
      in the queue, or calls the job's handler. */
  predicate Happens(kind: Kind, s: State, e: Event, id: JobId) {
    match kind
    case Picking => e.Dequeue? && s.worker.Idle? && Dequeued(s.mem, e.now).0 == Some(id)
    case Recovering => e.Crash? && IsRunning(s.saved.jobs, id)
    case Launching =>
      e.Dispatch? && s.worker == Fetched(id) && id in s.mem.jobs && s.mem.jobs[id].jobType in s.handlers
  }

  function Count(kind: Kind, base: nat, s: State, evs: seq<Event>, id: JobId): nat {
    if evs == [] then 0
    else
      var n := |evs| - 1;
      Count(kind, base, s, evs[..n], id)
        + if Happens(kind, After(base, s, evs[..n]), evs[n], id) then 1 else 0
  }

  // ---- Nothing is lost and finished jobs are frozen ----

  /** What one job record may become: its identity is fixed, attempts only
      grow, and a terminal record never changes at all. */
  predicate SameJob(a: Job, b: Job) {
    && a.jobType == b.jobType && a.payload == b.payload
    && a.maxRetries == b.maxRetries && a.createdAt == b.createdAt
    && a.attempts <= b.attempts
    && (IsTerminal(a) ==> a == b)
  }

  /** Clock readings taken under the lock do not go backwards.  `enqueue` reads
      the clock before it takes the lock, so its reading is not constrained. */
  predicate TimeOk(s: State, e: Event) {
    match e
    case Dequeue(now) => s.clock <= now
    case Succeed(_, now) => s.clock <= now
    case Fail(_, now, later) => s.clock <= now <= later
    case Reject(now, later) => s.clock <= now <= later
    case _ => true
  }

  ghost predicate Monotone(base: nat, s: State, evs: seq<Event>) {
    evs == [] ||
    (Monotone(base, s, evs[..|evs|-1]) && TimeOk(After(base, s, evs[..|evs|-1]), evs[|evs|-1]))
  }

  /** The entry of one job after a step. */
  function EntryAfter(base: nat, s: State, e: Event, id: JobId): Option<Job> {
    if id !in s.mem.jobs then
      match e
      case Enqueue(added, t, p, retries, now) => if added == id then Some(NewJob(t, p, retries, now)) else None
      case _ => None
    else
      var j := s.mem.jobs[id];
      match e
      case Dequeue(now) => Some(if Happens(Picking, s, e, id) then Claimed(j, now) else j)
      case Succeed(result, now) => Some(if s.worker == Executing(id) then Finished(j, result, now) else j)
      case Fail(error, now, later) =>
        Some(if s.worker == Executing(id) then Attempted(base, j, error, now, later) else j)
      case Reject(now, later) =>
        Some(if s.worker == Rejected(id) then Attempted(base, j, NoHandlerError(j.jobType), now, later) else j)
      case Crash => Some(Requeued(j))
      case _ => Some(j)
  }

  function Entry(jobs: map<JobId, Job>, id: JobId): Option<Job> {
    if id in jobs then Some(jobs[id]) else None
  }

  lemma OutcomeEntry(base: nat, s: State, e: Event, id: JobId)
    requires Inv(s) && (e.Succeed? || e.Fail? || e.Reject?)
    ensures Entry(Step(base, s, e).mem.jobs, id) == EntryAfter(base, s, e, id)
  {
    HeldIsRunning(s);
  }

  lemma DequeueEntry(base: nat, s: State, now: real, id: JobId)
    requires Inv(s)
    ensures Entry(Step(base, s, Dequeue(now)).mem.jobs, id) == EntryAfter(base, s, Dequeue(now), id)
  {
    var k := FirstReady(s.mem.jobs, s.mem.queue, now);
    if s.worker.Idle? && k < |s.mem.queue| {
      assert s.mem.queue[k] in s.mem.jobs;
    }
  }

  lemma CrashEntry(base: nat, s: State, id: JobId)
    requires Inv(s)
    ensures Entry(Step(base, s, Crash).mem.jobs, id) == EntryAfter(base, s, Crash, id)
  {
  }

  lemma StepEntry(base: nat, s: State, e: Event, id: JobId)
    requires Inv(s)
    ensures Entry(Step(base, s, e).mem.jobs, id) == EntryAfter(base, s, e, id)
  {
    match e
    case Dequeue(now) => DequeueEntry(base, s, now, id);
    case Succeed(_, _) => OutcomeEntry(base, s, e, id);
    case Fail(_, _, _) => OutcomeEntry(base, s, e, id);
    case Reject(_, _) => OutcomeEntry(base, s, e, id);
    case Crash => CrashEntry(base, s, id);
    case _ =>
  }

  lemma StepKeepsJobs(base: nat, s: State, e: Event, id: JobId)
    requires Inv(s) && id in s.mem.jobs
    ensures id in Step(base, s, e).mem.jobs
    ensures SameJob(s.mem.jobs[id], Step(base, s, e).mem.jobs[id])
  {
    StepEntry(base, s, e, id);
    HeldIsRunning(s);
    assert Entry(Step(base, s, e).mem.jobs, id).Some?;
  }

  /** Whatever happens next -- retries, stops, crashes -- a job that is known
      now stays known under the same identity, and a finished one is frozen. */
  lemma {:induction false} NoJobIsLost(base: nat, s: State, evs: seq<Event>, id: JobId)
    requires Inv(s) && id in s.mem.jobs
    ensures id in After(base, s, evs).mem.jobs
    ensures SameJob(s.mem.jobs[id], After(base, s, evs).mem.jobs[id])
  {
    if evs != [] {
      var n := |evs| - 1;
      NoJobIsLost(base, s, evs[..n], id);
      AfterKeepsInv(base, s, evs[..n]);
      StepKeepsJobs(base, After(base, s, evs[..n]), evs[n], id);
    }
  }

  lemma StepKeepsOrphan(base: nat, s: State, e: Event, id: JobId)
    requires Inv(s) && id in s.orphans && !e.Crash?
    ensures id in Step(base, s, e).orphans && Entry(Step(base, s, e).mem.jobs, id) == Entry(s.mem.jobs, id)
  {
    StepEntry(base, s, e, id);
    assert IsRunning(s.mem.jobs, id) && !s.worker.Holds(id);
    if e.Dequeue? { DequeueIsRotation(s.mem, e.now); }
  }

  /** A job whose worker was stopped stays running, record and all, whatever is
      stopped, started or enqueued afterwards; only a reload queues it again. */
  lemma {:induction false} OrphanWaitsForReload(base: nat, s: State, evs: seq<Event>, id: JobId)
    requires Inv(s) && id in s.orphans && forall e :: e in evs ==> !e.Crash?
    ensures var t := After(base, s, evs);
            && id in t.orphans && IsRunning(t.mem.jobs, id) && id in s.mem.jobs && t.mem.jobs[id] == s.mem.jobs[id]
            && id in Step(base, t, Crash).mem.queue && IsQueued(Step(base, t, Crash).mem.jobs, id)
  {
    if evs != [] {
      var n := |evs| - 1;
      assert evs[n] in evs;
      OrphanWaitsForReload(base, s, evs[..n], id);
      AfterKeepsInv(base, s, evs[..n]);
      StepKeepsOrphan(base, After(base, s, evs[..n]), evs[n], id);
    }
    var t := After(base, s, evs);
    AfterKeepsInv(base, s, evs);
    assert IsRunning(t.mem.jobs, id);
    StepKeepsInv(base, t, Crash);
    StepEntry(base, t, Crash, id);
    assert Entry(Step(base, t, Crash).mem.jobs, id) == Some(Requeued(t.mem.jobs[id]));
  }

  lemma WorkerIsIdle(base: nat, clock: real, id: JobId, jobType: string, payload: Json, retries: int, now: real)
    ensures var j := NewJob(jobType, payload, retries, now);
            var m := Snapshot(map[id := j], [id]);
            Run(base, clock, [Enqueue(id, jobType, payload, retries, now), Register(jobType), Start])
            == State(m, m, {jobType}, Idle, {}, clock)
  {
    hide Run;
    var e := [Enqueue(id, jobType, payload, retries, now), Register(jobType), Start];
    BootEmpty(base, clock);
    RunStep(base, clock, [], e[0]);
    RunStep(base, clock, e[..1], e[1]);
    RunStep(base, clock, e[..2], e[2]);
    assert [] + [e[0]] == e[..1] && e[..1] + [e[1]] == e[..2] && e[..2] + [e[2]] == e;
  }

  lemma FirstJobStarts(base: nat, s: State, id: JobId, now: real)
    requires s.worker.Idle? && s.mem.queue == [id] && Ready(s.mem.jobs, id, now)
    requires s.mem.jobs[id].jobType in s.handlers
    ensures Step(base, Step(base, s, Dequeue(now)), Dispatch).worker == Executing(id)
  {
    assert FirstReady(s.mem.jobs, s.mem.queue, now) == 0;
  }

  /** Such a job is reached by a stop, or a cancelled handler, after five steps. */
  lemma OrphanIsReachable(base: nat, clock: real, id: JobId, jobType: string, payload: Json, retries: int, now: real)
    requires 0.0 <= now
    ensures var waiting := [Enqueue(id, jobType, payload, retries, now), Register(jobType), Start];
            var working := waiting + [Dequeue(now), Dispatch];
            && id in Run(base, clock, working + [Stop]).orphans
            && id in Run(base, clock, working + [HandlerCancelled]).orphans
  {
    hide Run;
    var waiting := [Enqueue(id, jobType, payload, retries, now), Register(jobType), Start];
    var working := waiting + [Dequeue(now), Dispatch];
    assert working == waiting + [Dequeue(now)] + [Dispatch];
    WorkerIsIdle(base, clock, id, jobType, payload, retries, now);
    FirstJobStarts(base, Run(base, clock, waiting), id, now);
    RunStep(base, clock, waiting, Dequeue(now));
    RunStep(base, clock, waiting + [Dequeue(now)], Dispatch);
    RunStep(base, clock, working, Stop);
    RunStep(base, clock, working, HandlerCancelled);
  }

  // ---- Attempt accounting ----

  function InFlight(jobs: map<JobId, Job>, id: JobId): nat {
    if id in jobs && (jobs[id].status.Running? || jobs[id].status.Completed?) then 1 else 0
  }

  function AttemptsOf(jobs: map<JobId, Job>, id: JobId): nat {
    if id in jobs then jobs[id].attempts else 0
  }

  lemma StepAccounts(base: nat, s: State, e: Event, id: JobId)
    requires Inv(s)
    ensures var t := Step(base, s, e);
            AttemptsOf(t.mem.jobs, id) + InFlight(t.mem.jobs, id)
              + (if Happens(Recovering, s, e, id) then 1 else 0)
            == AttemptsOf(s.mem.jobs, id) + InFlight(s.mem.jobs, id)
              + (if Happens(Picking, s, e, id) then 1 else 0)
  {
    StepEntry(base, s, e, id);
    HeldIsRunning(s);
    if Happens(Picking, s, e, id) { DequeueIsRotation(s.mem, e.now); }
    var before, after := Entry(s.mem.jobs, id), EntryAfter(base, s, e, id);
    assert AttemptsOf(s.mem.jobs, id) == (if before.Some? then before.value.attempts else 0);
    assert AttemptsOf(Step(base, s, e).mem.jobs, id) == (if after.Some? then after.value.attempts else 0);
  }

  /** A handler call needs its own dequeue, still pending while it is fetched. */
  lemma StepLaunches(base: nat, s: State, e: Event, id: JobId)
    requires Inv(s)
    ensures var t := Step(base, s, e);
            (if Happens(Launching, s, e, id) then 1 else 0) + (if t.worker == Fetched(id) then 1 else 0)
            <= (if s.worker == Fetched(id) then 1 else 0) + (if Happens(Picking, s, e, id) then 1 else 0)
  {
    HeldIsRunning(s);
  }

  lemma {:induction false} CountsBalance(base: nat, clock: real, evs: seq<Event>, id: JobId)
    ensures var s := Run(base, clock, evs);
            var s0 := Boot(EMPTY, clock);
            && Count(Picking, base, s0, evs, id)
               == AttemptsOf(s.mem.jobs, id) + InFlight(s.mem.jobs, id) + Count(Recovering, base, s0, evs, id)
            && Count(Launching, base, s0, evs, id) + (if s.worker == Fetched(id) then 1 else 0)
               <= Count(Picking, base, s0, evs, id)
  {
    if evs != [] {
      var n := |evs| - 1;
      CountsBalance(base, clock, evs[..n], id);
      RunKeepsInv(base, clock, evs[..n]);
      StepAccounts(base, Run(base, clock, evs[..n]), evs[n], id);
      StepLaunches(base, Run(base, clock, evs[..n]), evs[n], id);
    }
  }

  /** Over every run, for every job: saved dequeues are recorded attempts plus
      crash recoveries, plus one while running or once completed; a job fails
      exactly when its attempts exceed its retries; and its handler is called at
      most max_retries + 1 times, plus once for each crash that interrupted it. */
  lemma {:induction false} AttemptAccounting(base: nat, clock: real, evs: seq<Event>, id: JobId)
    requires id in Run(base, clock, evs).mem.jobs
    ensures var s0 := Boot(EMPTY, clock);
            var j := Run(base, clock, evs).mem.jobs[id];
            var recoveries := Count(Recovering, base, s0, evs, id);
            && Count(Picking, base, s0, evs, id)
               == j.attempts + recoveries + (if j.status.Running? || j.status.Completed? then 1 else 0)
            && (j.status.Failed? <==> j.attempts == j.maxRetries + 1)
            && j.attempts <= j.maxRetries + 1
            && Count(Launching, base, s0, evs, id) <= j.maxRetries + 1 + recoveries
  {
    CountsBalance(base, clock, evs, id);
    RunKeepsInv(base, clock, evs);
    var j := Run(base, clock, evs).mem.jobs[id];
    assert j.attempts <= j.maxRetries + 1 && (j.status.Failed? <==> j.attempts == j.maxRetries + 1);
  }

  predicate Reached(s: State, id: JobId) {
    (id in s.mem.jobs && s.mem.jobs[id].status.Completed?) || s.worker == Executing(id)
  }

  lemma StepReaches(base: nat, s: State, e: Event, id: JobId)
    requires Inv(s) && Reached(Step(base, s, e), id)
    ensures Reached(s, id) || Happens(Launching, s, e, id)
  {
    StepEntry(base, s, e, id);
    assert Entry(Step(base, s, e).mem.jobs, id) == EntryAfter(base, s, e, id);
  }

  /** A job completes only after its handler was called. */
  lemma {:induction false} CompletedWasCalled(base: nat, clock: real, evs: seq<Event>, id: JobId)
    requires Reached(Run(base, clock, evs), id)
    ensures Count(Launching, base, Boot(EMPTY, clock), evs, id) >= 1
  {
    if evs != [] {
      var n := |evs| - 1;
      RunKeepsInv(base, clock, evs[..n]);
      StepReaches(base, Run(base, clock, evs[..n]), evs[n], id);
      if Reached(Run(base, clock, evs[..n]), id) {
        CompletedWasCalled(base, clock, evs[..n], id);
      }
    }
  }

  // ---- Backoff ----

  /** A failure reported for `id` starts its next backoff at its second reading. */
  function NextStart(s: State, e: Event, id: JobId, start: Option<real>): Option<real> {
    match e
    case Fail(_, _, later) => if s.worker == Executing(id) then Some(later) else start
    case Reject(_, later) => if s.worker == Rejected(id) then Some(later) else start
    case _ => start
  }

  /** The reading from which the latest failure recorded for `id` counts its backoff. */
  function BackoffStart(base: nat, clock: real, evs: seq<Event>, id: JobId): Option<real> {
    if evs == [] then None
    else
      var n := |evs| - 1;
      NextStart(Run(base, clock, evs[..n]), evs[n], id, BackoffStart(base, clock, evs[..n], id))
  }

  predicate BacksOffFrom(base: nat, j: Job, start: Option<real>) {
    j.status.Failed? ||
    (if j.attempts == 0 then j.runAfter == j.createdAt as real
     else start.Some? && j.runAfter == start.value + (base * j.attempts) as real)
  }

  lemma StepKeepsStart(base: nat, s: State, e: Event, id: JobId, start: Option<real>)
    requires Inv(s) && id in Step(base, s, e).mem.jobs
    requires id in s.mem.jobs ==> BacksOffFrom(base, s.mem.jobs[id], start)
    ensures BacksOffFrom(base, Step(base, s, e).mem.jobs[id], NextStart(s, e, id, start))
  {
    StepEntry(base, s, e, id);
    HeldIsRunning(s);
    var j' := Step(base, s, e).mem.jobs[id];
    assert EntryAfter(base, s, e, id) == Some(j');
    hide Step, Inv;
  }

  lemma {:induction false} RunAfterIsExact(base: nat, clock: real, evs: seq<Event>, id: JobId)
    requires id in Run(base, clock, evs).mem.jobs
    ensures BacksOffFrom(base, Run(base, clock, evs).mem.jobs[id], BackoffStart(base, clock, evs, id))
  {
    hide BacksOffFrom, NextStart;
    if evs == [] {
      BootEmpty(base, clock);
    } else {
      var n := |evs| - 1;
      RunKeepsInv(base, clock, evs[..n]);
      if id in Run(base, clock, evs[..n]).mem.jobs { RunAfterIsExact(base, clock, evs[..n], id); }
      StepKeepsStart(base, Run(base, clock, evs[..n]), evs[n], id, BackoffStart(base, clock, evs[..n], id));
    }
  }

  /** Under any clock and across any crashes, a job that has failed `a` times is
      not dequeued at a reading before its last failure + base * a. */
  lemma {:induction false} LinearBackoff(base: nat, clock: real, evs: seq<Event>, now: real, id: JobId)
    requires Happens(Picking, Run(base, clock, evs), Dequeue(now), id)
    ensures id in Run(base, clock, evs).mem.jobs
    ensures var j := Run(base, clock, evs).mem.jobs[id];
            var start := BackoffStart(base, clock, evs, id);
            if j.attempts == 0 then j.createdAt as real <= now
            else start.Some? && start.value + (base * j.attempts) as real <= now
  {
    RunAfterIsExact(base, clock, evs, id);
  }

  function Triangle(n: nat): nat {
    n * (n + 1) / 2
  }

  lemma TriangleStep(n: nat)
    ensures Triangle(n + 1) == Triangle(n) + n + 1
  {
    assert (n + 1) * (n + 2) == n * (n + 1) + 2 * (n + 1);
  }

  /** The earliest instant a job that has failed `attempts` times may run again. */
  function Earliest(base: nat, j: Job): real {
    (j.createdAt + base * Triangle(j.attempts)) as real
  }

  predicate JobBackedOff(base: nat, j: Job, clock: real) {
    && Earliest(base, j) <= j.runAfter
    && (j.status.Running? ==> j.runAfter <= clock)
  }

  ghost predicate BackedOff(base: nat, s: State) {
    forall id :: id in s.mem.jobs && !IsTerminal(s.mem.jobs[id]) ==> JobBackedOff(base, s.mem.jobs[id], s.clock)
  }

  lemma RetryBacksOff(base: nat, j: Job, error: string, now: real, later: real)
    requires j.status.Running? && JobBackedOff(base, j, now) && now <= later && HasRetryLeft(j)
    ensures JobBackedOff(base, Attempted(base, j, error, now, later), later)
  {
    var a := j.attempts;
    TriangleStep(a);
    assert base * Triangle(a + 1) == base * Triangle(a) + base * (a + 1);
  }

  lemma OutcomeKeepsBackedOff(base: nat, s: State, e: Event)
    requires Inv(s) && BackedOff(base, s) && TimeOk(s, e) && (e.Fail? || e.Reject?)
    requires if e.Fail? then s.worker.Executing? else s.worker.Rejected?
    ensures BackedOff(base, Step(base, s, e))
  {
    var h := s.worker.id;
    HeldIsRunning(s);
    var j := s.mem.jobs[h];
    var error := if e.Fail? then e.error else NoHandlerError(j.jobType);
    assert JobBackedOff(base, j, s.clock);
    if HasRetryLeft(j) {
      RetryBacksOff(base, j, error, e.now, e.later);
    }
    var t := Step(base, s, e);
    assert t.mem.jobs == s.mem.jobs[h := Attempted(base, j, error, e.now, e.later)];
    forall id | id in t.mem.jobs && !IsTerminal(t.mem.jobs[id])
      ensures JobBackedOff(base, t.mem.jobs[id], t.clock)
    {
      if id != h { assert JobBackedOff(base, s.mem.jobs[id], s.clock); }
    }
  }

  lemma DequeueKeepsBackedOff(base: nat, s: State, now: real)
    requires Inv(s) && BackedOff(base, s) && s.clock <= now
    ensures BackedOff(base, Step(base, s, Dequeue(now)))
  {
    if s.worker.Idle? {
      DequeueIsRotation(s.mem, now);
      var t := Step(base, s, Dequeue(now));
      forall id | id in t.mem.jobs && !IsTerminal(t.mem.jobs[id])
        ensures JobBackedOff(base, t.mem.jobs[id], t.clock)
      {
        assert JobBackedOff(base, s.mem.jobs[id], s.clock);
      }
    }
  }

  lemma StepKeepsBackedOff(base: nat, s: State, e: Event)
    requires Inv(s) && BackedOff(base, s) && TimeOk(s, e)
    ensures BackedOff(base, Step(base, s, e))
  {
    match e
    case Dequeue(now) => DequeueKeepsBackedOff(base, s, now);
    case Fail(_, _, _) => if s.worker.Executing? { OutcomeKeepsBackedOff(base, s, e); }
    case Reject(_, _) => if s.worker.Rejected? { OutcomeKeepsBackedOff(base, s, e); }
    case Enqueue(id, jobType, payload, retries, now) =>
      assert Triangle(0) == 0;
      assert JobBackedOff(base, NewJob(jobType, payload, retries, now), s.clock);
      var t := Step(base, s, e);
      forall x | x in t.mem.jobs && !IsTerminal(t.mem.jobs[x])
        ensures JobBackedOff(base, t.mem.jobs[x], t.clock)
      {
        if x != id { assert JobBackedOff(base, s.mem.jobs[x], s.clock); }
      }
    case Crash =>
      forall x | x in s.mem.jobs && !IsTerminal(s.mem.jobs[x])
        ensures JobBackedOff(base, Requeued(s.mem.jobs[x]), s.clock)
      {
        assert JobBackedOff(base, s.mem.jobs[x], s.clock);
      }
    case _ =>
  }

  lemma {:induction false} RunBacksOff(base: nat, clock: real, evs: seq<Event>)
    requires Monotone(base, Boot(EMPTY, clock), evs)
    ensures BackedOff(base, Run(base, clock, evs))
  {
    if evs != [] {
      var n := |evs| - 1;
      RunBacksOff(base, clock, evs[..n]);
      RunKeepsInv(base, clock, evs[..n]);
      StepKeepsBackedOff(base, Run(base, clock, evs[..n]), evs[n]);
    }
  }

  /** Under a clock that never runs backwards, and across any crashes, a job
      with `a` recorded failures is not dequeued before
      created_at + base * a * (a + 1) / 2. */
  lemma {:induction false} TriangularBackoff(base: nat, clock: real, evs: seq<Event>, now: real, id: JobId)
    requires Monotone(base, Boot(EMPTY, clock), evs + [Dequeue(now)])
    requires Happens(Picking, Run(base, clock, evs), Dequeue(now), id)
    ensures id in Run(base, clock, evs).mem.jobs
    ensures var j := Run(base, clock, evs).mem.jobs[id];
            j.createdAt as real + (base * (j.attempts * (j.attempts + 1) / 2)) as real <= now
  {
    assert (evs + [Dequeue(now)])[..|evs|] == evs;
    RunBacksOff(base, clock, evs);
  }
}
