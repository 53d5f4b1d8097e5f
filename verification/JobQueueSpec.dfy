/** The persistent job queue as a transition system.
    A block held under the queue's lock is one step; `saved` is the vault entry,
    `mem` the two in-memory fields.  A step is total: an event that cannot occur
    in a state leaves it unchanged, so every event sequence is a run. */
module JobQueueSpec {
  import opened Prelude

  /** A uuid4, as its 128-bit number: the canonical text has fixed width, so
      text order and number order agree. */
  type JobId = nat

  datatype Status = Queued | Running | Completed | Failed

  datatype Job = Job(
    jobType: string, payload: Json, status: Status,
    attempts: nat, maxRetries: nat,
    createdAt: int, updatedAt: int,
    lastError: Option<string>, result: Option<Json>,
    runAfter: real)

  /** The pair of fields that is kept in memory and saved as one vault entry. */
  datatype Snapshot = Snapshot(jobs: map<JobId, Job>, queue: seq<JobId>)

  const EMPTY := Snapshot(map[], [])

  /** Where the worker coroutine is: not started, ended by itself, about to
      dequeue or asleep, holding a dequeued job, awaiting its handler, or about
      to report that no handler is registered. */
  datatype Worker =
    | Off
    | Ended
    | Idle
    | Fetched(id: JobId)
    | Executing(id: JobId)
    | Rejected(id: JobId)
  {
    predicate HasJob() {
      Fetched? || Executing? || Rejected?
    }

    predicate Holds(job: JobId) {
      HasJob() && id == job
    }
  }

  /** `orphans` records the running jobs whose worker is gone; the source
      keeps no such list.  `clock` is the latest reading taken under the lock. */
  datatype State = State(
    mem: Snapshot, saved: Snapshot,
    handlers: set<string>, worker: Worker,
    orphans: set<JobId>, clock: real)

  datatype Event =
    | Register(jobType: string)
    | Enqueue(id: JobId, jobType: string, payload: Json, maxRetries: int, now: real)
    | Dequeue(now: real)
    | Dispatch
    | Succeed(result: Json, now: real)
    | Fail(error: string, now: real, later: real)
    | Reject(now: real, later: real)
    | HandlerCancelled
    | Start
    | Stop
    | Crash

  // ---- The lock-protected blocks, as functions of the two fields ----

  predicate IsQueued(jobs: map<JobId, Job>, id: JobId) {
    id in jobs && jobs[id].status.Queued?
  }

  predicate IsRunning(jobs: map<JobId, Job>, id: JobId) {
    id in jobs && jobs[id].status.Running?
  }

  predicate IsTerminal(j: Job) {
    j.status.Completed? || j.status.Failed?
  }

  predicate Ready(jobs: map<JobId, Job>, id: JobId, now: real) {
    IsQueued(jobs, id) && jobs[id].runAfter <= now
  }

  /** Position of the first ready id in queue order, or |q| when there is none. */
  function FirstReady(jobs: map<JobId, Job>, q: seq<JobId>, now: real): (k: nat)
    ensures k <= |q|
    ensures k < |q| ==> Ready(jobs, q[k], now)
    ensures forall i :: 0 <= i < k ==> !Ready(jobs, q[i], now)
  {
    if q == [] || Ready(jobs, q[0], now) then 0 else 1 + FirstReady(jobs, q[1..], now)
  }

  /** The ids of `q` that still name a queued job, in order. */
  function StillQueued(jobs: map<JobId, Job>, q: seq<JobId>): seq<JobId> {
    if q == [] then []
    else StillQueued(jobs, q[..|q|-1]) + (if IsQueued(jobs, q[|q|-1]) then [q[|q|-1]] else [])
  }

  function NewJob(jobType: string, payload: Json, maxRetries: int, now: real): Job {
    Job(jobType, payload, Queued, 0, Max(0, maxRetries), Trunc(now), Trunc(now), None, None, Trunc(now) as real)
  }

  function Enqueued(m: Snapshot, id: JobId, job: Job): Snapshot {
    Snapshot(m.jobs[id := job], m.queue + [id])
  }

  function Claimed(j: Job, now: real): Job {
    j.(status := Running, updatedAt := Trunc(now))
  }

  function Dequeued(m: Snapshot, now: real): (Option<JobId>, Snapshot) {
    var k := FirstReady(m.jobs, m.queue, now);
    if k == |m.queue| then (None, m.(queue := StillQueued(m.jobs, m.queue)))
    else
      var id := m.queue[k];
      (Some(id), Snapshot(m.jobs[id := Claimed(m.jobs[id], now)],
                          m.queue[k+1..] + StillQueued(m.jobs, m.queue[..k])))
  }

  function Finished(j: Job, result: Json, now: real): Job {
    j.(status := Completed, result := Some(result), updatedAt := Trunc(now), lastError := None)
  }

  function MarkedCompleted(m: Snapshot, id: JobId, result: Json, now: real): Snapshot {
    if id !in m.jobs then m else m.(jobs := m.jobs[id := Finished(m.jobs[id], result, now)])
  }

  predicate HasRetryLeft(j: Job) {
    j.attempts + 1 <= j.maxRetries
  }

  function Attempted(base: nat, j: Job, error: string, now: real, later: real): Job {
    var counted := j.(attempts := j.attempts + 1, updatedAt := Trunc(now), lastError := Some(error));
    if HasRetryLeft(j)
    then counted.(status := Queued, runAfter := later + (base * (j.attempts + 1)) as real)
    else counted.(status := Failed)
  }

  function MarkedFailed(base: nat, m: Snapshot, id: JobId, error: string, now: real, later: real): Snapshot {
    if id !in m.jobs then m
    else Snapshot(m.jobs[id := Attempted(base, m.jobs[id], error, now, later)],
                  if HasRetryLeft(m.jobs[id]) then m.queue + [id] else m.queue)
  }

  function Requeued(j: Job): Job {
    if j.status.Running? then j.(status := Queued) else j
  }

  /** The ids that loading has to append: waiting or interrupted, yet not queued. */
  function Missing(m: Snapshot): set<JobId> {
    set id | id in m.jobs && (IsQueued(m.jobs, id) || IsRunning(m.jobs, id)) && id !in m.queue
  }

  function Reloaded(m: Snapshot): Snapshot {
    Snapshot(map id | id in m.jobs :: Requeued(m.jobs[id]), m.queue + Ascending(Missing(m)))
  }

  // ---- The transition system ----

  function NoHandlerError(jobType: string): string {
    "No handler registered for job type '" + jobType + "'."
  }

  /** The state a new process starts from: what it loads, with no worker yet. */
  function Boot(saved: Snapshot, clock: real): State {
    State(Reloaded(saved), Reloaded(saved), {}, Off, {}, clock)
  }

  function Persist(s: State): State {
    s.(saved := s.mem)
  }

  /** The in-memory half of a step: everything up to the save. */
  function Mutate(base: nat, s: State, e: Event): State {
    match e
    case Register(t) => s.(handlers := s.handlers + {t})
    case Enqueue(id, t, p, retries, now) =>
      if id in s.mem.jobs then s
      else s.(mem := Enqueued(s.mem, id, NewJob(t, p, retries, now)))
    case Dequeue(now) =>
      if !s.worker.Idle? then s
      else
        var (pick, m) := Dequeued(s.mem, now);
        s.(mem := m, clock := now, worker := if pick.Some? then Fetched(pick.value) else Idle)
    case Dispatch =>
      if !s.worker.Fetched? then s
      else if s.worker.id !in s.mem.jobs then s.(worker := Idle)
      else if s.mem.jobs[s.worker.id].jobType in s.handlers then s.(worker := Executing(s.worker.id))
      else s.(worker := Rejected(s.worker.id))
    case Succeed(result, now) =>
      if !s.worker.Executing? then s
      else s.(mem := MarkedCompleted(s.mem, s.worker.id, result, now), clock := now, worker := Idle)
    case Fail(error, now, later) =>
      if !s.worker.Executing? then s
      else s.(mem := MarkedFailed(base, s.mem, s.worker.id, error, now, later), clock := later, worker := Idle)
    case Reject(now, later) =>
      if !s.worker.Rejected? then s
      else if s.worker.id !in s.mem.jobs then s.(worker := Idle)
      else
        var error := NoHandlerError(s.mem.jobs[s.worker.id].jobType);
        s.(mem := MarkedFailed(base, s.mem, s.worker.id, error, now, later), clock := later, worker := Idle)
    case HandlerCancelled =>
      // `except Exception` does not catch a CancelledError that the handler raises.
      if !s.worker.Executing? then s
      else s.(worker := Ended, orphans := s.orphans + {s.worker.id})
    case Start => if s.worker.Off? || s.worker.Ended? then s.(worker := Idle) else s
    case Stop =>
      if !s.worker.HasJob() then s.(worker := Off)
      else s.(worker := Off, orphans := s.orphans + {s.worker.id})
    case Crash => Boot(s.saved, s.clock)
  }

  /** Whether the step writes the vault before it releases the lock.  A dequeue
      that finds nothing does not, although it may have dropped or rotated ids. */
  predicate Saves(s: State, e: Event) {
    match e
    case Enqueue(id, _, _, _, _) => id !in s.mem.jobs
    case Dequeue(now) => s.worker.Idle? && Dequeued(s.mem, now).0.Some?
    case Succeed(_, _) => s.worker.Executing? && s.worker.id in s.mem.jobs
    case Fail(_, _, _) => s.worker.Executing? && s.worker.id in s.mem.jobs
    case Reject(_, _) => s.worker.Rejected? && s.worker.id in s.mem.jobs
    case _ => false
  }

  function Step(base: nat, s: State, e: Event): State {
    if Saves(s, e) then Persist(Mutate(base, s, e)) else Mutate(base, s, e)
  }

  function After(base: nat, s: State, evs: seq<Event>): State {
    if evs == [] then s
    else Step(base, After(base, s, evs[..|evs|-1]), evs[|evs|-1])
  }

  /** Every reachable state: any run of a process booted on an empty vault. */
  function Run(base: nat, clock: real, evs: seq<Event>): State {
    After(base, Boot(EMPTY, clock), evs)
  }
}
