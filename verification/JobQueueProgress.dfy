/** Bounded overtaking, and how much work is left. */
module JobQueueProgress {
  import opened Prelude
  import opened JobQueueSpec
  import opened JobQueueOwnership
  import opened JobQueueHistory

  // ---- No starvation ----

  /** How many times the worker asked for a job. */
  function Asks(base: nat, s: State, evs: seq<Event>): nat {
    if evs == [] then 0
    else
      var n := |evs| - 1;
      Asks(base, s, evs[..n]) + if evs[n].Dequeue? && After(base, s, evs[..n]).worker.Idle? then 1 else 0
  }

  /** `id` is at queue position `p`, and ready at every instant from `at` on. */
  predicate WaitsAt(s: State, id: JobId, p: nat, at: real) {
    p < |s.mem.queue| && s.mem.queue[p] == id && Ready(s.mem.jobs, id, at)
  }

  lemma AskMovesForward(base: nat, s: State, now: real, id: JobId, p: nat, at: real) returns (p': nat)
    requires Inv(s) && at <= now && WaitsAt(s, id, p, at) && s.worker.Idle?
    requires !Happens(Picking, s, Dequeue(now), id)
    ensures WaitsAt(Step(base, s, Dequeue(now)), id, p', at)
    ensures p' < p
  {
    var q := s.mem.queue;
    var k := FirstReady(s.mem.jobs, q, now);
    DequeueIsRotation(s.mem, now);
    assert Ready(s.mem.jobs, q[p], now);
    p' := p - k - 1;
    assert (q[k+1..] + q[..k])[p'] == q[p];
  }

  /** A waiting ready job moves forward on each ask and never moves back. */
  lemma StepMovesForward(base: nat, s: State, e: Event, id: JobId, p: nat, at: real) returns (p': nat)
    requires Inv(s) && WaitsAt(s, id, p, at) && (e.Dequeue? ==> at <= e.now)
    requires !Happens(Picking, s, e, id)
    ensures WaitsAt(Step(base, s, e), id, p', at)
    ensures p' <= p
    ensures e.Dequeue? && s.worker.Idle? ==> p' < p
  {
    p' := p;
    HeldIsRunning(s);
    if e.Dequeue? && s.worker.Idle? {
      p' := AskMovesForward(base, s, e.now, id, p, at);
    } else {
      StepEntry(base, s, e, id);
    }
  }

  lemma {:induction false} WaitsOrPicked(base: nat, s: State, evs: seq<Event>, id: JobId, p: nat, at: real)
    returns (p': nat)
    requires Inv(s) && WaitsAt(s, id, p, at)
    requires forall e :: e in evs && e.Dequeue? ==> at <= e.now
    ensures Count(Picking, base, s, evs, id) == 0 ==>
      WaitsAt(After(base, s, evs), id, p', at) && p' + Asks(base, s, evs) <= p
  {
    p' := p;
    if evs != [] {
      var n := |evs| - 1;
      assert evs[n] in evs;
      p' := WaitsOrPicked(base, s, evs[..n], id, p, at);
      AfterKeepsInv(base, s, evs[..n]);
      if Count(Picking, base, s, evs, id) == 0 {
        p' := StepMovesForward(base, After(base, s, evs[..n]), evs[n], id, p', at);
      }
    }
  }

  /** A job at queue position `p` that is ready at instant `at` is dequeued within
      the worker's next p + 1 requests, provided none of them reads a clock before
      `at` -- whatever enqueues, retries, stops and crashes are interleaved, and
      whatever the clock does otherwise. */
  lemma {:induction false} NoStarvation(base: nat, clock: real, before: seq<Event>, evs: seq<Event>, id: JobId,
      p: nat, at: real)
    requires WaitsAt(Run(base, clock, before), id, p, at)
    requires forall e :: e in evs && e.Dequeue? ==> at <= e.now
    requires Asks(base, Run(base, clock, before), evs) >= p + 1
    ensures Count(Picking, base, Run(base, clock, before), evs, id) >= 1
  {
    RunKeepsInv(base, clock, before);
    var _ := WaitsOrPicked(base, Run(base, clock, before), evs, id, p, at);
  }

  // ---- A measure that every worker step lowers ----

  function Weight(j: Job): nat {
    if IsTerminal(j) || j.attempts > j.maxRetries then 0
    else 3 * (j.maxRetries + 1 - j.attempts) + (if j.status.Queued? then 2 else 0)
  }

  ghost function WeightOf(ids: set<JobId>, jobs: map<JobId, Job>): nat
    requires ids <= jobs.Keys
    decreases |ids|
  {
    if ids == {} then 0
    else
      var id := Least(ids);
      Weight(jobs[id]) + WeightOf(ids - {id}, jobs)
  }

  lemma {:induction false} WeightOfUpdate(ids: set<JobId>, jobs: map<JobId, Job>, id: JobId, j: Job)
    requires ids <= jobs.Keys && id in jobs
    ensures WeightOf(ids, jobs[id := j])
            == WeightOf(ids, jobs) + if id in ids then Weight(j) - Weight(jobs[id]) else 0
    decreases |ids|
  {
    if ids != {} {
      WeightOfUpdate(ids - {Least(ids)}, jobs, id, j);
    }
  }

  ghost function WorkLeft(s: State): nat {
    WeightOf(s.mem.jobs.Keys, s.mem.jobs) + if s.worker.Fetched? then 1 else 0
  }

  /** The worker did something other than find the queue idle. */
  predicate Productive(s: State, e: Event) {
    match e
    case Dequeue(now) => s.worker.Idle? && Dequeued(s.mem, now).0.Some?
    case Dispatch => s.worker.Fetched?
    case Succeed(_, _) => s.worker.Executing?
    case Fail(_, _, _) => s.worker.Executing?
    case Reject(_, _) => s.worker.Rejected?
    case _ => false
  }

  /** Every way the worker changes its job lowers that job's weight. */
  lemma WeightFalls(base: nat, j: Job, error: string, result: Json, now: real, later: real)
    requires !IsTerminal(j) && j.attempts <= j.maxRetries
    ensures j.status.Queued? ==> Weight(Claimed(j, now)) + 2 == Weight(j)
    ensures j.status.Running? ==> Weight(Attempted(base, j, error, now, later)) + 1 <= Weight(j)
    ensures Weight(Finished(j, result, now)) + 3 <= Weight(j)
  {
  }

  lemma ClaimLowersWork(base: nat, s: State, now: real)
    requires Inv(s) && Productive(s, Dequeue(now))
    ensures WorkLeft(Step(base, s, Dequeue(now))) + 1 <= WorkLeft(s)
  {
    DequeueIsRotation(s.mem, now);
    var id := Dequeued(s.mem, now).0.value;
    var j := s.mem.jobs[id];
    assert id in s.mem.queue;
    WeightFalls(base, j, "", "", now, now);
    WeightOfUpdate(s.mem.jobs.Keys, s.mem.jobs, id, Claimed(j, now));
    assert Step(base, s, Dequeue(now)).mem.jobs.Keys == s.mem.jobs.Keys;
  }

  lemma OutcomeLowersWork(base: nat, s: State, e: Event)
    requires Inv(s) && Productive(s, e) && (e.Succeed? || e.Fail? || e.Reject?)
    ensures WorkLeft(Step(base, s, e)) + 1 <= WorkLeft(s)
  {
    HeldIsRunning(s);
    var id := s.worker.id;
    var j := s.mem.jobs[id];
    var result := if e.Succeed? then e.result else "";
    var error := if e.Fail? then e.error else NoHandlerError(j.jobType);
    var later := if e.Succeed? then e.now else e.later;
    WeightFalls(base, j, error, result, e.now, later);
    var j' := if e.Succeed? then Finished(j, result, e.now) else Attempted(base, j, error, e.now, later);
    WeightOfUpdate(s.mem.jobs.Keys, s.mem.jobs, id, j');
    var t := Step(base, s, e);
    assert t.mem.jobs == s.mem.jobs[id := j'];
    assert t.mem.jobs.Keys == s.mem.jobs.Keys;
  }

  lemma StepLowersWork(base: nat, s: State, e: Event)
    requires Inv(s) && !e.Enqueue? && !e.Crash?
    ensures WorkLeft(Step(base, s, e)) + (if Productive(s, e) then 1 else 0) <= WorkLeft(s)
  {
    if Productive(s, e) {
      match e
      case Dequeue(now) => ClaimLowersWork(base, s, now);
      case Dispatch => HeldIsRunning(s);
      case _ => OutcomeLowersWork(base, s, e);
    } else if e.Dequeue? {
      DequeueIsRotation(s.mem, e.now);
    }
  }

  ghost function ProductiveSteps(base: nat, s: State, evs: seq<Event>): nat {
    if evs == [] then 0
    else
      var n := |evs| - 1;
      ProductiveSteps(base, s, evs[..n]) + if Productive(After(base, s, evs[..n]), evs[n]) then 1 else 0
  }

  /** With no new jobs and no crashes the worker can act only finitely often,
      whatever the handlers answer and however often it is stopped and started. */
  lemma {:induction false} WorkIsFinite(base: nat, s: State, evs: seq<Event>)
    requires Inv(s) && forall e :: e in evs ==> !e.Enqueue? && !e.Crash?
    ensures WorkLeft(After(base, s, evs)) + ProductiveSteps(base, s, evs) <= WorkLeft(s)
  {
    if evs != [] {
      var n := |evs| - 1;
      assert evs[n] in evs;
      WorkIsFinite(base, s, evs[..n]);
      AfterKeepsInv(base, s, evs[..n]);
      StepLowersWork(base, After(base, s, evs[..n]), evs[n]);
    }
  }

  // ---- Late asks drain the queue ----

  /** Everything is done except the jobs that lost their worker. */
  ghost predicate Drained(s: State) {
    forall id :: id in s.mem.jobs ==> IsTerminal(s.mem.jobs[id]) || id in s.orphans
  }

  ghost predicate PastAllDeadlines(s: State, now: real) {
    forall id :: IsQueued(s.mem.jobs, id) ==> s.mem.jobs[id].runAfter <= now
  }

  /** The worker asks for a job when every backoff has run out. */
  ghost predicate LateAsk(s: State, e: Event) {
    e.Dequeue? && s.worker.Idle? && PastAllDeadlines(s, e.now)
  }

  ghost function LateAsks(base: nat, s: State, evs: seq<Event>): nat {
    if evs == [] then 0
    else
      var n := |evs| - 1;
      LateAsks(base, s, evs[..n]) + if LateAsk(After(base, s, evs[..n]), evs[n]) then 1 else 0
  }

  lemma LateAskWorks(s: State, e: Event)
    requires Inv(s) && LateAsk(s, e)
    ensures Productive(s, e) || Drained(s)
  {
    if !Productive(s, e) {
      DequeueIsRotation(s.mem, e.now);
      assert FirstReady(s.mem.jobs, s.mem.queue, e.now) == |s.mem.queue|;
      forall id | id in s.mem.jobs ensures IsTerminal(s.mem.jobs[id]) || id in s.orphans {
        if IsQueued(s.mem.jobs, id) {
          assert id in s.mem.queue;
          assert Ready(s.mem.jobs, id, e.now);
        }
        assert IsRunning(s.mem.jobs, id) <==> (s.worker.Holds(id) || id in s.orphans);
      }
    }
  }

  lemma SomeIdIsBusy(s: State)
    requires s.worker.HasJob() || s.mem.queue != []
    ensures exists id :: s.worker.Holds(id) || id in s.mem.queue
  {
    if s.worker.HasJob() {
      assert s.worker.Holds(s.worker.id);
    } else {
      assert s.mem.queue[0] in s.mem.queue;
    }
  }

  lemma DrainedMeansIdle(s: State)
    requires Inv(s) && Drained(s)
    ensures !s.worker.HasJob() && s.mem.queue == []
  {
    forall id ensures !s.worker.Holds(id) && id !in s.mem.queue {
      assert id in s.mem.queue <==> IsQueued(s.mem.jobs, id);
      assert IsRunning(s.mem.jobs, id) <==> (s.worker.Holds(id) || id in s.orphans);
    }
    if s.worker.HasJob() || s.mem.queue != [] { SomeIdIsBusy(s); }
  }

  /** Only a new job or a reload gives a drained queue something to do. */
  lemma DrainedStays(base: nat, s: State, e: Event)
    requires Inv(s) && Drained(s) && !e.Enqueue? && !e.Crash?
    ensures Drained(Step(base, s, e)) && Step(base, s, e).mem == s.mem
  {
    DrainedMeansIdle(s);
  }

  lemma {:induction false} LateAsksWork(base: nat, s: State, evs: seq<Event>)
    requires Inv(s) && forall e :: e in evs ==> !e.Enqueue? && !e.Crash?
    ensures var t := After(base, s, evs);
            Drained(t) || WorkLeft(t) + LateAsks(base, s, evs) <= WorkLeft(s)
  {
    if evs != [] {
      var n := |evs| - 1;
      assert evs[n] in evs;
      LateAsksWork(base, s, evs[..n]);
      AfterKeepsInv(base, s, evs[..n]);
      var t := After(base, s, evs[..n]);
      if Drained(t) {
        DrainedStays(base, t, evs[n]);
      } else {
        if LateAsk(t, evs[n]) { LateAskWorks(t, evs[n]); }
        StepLowersWork(base, t, evs[n]);
      }
    }
  }

  /** From any reachable state, in every run without new jobs and crashes -- idle
      polls, asks before a backoff has run out, stops, starts and registrations
      included -- all jobs are finished, orphans excepted, as soon as more asks
      have come after every deadline than there was work left. */
  lemma {:induction false} LateAsksDrain(base: nat, clock: real, before: seq<Event>, evs: seq<Event>)
    requires forall e :: e in evs ==> !e.Enqueue? && !e.Crash?
    requires LateAsks(base, Run(base, clock, before), evs) > WorkLeft(Run(base, clock, before))
    ensures Drained(After(base, Run(base, clock, before), evs))
  {
    RunKeepsInv(base, clock, before);
    LateAsksWork(base, Run(base, clock, before), evs);
  }
}
