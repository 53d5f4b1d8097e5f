/** The worker's polling loop run without end: every job ends although others go on
    arriving, and without arrivals the queue drains. */
module JobQueueLiveness {
  import opened Prelude
  import opened JobQueueSpec
  import opened JobQueueOwnership
  import opened JobQueueHistory
  import opened JobQueueProgress

  datatype Answer = Returns(result: Json) | Raises(error: string)

  /** What the surroundings contribute to one stretch of the worker loop: two
      readings of the clock, the handler's answer if one is awaited, and what
      arrives before the next stretch. */
  datatype Pass = Pass(now: real, later: real, answer: Answer, arrivals: seq<Event>)

  type World = nat -> Pass

  /** What the loop does next, whether or not anything is ready. */
  function LoopEvent(s: State, w: Pass): Event {
    match s.worker
    case Fetched(_) => Dispatch
    case Executing(_) =>
      (match w.answer
       case Returns(result) => Succeed(result, w.now)
       case Raises(error) => Fail(error, w.now, w.later))
    case Rejected(_) => Reject(w.now, w.later)
    case _ => Dequeue(w.now)
  }

  function LoopNext(base: nat, s: State, w: Pass): State {
    After(base, Step(base, s, LoopEvent(s, w)), w.arrivals)
  }

  function LoopAfter(base: nat, s: State, world: World, i: nat, n: nat): State
    decreases n
  {
    if n == 0 then s else LoopAfter(base, LoopNext(base, s, world(i)), world, i + 1, n - 1)
  }

  predicate Looping(s: State) {
    s.worker.Idle? || s.worker.HasJob()
  }

  /** Jobs and handlers may arrive at any moment; the worker itself is left alone. */
  predicate IsArrival(e: Event) {
    e.Enqueue? || e.Register?
  }

  ghost predicate OnlyArrivals(world: World) {
    forall i: nat, e :: e in world(i).arrivals ==> IsArrival(e)
  }

  // ---- Every job ends, whatever else is enqueued ----

  lemma {:induction false} ArrivalsKeep(base: nat, s: State, evs: seq<Event>)
    requires Inv(s) && forall e :: e in evs ==> IsArrival(e)
    ensures var t := After(base, s, evs);
            && Inv(t) && t.worker == s.worker && t.orphans == s.orphans
            && s.mem.queue <= t.mem.queue
            && (forall id :: id in s.mem.jobs ==> id in t.mem.jobs && t.mem.jobs[id] == s.mem.jobs[id])
  {
    if evs != [] {
      var n := |evs| - 1;
      assert evs[n] in evs;
      ArrivalsKeep(base, s, evs[..n]);
      StepKeepsInv(base, After(base, s, evs[..n]), evs[n]);
    }
  }

  /** How far the worker is from asking again. */
  function Phase(s: State): nat {
    if s.worker.Fetched? then 2 else if s.worker.HasJob() then 1 else 0
  }

  lemma LoopKeeps(base: nat, s: State, w: Pass)
    requires Inv(s) && Looping(s) && forall e :: e in w.arrivals ==> IsArrival(e)
    ensures var t := LoopNext(base, s, w);
            Inv(t) && Looping(t) && t.orphans == s.orphans
  {
    var e := LoopEvent(s, w);
    StepKeepsInv(base, s, e);
    ArrivalsKeep(base, Step(base, s, e), w.arrivals);
  }

  lemma HeldStep(base: nat, s: State, w: Pass, id: JobId)
    requires Inv(s) && s.worker.Holds(id)
    ensures var t := Step(base, s, LoopEvent(s, w));
            && id in s.mem.jobs && id in t.mem.jobs
            && (Weight(t.mem.jobs[id]) < Weight(s.mem.jobs[id])
                || (t.mem == s.mem && t.worker.Holds(id) && Phase(t) < Phase(s)))
  {
    HeldIsRunning(s);
    var e := LoopEvent(s, w);
    var j := s.mem.jobs[id];
    if !e.Dispatch? {
      var result := if e.Succeed? then e.result else "";
      var error := if e.Fail? then e.error else NoHandlerError(j.jobType);
      WeightFalls(base, j, error, result, w.now, w.later);
      StepEntry(base, s, e, id);
      assert Entry(Step(base, s, e).mem.jobs, id) == EntryAfter(base, s, e, id);
    }
  }

  lemma HeldPass(base: nat, s: State, w: Pass, id: JobId)
    requires Inv(s) && s.worker.Holds(id) && forall e :: e in w.arrivals ==> IsArrival(e)
    ensures var t := LoopNext(base, s, w);
            && id in s.mem.jobs && id in t.mem.jobs
            && (Weight(t.mem.jobs[id]) < Weight(s.mem.jobs[id])
                || (t.mem.jobs[id] == s.mem.jobs[id] && t.worker.Holds(id) && Phase(t) < Phase(s)))
  {
    var e := LoopEvent(s, w);
    HeldStep(base, s, w, id);
    StepKeepsInv(base, s, e);
    ArrivalsKeep(base, Step(base, s, e), w.arrivals);
  }

  /** A queued job is claimed by the pass or stays as it is. */
  lemma QueuedStep(base: nat, s: State, e: Event, id: JobId)
    requires Inv(s) && IsQueued(s.mem.jobs, id) && !e.Enqueue? && !e.Crash?
    ensures var t := Step(base, s, e);
            && id in t.mem.jobs
            && (if Happens(Picking, s, e, id) then Weight(t.mem.jobs[id]) < Weight(s.mem.jobs[id])
                else t.mem.jobs[id] == s.mem.jobs[id])
  {
    HeldIsRunning(s);
    var j := s.mem.jobs[id];
    if e.Dequeue? { WeightFalls(base, j, "", "", e.now, e.now); }
    StepEntry(base, s, e, id);
    assert Entry(Step(base, s, e).mem.jobs, id) == EntryAfter(base, s, e, id);
  }

  lemma QueuedPass(base: nat, s: State, w: Pass, id: JobId)
    requires Inv(s) && Looping(s) && IsQueued(s.mem.jobs, id) && forall e :: e in w.arrivals ==> IsArrival(e)
    ensures var t := LoopNext(base, s, w);
            && id in t.mem.jobs
            && (Weight(t.mem.jobs[id]) < Weight(s.mem.jobs[id]) || t.mem.jobs[id] == s.mem.jobs[id])
  {
    var e := LoopEvent(s, w);
    QueuedStep(base, s, e, id);
    StepKeepsInv(base, s, e);
    ArrivalsKeep(base, Step(base, s, e), w.arrivals);
  }

  /** A ready job is claimed by the pass or has less in front of it afterwards. */
  lemma ReadyPass(base: nat, s: State, w: Pass, id: JobId, p: nat, at: real) returns (p': nat)
    requires Inv(s) && Looping(s) && WaitsAt(s, id, p, at) && at <= w.now
    requires forall e :: e in w.arrivals ==> IsArrival(e)
    ensures var t := LoopNext(base, s, w);
            && id in t.mem.jobs
            && (Weight(t.mem.jobs[id]) < Weight(s.mem.jobs[id])
                || (&& WaitsAt(t, id, p', at) && t.mem.jobs[id] == s.mem.jobs[id]
                    && (p' < p || (p' == p && Phase(t) < Phase(s)))))
  {
    p' := p;
    var e := LoopEvent(s, w);
    QueuedStep(base, s, e, id);
    StepKeepsInv(base, s, e);
    ArrivalsKeep(base, Step(base, s, e), w.arrivals);
    if !Happens(Picking, s, e, id) {
      p' := StepMovesForward(base, s, e, id, p, at);
    }
  }

  ghost predicate Beyond(world: World, j: nat, r: real) {
    forall k: nat :: j <= k ==> r <= world(k).now
  }

  ghost predicate Passed(world: World, r: real) {
    exists j: nat :: Beyond(world, j, r)
  }

  /** The clock leaves every instant behind for good; it may still step back. */
  ghost predicate TimeGoesOn(world: World) {
    forall r: real :: Passed(world, r)
  }

  ghost predicate Ended(s: State, id: JobId) {
    id in s.mem.jobs && IsTerminal(s.mem.jobs[id])
  }

  /** A known job of a running loop, with or without its worker. */
  ghost predicate Pending(s: State, id: JobId) {
    Inv(s) && Looping(s) && id in s.mem.jobs && id !in s.orphans
  }

  lemma PositionOf(s: State, id: JobId) returns (p: nat)
    requires Inv(s) && IsQueued(s.mem.jobs, id)
    ensures WaitsAt(s, id, p, s.mem.jobs[id].runAfter)
  {
    assert id in s.mem.queue;
    p :| p < |s.mem.queue| && s.mem.queue[p] == id;
  }

  lemma {:induction false} HeldJobEnds(base: nat, s: State, world: World, i: nat, id: JobId) returns (n: nat)
    requires OnlyArrivals(world) && TimeGoesOn(world) && Pending(s, id) && s.worker.Holds(id)
    ensures Ended(LoopAfter(base, s, world, i, n), id)
    decreases Weight(s.mem.jobs[id]), 0, Phase(s), 0
  {
    hide Inv, LoopNext, Weight;
    LoopKeeps(base, s, world(i));
    HeldPass(base, s, world(i), id);
    var t := LoopNext(base, s, world(i));
    var m;
    if Weight(t.mem.jobs[id]) < Weight(s.mem.jobs[id]) {
      m := JobEnds(base, t, world, i + 1, id);
    } else {
      m := HeldJobEnds(base, t, world, i + 1, id);
    }
    n := m + 1;
  }

  lemma {:induction false} ReadyJobEnds(base: nat, s: State, world: World, i: nat, id: JobId, p: nat, at: real)
    returns (n: nat)
    requires OnlyArrivals(world) && TimeGoesOn(world) && Pending(s, id)
    requires WaitsAt(s, id, p, at) && Beyond(world, i, at)
    ensures Ended(LoopAfter(base, s, world, i, n), id)
    decreases Weight(s.mem.jobs[id]), 1, p, Phase(s)
  {
    hide Inv, LoopNext, Weight;
    LoopKeeps(base, s, world(i));
    var p' := ReadyPass(base, s, world(i), id, p, at);
    var t := LoopNext(base, s, world(i));
    var m;
    if Weight(t.mem.jobs[id]) < Weight(s.mem.jobs[id]) {
      m := JobEnds(base, t, world, i + 1, id);
    } else {
      m := ReadyJobEnds(base, t, world, i + 1, id, p', at);
    }
    n := m + 1;
  }

  lemma {:induction false} QueuedJobEnds(base: nat, s: State, world: World, i: nat, id: JobId, j: nat) returns (n: nat)
    requires OnlyArrivals(world) && TimeGoesOn(world) && Pending(s, id)
    requires IsQueued(s.mem.jobs, id) && Beyond(world, j, s.mem.jobs[id].runAfter)
    ensures Ended(LoopAfter(base, s, world, i, n), id)
    decreases Weight(s.mem.jobs[id]), 2, if i < j then j - i else 0, 0
  {
    hide Inv, LoopNext, Weight;
    if j <= i {
      var p := PositionOf(s, id);
      n := ReadyJobEnds(base, s, world, i, id, p, s.mem.jobs[id].runAfter);
    } else {
      LoopKeeps(base, s, world(i));
      QueuedPass(base, s, world(i), id);
      var t := LoopNext(base, s, world(i));
      var m;
      if Weight(t.mem.jobs[id]) < Weight(s.mem.jobs[id]) {
        m := JobEnds(base, t, world, i + 1, id);
      } else {
        m := QueuedJobEnds(base, t, world, i + 1, id, j);
      }
      n := m + 1;
    }
  }

  lemma {:induction false} JobEnds(base: nat, s: State, world: World, i: nat, id: JobId) returns (n: nat)
    requires OnlyArrivals(world) && TimeGoesOn(world) && Pending(s, id)
    ensures Ended(LoopAfter(base, s, world, i, n), id)
    decreases Weight(s.mem.jobs[id]), 3, 0, 0
  {
    hide Weight, LoopNext;
    if IsQueued(s.mem.jobs, id) {
      assert Passed(world, s.mem.jobs[id].runAfter);
      var j: nat :| Beyond(world, j, s.mem.jobs[id].runAfter);
      n := QueuedJobEnds(base, s, world, i, id, j);
    } else if IsRunning(s.mem.jobs, id) {
      assert s.worker.Holds(id);
      n := HeldJobEnds(base, s, world, i, id);
    } else {
      n := 0;
    }
  }

  // ---- From any pass of any run ----

  lemma {:induction false} LoopAfterKeeps(base: nat, s: State, world: World, i: nat, n: nat)
    requires Inv(s) && Looping(s) && OnlyArrivals(world)
    ensures var t := LoopAfter(base, s, world, i, n);
            Inv(t) && Looping(t) && t.orphans == s.orphans
    decreases n
  {
    hide Inv, LoopNext;
    if n > 0 {
      LoopKeeps(base, s, world(i));
      LoopAfterKeeps(base, LoopNext(base, s, world(i)), world, i + 1, n - 1);
    }
  }

  lemma {:induction false} LoopSplits(base: nat, s: State, world: World, i: nat, k: nat, n: nat)
    ensures LoopAfter(base, s, world, i, k + n) == LoopAfter(base, LoopAfter(base, s, world, i, k), world, i + k, n)
    decreases k
  {
    hide LoopNext;
    if k > 0 {
      LoopSplits(base, LoopNext(base, s, world(i)), world, i + 1, k - 1, n);
    }
  }

  lemma EndedPass(base: nat, s: State, w: Pass, id: JobId)
    requires Inv(s) && Ended(s, id) && forall e :: e in w.arrivals ==> IsArrival(e)
    ensures var t := LoopNext(base, s, w);
            id in t.mem.jobs && t.mem.jobs[id] == s.mem.jobs[id]
  {
    hide Inv, LoopEvent;
    var e := LoopEvent(s, w);
    StepKeepsInv(base, s, e);
    StepKeepsJobs(base, s, e, id);
    ArrivalsKeep(base, Step(base, s, e), w.arrivals);
  }

  /** A finished job keeps its record. */
  lemma {:induction false} EndedStays(base: nat, s: State, world: World, i: nat, n: nat, id: JobId)
    requires Inv(s) && Looping(s) && OnlyArrivals(world) && Ended(s, id)
    ensures var t := LoopAfter(base, s, world, i, n);
            id in t.mem.jobs && t.mem.jobs[id] == s.mem.jobs[id]
    decreases n
  {
    hide Inv, LoopNext;
    if n > 0 {
      EndedPass(base, s, world(i), id);
      LoopKeeps(base, s, world(i));
      EndedStays(base, LoopNext(base, s, world(i)), world, i + 1, n - 1, id);
    }
  }

  /** From pass `n` on the job is finished, with one and the same record. */
  ghost predicate EndedFrom(base: nat, s: State, world: World, id: JobId, n: nat) {
    && Ended(LoopAfter(base, s, world, 0, n), id)
    && forall m: nat :: n <= m ==>
         var t := LoopAfter(base, s, world, 0, m);
         id in t.mem.jobs && t.mem.jobs[id] == LoopAfter(base, s, world, 0, n).mem.jobs[id]
  }

  /** From every reachable state with a worker, the polling loop as it is -- it
      asks again at once after a retry, and again and again while nothing is ready
      -- finishes every job that is there at any pass, now or enqueued later, and
      is not one of the orphans left from before: whatever jobs and handlers go on
      arriving without end, and whatever the handlers answer. */
  lemma {:induction false} EveryJobEnds(base: nat, clock: real, before: seq<Event>, world: World, k: nat, id: JobId)
    requires Looping(Run(base, clock, before)) && OnlyArrivals(world) && TimeGoesOn(world)
    requires id in LoopAfter(base, Run(base, clock, before), world, 0, k).mem.jobs
    requires id !in Run(base, clock, before).orphans
    ensures exists n: nat :: k <= n && EndedFrom(base, Run(base, clock, before), world, id, n)
  {
    hide Inv, LoopAfter, Run;
    var s := Run(base, clock, before);
    RunKeepsInv(base, clock, before);
    LoopAfterKeeps(base, s, world, 0, k);
    var n := JobEnds(base, LoopAfter(base, s, world, 0, k), world, k, id);
    LoopSplits(base, s, world, 0, k, n);
    LoopAfterKeeps(base, s, world, 0, k + n);
    var t := LoopAfter(base, s, world, 0, k + n);
    forall m: nat | k + n <= m
      ensures id in LoopAfter(base, s, world, 0, m).mem.jobs
      ensures LoopAfter(base, s, world, 0, m).mem.jobs[id] == t.mem.jobs[id]
    {
      LoopSplits(base, s, world, 0, k + n, m - k - n);
      EndedStays(base, t, world, k + n, m - k - n, id);
    }
    assert EndedFrom(base, s, world, id, k + n);
  }

  // ---- Without new jobs the queue drains ----

  /** A poll picks a job up or only reads the clock. */
  lemma PollStep(base: nat, s: State, now: real)
    requires Inv(s) && s.worker.Idle?
    ensures var t := Step(base, s, Dequeue(now));
            && Looping(t) && t.orphans == s.orphans
            && (Productive(s, Dequeue(now)) || t == s.(clock := now))
            && (PastAllDeadlines(s, now) ==> Productive(s, Dequeue(now)) || Drained(s))
  {
    DequeueIsRotation(s.mem, now);
    if PastAllDeadlines(s, now) { LateAskWorks(s, Dequeue(now)); }
  }

  lemma ActStep(base: nat, s: State, w: Pass)
    requires s.worker.HasJob()
    ensures var e := LoopEvent(s, w);
            var t := Step(base, s, e);
            Productive(s, e) && Looping(t) && t.orphans == s.orphans && !e.Enqueue? && !e.Crash?
  {
  }

  ghost predicate Reaches(world: World, i: nat, r: real) {
    exists j: nat :: i <= j && r <= world(j).now
  }

  /** The clock passes every instant; single readings may go backwards any time. */
  ghost predicate TimePasses(world: World) {
    forall i: nat, r: real :: Reaches(world, i, r)
  }

  ghost predicate NoNewJobs(world: World) {
    forall i: nat, e :: e in world(i).arrivals ==> e.Register?
  }

  lemma {:induction false} RegistersOnly(base: nat, s: State, evs: seq<Event>)
    requires forall e :: e in evs ==> e.Register?
    ensures After(base, s, evs) == s.(handlers := After(base, s, evs).handlers)
  {
    if evs != [] {
      assert evs[|evs|-1] in evs;
      RegistersOnly(base, s, evs[..|evs|-1]);
    }
  }

  lemma HandlersDoNotMatter(s: State, t: State)
    requires t == s.(handlers := t.handlers)
    ensures Inv(t) <==> Inv(s)
    ensures WorkLeft(t) == WorkLeft(s)
    ensures Drained(t) <==> Drained(s)
  {
  }

  /** A pass through the loop lowers the work left, or only reads the clock. */
  lemma LoopStep(base: nat, s: State, w: Pass)
    requires Inv(s) && Looping(s) && forall e :: e in w.arrivals ==> e.Register?
    ensures var t := LoopNext(base, s, w);
            && Inv(t) && Looping(t) && t.orphans == s.orphans
            && (Drained(s) ==> Drained(t))
            && (WorkLeft(t) < WorkLeft(s) || (t.mem == s.mem && t.worker.Idle? && s.worker.Idle?))
            && (s.worker.Idle? && PastAllDeadlines(s, w.now) ==> WorkLeft(t) < WorkLeft(s) || Drained(s))
  {
    hide Inv, Drained, WorkLeft, Step, Productive, PastAllDeadlines;
    var e := LoopEvent(s, w);
    if s.worker.Idle? { PollStep(base, s, w.now); } else { ActStep(base, s, w); }
    StepKeepsInv(base, s, e);
    StepLowersWork(base, s, e);
    if Drained(s) { DrainedStays(base, s, e); }
    RegistersOnly(base, Step(base, s, e), w.arrivals);
    HandlersDoNotMatter(Step(base, s, e), LoopNext(base, s, w));
  }

  lemma {:induction false} DeadlineBound(ids: set<JobId>, jobs: map<JobId, Job>) returns (r: real)
    requires ids <= jobs.Keys
    ensures forall id :: id in ids ==> jobs[id].runAfter <= r
    decreases |ids|
  {
    r := 0.0;
    if ids != {} {
      var id := Least(ids);
      r := DeadlineBound(ids - {id}, jobs);
      if r < jobs[id].runAfter { r := jobs[id].runAfter; }
    }
  }

  lemma SameWork(s: State, t: State)
    requires t.mem == s.mem && t.worker == s.worker
    ensures WorkLeft(t) == WorkLeft(s)
    ensures forall at :: PastAllDeadlines(s, at) ==> PastAllDeadlines(t, at)
  {
  }

  /** Polling until instant `j`, by when every present deadline has passed: each
      pass either does some of the work left or brings `j` nearer. */
  lemma {:induction false} LoopDrainsBy(base: nat, s: State, world: World, i: nat, j: nat) returns (n: nat)
    requires Inv(s) && Looping(s) && TimePasses(world) && NoNewJobs(world)
    requires i <= j && PastAllDeadlines(s, world(j).now)
    ensures Inv(LoopAfter(base, s, world, i, n)) && Drained(LoopAfter(base, s, world, i, n))
    decreases WorkLeft(s), j - i
  {
    hide WorkLeft, Drained, Inv, LoopNext;
    LoopStep(base, s, world(i));
    var t := LoopNext(base, s, world(i));
    if Drained(s) {
      n := 0;
    } else {
      var m;
      if WorkLeft(t) < WorkLeft(s) {
        m := LoopDrains(base, t, world, i + 1);
      } else {
        SameWork(s, t);
        m := LoopDrainsBy(base, t, world, i + 1, j);
      }
      n := m + 1;
    }
  }

  lemma {:induction false} LoopDrains(base: nat, s: State, world: World, i: nat) returns (n: nat)
    requires Inv(s) && Looping(s) && TimePasses(world) && NoNewJobs(world)
    ensures Inv(LoopAfter(base, s, world, i, n)) && Drained(LoopAfter(base, s, world, i, n))
    decreases WorkLeft(s)
  {
    var r := DeadlineBound(s.mem.jobs.Keys, s.mem.jobs);
    assert Reaches(world, i, r);
    var j: nat :| i <= j && r <= world(j).now;
    n := LoopDrainsBy(base, s, world, i, j);
  }

  lemma {:induction false} LoopStaysDrained(base: nat, s: State, world: World, i: nat, n: nat, m: nat)
    requires Inv(s) && Looping(s) && NoNewJobs(world) && n <= m && Drained(LoopAfter(base, s, world, i, n))
    ensures Drained(LoopAfter(base, s, world, i, m)) && LoopAfter(base, s, world, i, m).orphans == s.orphans
    decreases m
  {
    hide Drained, Inv, LoopNext, WorkLeft;
    if m > 0 {
      LoopStep(base, s, world(i));
      LoopStaysDrained(base, LoopNext(base, s, world(i)), world, i + 1, if n == 0 then 0 else n - 1, m - 1);
    }
  }

  /** From pass `n` on all jobs are finished, but for those orphaned at the start. */
  ghost predicate DrainedFrom(base: nat, s: State, world: World, n: nat) {
    forall m: nat :: n <= m ==>
      Drained(LoopAfter(base, s, world, 0, m)) && LoopAfter(base, s, world, 0, m).orphans == s.orphans
  }

  /** With no new jobs, and even if single clock readings go on stepping back, the
      loop finishes every job that is not orphaned within finitely many passes
      and leaves it so. */
  lemma {:induction false} PollingLoopDrains(base: nat, clock: real, before: seq<Event>, world: World)
    requires Looping(Run(base, clock, before)) && TimePasses(world) && NoNewJobs(world)
    ensures exists n: nat :: DrainedFrom(base, Run(base, clock, before), world, n)
  {
    var s := Run(base, clock, before);
    RunKeepsInv(base, clock, before);
    var n := LoopDrains(base, s, world, 0);
    forall m: nat | n <= m
      ensures Drained(LoopAfter(base, s, world, 0, m)) && LoopAfter(base, s, world, 0, m).orphans == s.orphans
    {
      LoopStaysDrained(base, s, world, 0, n, m);
    }
    assert DrainedFrom(base, s, world, n);
  }
}
