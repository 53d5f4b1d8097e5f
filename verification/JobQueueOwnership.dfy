/** Every enqueued job is in exactly one place, the saved snapshot always equals
    memory, and reloading after a crash at any point recovers exactly it. */
module JobQueueOwnership {
  import opened Prelude
  import opened JobQueueSpec

  // ---- The invariant ----

  ghost predicate QueueExact(m: Snapshot) {
    && NoDup(m.queue)
    && forall id :: id in m.queue <==> IsQueued(m.jobs, id)
  }

  ghost predicate RunningExact(s: State) {
    && (forall id :: IsRunning(s.mem.jobs, id) <==> (s.worker.Holds(id) || id in s.orphans))
    && (forall id :: !(s.worker.Holds(id) && id in s.orphans))
  }

  ghost predicate AttemptsExact(jobs: map<JobId, Job>) {
    forall id :: id in jobs ==>
      var j := jobs[id];
      && j.attempts <= j.maxRetries + 1
      && (j.status.Failed? <==> j.attempts == j.maxRetries + 1)
  }

  ghost predicate Inv(s: State) {
    && QueueExact(s.mem)
    && RunningExact(s)
    && AttemptsExact(s.mem.jobs)
    && s.saved == s.mem
  }

  lemma HeldIsRunning(s: State)
    requires Inv(s)
    ensures s.worker.HasJob() ==> IsRunning(s.mem.jobs, s.worker.id)
  {
    if s.worker.HasJob() {
      assert s.worker.Holds(s.worker.id);
    }
  }

  // ---- Queue facts ----

  lemma {:induction false} StillQueuedKeepsAll(jobs: map<JobId, Job>, q: seq<JobId>)
    requires forall id :: id in q ==> IsQueued(jobs, id)
    ensures StillQueued(jobs, q) == q
  {
    if q != [] {
      var n := |q| - 1;
      assert q == q[..n] + [q[n]];
      StillQueuedKeepsAll(jobs, q[..n]);
    }
  }

  lemma {:induction false} StillQueuedKeepsCounts(jobs: map<JobId, Job>, q: seq<JobId>, id: JobId)
    requires IsQueued(jobs, id)
    ensures multiset(StillQueued(jobs, q))[id] == multiset(q)[id]
  {
    if q != [] {
      var n := |q| - 1;
      assert q == q[..n] + [q[n]];
      StillQueuedKeepsCounts(jobs, q[..n], id);
    }
  }

  lemma CountsAround(q: seq<JobId>, k: nat, id: JobId)
    requires k < |q|
    ensures multiset(q)[id] == multiset(q[..k])[id] + (if q[k] == id then 1 else 0) + multiset(q[k+1..])[id]
  {
    assert q == q[..k] + [q[k]] + q[k+1..];
  }

  /** The dequeue loop against its meaning, for any memory whatever: it finds the
      first ready id in queue order, finds none exactly when there is none, and
      drops or repeats no other waiting id. */
  lemma DequeueTakesFirstReady(m: Snapshot, now: real, waiting: JobId)
    ensures var (pick, m') := Dequeued(m, now);
            && (pick == None <==> forall id :: id in m.queue ==> !Ready(m.jobs, id, now))
            && (pick.Some? ==>
                  exists k :: && 0 <= k < |m.queue| && m.queue[k] == pick.value && Ready(m.jobs, pick.value, now)
                              && forall i :: 0 <= i < k ==> !Ready(m.jobs, m.queue[i], now))
            && (IsQueued(m.jobs, waiting) ==>
                  multiset(m'.queue)[waiting] + (if pick == Some(waiting) then 1 else 0) == multiset(m.queue)[waiting])
  {
    var q := m.queue;
    var k := FirstReady(m.jobs, q, now);
    if k == |q| {
      if IsQueued(m.jobs, waiting) { StillQueuedKeepsCounts(m.jobs, q, waiting); }
    } else {
      assert q[k] in q;
      if IsQueued(m.jobs, waiting) {
        StillQueuedKeepsCounts(m.jobs, q[..k], waiting);
        CountsAround(q, k, waiting);
      }
    }
  }

  /** With an exact queue a dequeue is a rotation without its picked element. */
  lemma DequeueIsRotation(m: Snapshot, now: real)
    requires QueueExact(m)
    ensures var k := FirstReady(m.jobs, m.queue, now);
            var (pick, m') := Dequeued(m, now);
            if k == |m.queue| then pick == None && m' == m
            else pick == Some(m.queue[k]) && m'.queue == m.queue[k+1..] + m.queue[..k]
  {
    var k := FirstReady(m.jobs, m.queue, now);
    StillQueuedKeepsAll(m.jobs, m.queue[..k]);
    assert m.queue[..|m.queue|] == m.queue;
  }

  lemma RotationIsExact(q: seq<JobId>, k: nat)
    requires NoDup(q) && k < |q|
    ensures var r := q[k+1..] + q[..k];
            NoDup(r) && forall id :: id in r <==> id in q && id != q[k]
  {
    var r := q[k+1..] + q[..k];
    forall i, j | 0 <= i < j < |r| ensures r[i] != r[j] {
      var a := if i < |q| - k - 1 then i + k + 1 else i - (|q| - k - 1);
      var b := if j < |q| - k - 1 then j + k + 1 else j - (|q| - k - 1);
      assert r[i] == q[a] && r[j] == q[b];
    }
    forall id | id in q && id != q[k] ensures id in r {
      var a :| 0 <= a < |q| && q[a] == id;
      if a < k { assert r[|q| - k - 1 + a] == id; } else { assert r[a - k - 1] == id; }
    }
    forall id | id in r ensures id in q && id != q[k] {
      var i :| 0 <= i < |r| && r[i] == id;
      var a := if i < |q| - k - 1 then i + k + 1 else i - (|q| - k - 1);
      assert r[i] == q[a];
    }
  }

  lemma AppendIsExact(q: seq<JobId>, id: JobId)
    requires NoDup(q) && id !in q
    ensures NoDup(q + [id])
  {
    var r := q + [id];
    forall i, j | 0 <= i < j < |r| ensures r[i] != r[j] {
      assert r[i] == q[i];
    }
  }

  // ---- Preservation, block by block ----

  lemma EnqueueKeepsInv(base: nat, s: State, e: Event)
    requires Inv(s) && e.Enqueue?
    ensures Inv(Step(base, s, e))
  {
    if e.id !in s.mem.jobs {
      AppendIsExact(s.mem.queue, e.id);
      var t := Step(base, s, e);
      forall id ensures id in t.mem.queue <==> IsQueued(t.mem.jobs, id) {}
      forall id ensures IsRunning(t.mem.jobs, id) <==> (t.worker.Holds(id) || id in t.orphans) {}
    }
  }

  lemma ClaimKeepsQueueExact(m: Snapshot, now: real, k: nat)
    requires QueueExact(m) && k < |m.queue|
    ensures var id := m.queue[k];
            id in m.jobs && QueueExact(Snapshot(m.jobs[id := Claimed(m.jobs[id], now)], m.queue[k+1..] + m.queue[..k]))
  {
    var id := m.queue[k];
    assert IsQueued(m.jobs, id);
    RotationIsExact(m.queue, k);
    var jobs := m.jobs[id := Claimed(m.jobs[id], now)];
    forall x ensures IsQueued(jobs, x) <==> IsQueued(m.jobs, x) && x != id {}
  }

  lemma DequeueKeepsInv(base: nat, s: State, now: real)
    requires Inv(s)
    ensures Inv(Step(base, s, Dequeue(now)))
  {
    if s.worker.Idle? {
      DequeueIsRotation(s.mem, now);
      var k := FirstReady(s.mem.jobs, s.mem.queue, now);
      if k < |s.mem.queue| {
        ClaimKeepsQueueExact(s.mem, now, k);
        var id := s.mem.queue[k];
        var t := Step(base, s, Dequeue(now));
        assert t.mem.jobs == s.mem.jobs[id := Claimed(s.mem.jobs[id], now)] && t.worker == Fetched(id);
        assert RunningExact(t) by {
          forall x ensures IsRunning(t.mem.jobs, x) <==> IsRunning(s.mem.jobs, x) || x == id {}
          assert !IsRunning(s.mem.jobs, id);
        }
      }
    }
  }

  /** What both outcomes of a handler do to the job the worker holds. */
  lemma SettleKeepsInv(s: State, id: JobId, j: Job, q: seq<JobId>, clock: real)
    requires Inv(s) && s.worker.Holds(id) && id in s.mem.jobs
    requires j.attempts <= j.maxRetries + 1 && (j.status.Failed? <==> j.attempts == j.maxRetries + 1)
    requires j.status.Queued? || IsTerminal(j)
    requires q == if j.status.Queued? then s.mem.queue + [id] else s.mem.queue
    ensures var m := Snapshot(s.mem.jobs[id := j], q);
            Inv(s.(mem := m, saved := m, clock := clock, worker := Idle))
  {
    var m := Snapshot(s.mem.jobs[id := j], q);
    assert IsRunning(s.mem.jobs, id);
    assert id !in s.mem.queue;
    AppendIsExact(s.mem.queue, id);
    forall x ensures x in m.queue <==> IsQueued(m.jobs, x) {}
  }

  lemma OutcomeKeepsInv(base: nat, s: State, e: Event)
    requires Inv(s) && (e.Succeed? || e.Fail? || e.Reject?)
    ensures Inv(Step(base, s, e))
  {
    var applies := if e.Reject? then s.worker.Rejected? else s.worker.Executing?;
    if applies {
      var id := s.worker.id;
      assert s.worker.Holds(id);
      assert IsRunning(s.mem.jobs, id);
      var j := s.mem.jobs[id];
      match e
      case Succeed(result, now) =>
        SettleKeepsInv(s, id, Finished(j, result, now), s.mem.queue, now);
      case Fail(error, now, later) =>
        var q := if HasRetryLeft(j) then s.mem.queue + [id] else s.mem.queue;
        SettleKeepsInv(s, id, Attempted(base, j, error, now, later), q, later);
      case Reject(now, later) =>
        var q := if HasRetryLeft(j) then s.mem.queue + [id] else s.mem.queue;
        SettleKeepsInv(s, id, Attempted(base, j, NoHandlerError(j.jobType), now, later), q, later);
    }
  }

  lemma ReloadKeepsNoDup(m: Snapshot)
    requires NoDup(m.queue)
    ensures NoDup(Reloaded(m).queue)
  {
    var n, tail, q := |m.queue|, Ascending(Missing(m)), Reloaded(m).queue;
    AscendingIsSorted(Missing(m));
    forall i, k | 0 <= i < k < |q| ensures q[i] != q[k] {
      if i < n <= k {
        assert q[k] == tail[k - n] && q[k] in Missing(m) && q[i] in m.queue;
      } else if n <= i {
        assert q[i] == tail[i - n] && q[k] == tail[k - n];
      }
    }
  }

  lemma ReloadKeepsInv(m: Snapshot, clock: real)
    requires QueueExact(m) && AttemptsExact(m.jobs)
    ensures Inv(Boot(m, clock))
    ensures Missing(m) == set id | id in m.jobs && IsRunning(m.jobs, id)
  {
    assert Missing(m) == set id | id in m.jobs && IsRunning(m.jobs, id);
    var r := Reloaded(m);
    ReloadKeepsNoDup(m);
    forall id ensures id in r.queue <==> IsQueued(r.jobs, id) {
      assert id in r.queue <==> id in m.queue || id in Ascending(Missing(m));
    }
  }

  lemma StepKeepsInv(base: nat, s: State, e: Event)
    requires Inv(s)
    ensures Inv(Step(base, s, e))
  {
    match e
    case Enqueue(_, _, _, _, _) => EnqueueKeepsInv(base, s, e);
    case Dequeue(now) => DequeueKeepsInv(base, s, now);
    case Succeed(_, _) => OutcomeKeepsInv(base, s, e);
    case Fail(_, _, _) => OutcomeKeepsInv(base, s, e);
    case Reject(_, _) => OutcomeKeepsInv(base, s, e);
    case Crash => ReloadKeepsInv(s.saved, s.clock);
    case _ =>
  }

  lemma {:induction false} AfterKeepsInv(base: nat, s: State, evs: seq<Event>)
    requires Inv(s)
    ensures Inv(After(base, s, evs))
  {
    if evs != [] {
      AfterKeepsInv(base, s, evs[..|evs|-1]);
      StepKeepsInv(base, After(base, s, evs[..|evs|-1]), evs[|evs|-1]);
    }
  }

  lemma {:induction false} RunKeepsInv(base: nat, clock: real, evs: seq<Event>)
    ensures Inv(Run(base, clock, evs))
  {
    ReloadKeepsInv(EMPTY, clock);
    AfterKeepsInv(base, Boot(EMPTY, clock), evs);
  }

  // ---- Ownership over every run ----

  lemma NoDupCountsOnce(q: seq<JobId>, id: JobId)
    requires NoDup(q)
    ensures multiset(q)[id] == if id in q then 1 else 0
  {
    if id in q {
      var i :| 0 <= i < |q| && q[i] == id;
      assert q == q[..i] + [id] + q[i+1..];
      assert id !in q[..i] && id !in q[i+1..];
      assert multiset(q) == multiset(q[..i]) + multiset([id]) + multiset(q[i+1..]);
    }
  }

  /** In every reachable state a known job sits in exactly one place: once in
      the queue, with the worker, among the jobs a stop orphaned, or done; and
      the queue holds nothing but known ids. */
  lemma {:induction false} EachJobInOnePlace(base: nat, clock: real, evs: seq<Event>, id: JobId)
    ensures var s := Run(base, clock, evs);
            && multiset(s.mem.queue)[id] == (if IsQueued(s.mem.jobs, id) then 1 else 0)
            && (IsRunning(s.mem.jobs, id) <==> (s.worker.Holds(id) != (id in s.orphans)))
            && (s.worker.Holds(id) || id in s.orphans || id in s.mem.queue
                <==> id in s.mem.jobs && !IsTerminal(s.mem.jobs[id]))
  {
    RunKeepsInv(base, clock, evs);
    var s := Run(base, clock, evs);
    NoDupCountsOnce(s.mem.queue, id);
    assert id in s.mem.queue <==> IsQueued(s.mem.jobs, id);
    assert IsRunning(s.mem.jobs, id) <==> (s.worker.Holds(id) || id in s.orphans);
  }

  /** `_mark_failed_or_retry` has no guard on the status: called outside the
      worker protocol it keeps the queue free of duplicates exactly when the job
      is not already queued or has no retry left. */
  lemma UnguardedRetryDuplicates(base: nat, m: Snapshot, id: JobId, error: string, now: real, later: real)
    requires NoDup(m.queue) && id in m.jobs
    ensures NoDup(MarkedFailed(base, m, id, error, now, later).queue)
            <==> !(id in m.queue && HasRetryLeft(m.jobs[id]))
  {
    var q := MarkedFailed(base, m, id, error, now, later).queue;
    if HasRetryLeft(m.jobs[id]) {
      if id in m.queue {
        var i :| 0 <= i < |m.queue| && m.queue[i] == id;
        assert q[i] == q[|m.queue|];
      } else {
        AppendIsExact(m.queue, id);
      }
    }
  }

  lemma RunStep(base: nat, clock: real, evs: seq<Event>, e: Event)
    ensures Run(base, clock, evs + [e]) == Step(base, Run(base, clock, evs), e)
  {
    assert (evs + [e])[..|evs|] == evs;
  }

  lemma BootEmpty(base: nat, clock: real)
    ensures Run(base, clock, []) == State(EMPTY, EMPTY, {}, Off, {}, clock)
  {
    assert Missing(EMPTY) == {};
    assert Reloaded(EMPTY) == EMPTY;
  }

  /** Such a state is reached at once: any waiting job that may be retried is
      queued twice by a failure reported for it. */
  lemma UnguardedRetryWitness(base: nat, clock: real, id: JobId, jobType: string, payload: Json, retries: int,
      error: string, now: real, later: real)
    requires retries >= 1
    ensures var s := Run(base, clock, [Enqueue(id, jobType, payload, retries, now)]);
            MarkedFailed(base, s.mem, id, error, now, later).queue == [id, id]
  {
    BootEmpty(base, clock);
    RunStep(base, clock, [], Enqueue(id, jobType, payload, retries, now));
    assert [] + [Enqueue(id, jobType, payload, retries, now)] == [Enqueue(id, jobType, payload, retries, now)];
  }

  // ---- Crash recovery ----

  /** Reloading is a projection. */
  lemma ReloadTwiceIsOnce(m: Snapshot)
    ensures Reloaded(Reloaded(m)) == Reloaded(m)
  {
    var r := Reloaded(m);
    forall id | id in m.jobs && IsQueued(r.jobs, id) ensures id in r.queue {
      if id !in m.queue {
        assert id in Missing(m);
        assert id in Ascending(Missing(m));
      }
    }
    assert Missing(r) == {};
    assert Reloaded(r).jobs == r.jobs;
  }

  lemma ReloadRecovers(m: Snapshot)
    requires QueueExact(m)
    ensures var r := Reloaded(m);
            var running := set id | id in m.jobs && IsRunning(m.jobs, id);
            && r.jobs.Keys == m.jobs.Keys
            && (forall id :: id in m.jobs ==>
                  r.jobs[id] == if IsTerminal(m.jobs[id]) then m.jobs[id] else m.jobs[id].(status := Queued))
            && r.queue == m.queue + Ascending(running)
            && Sorted(Ascending(running))
  {
    assert Missing(m) == set id | id in m.jobs && IsRunning(m.jobs, id);
    AscendingIsSorted(Missing(m));
  }

  /** Until its save a block changes memory only, so a crash inside it is a crash
      before it. */
  lemma CrashInsideBlock(base: nat, s: State, during: Event)
    requires during != Crash
    ensures Step(base, Mutate(base, s, during), Crash).mem == Step(base, s, Crash).mem
  {
    assert Mutate(base, s, during).saved == s.saved;
  }

  /** A crash at any instant of any run -- between two blocks, or inside a block
      before its save -- restarts from the memory of the last finished block:
      terminal jobs untouched, every other job queued with its attempts and
      backoff kept, and the interrupted ones appended in id order. */
  lemma {:induction false} CrashRecoversExactly(base: nat, clock: real, evs: seq<Event>, during: Event)
    ensures var s := Run(base, clock, evs);
            var midBlock := Mutate(base, s, during);
            var r := Step(base, s, Crash);
            var running := set id | id in s.mem.jobs && IsRunning(s.mem.jobs, id);
            && s.saved == s.mem
            && (during != Crash ==> Step(base, midBlock, Crash).mem == r.mem)
            && r.mem.jobs.Keys == s.mem.jobs.Keys
            && (forall id :: id in s.mem.jobs ==>
                  var j := s.mem.jobs[id];
                  r.mem.jobs[id] == if IsTerminal(j) then j else j.(status := Queued))
            && r.mem.queue == s.mem.queue + Ascending(running)
            && Sorted(Ascending(running))
            && r.saved == r.mem
            && Step(base, r, Crash) == r
  {
    RunKeepsInv(base, clock, evs);
    var s := Run(base, clock, evs);
    ReloadRecovers(s.mem);
    ReloadTwiceIsOnce(s.saved);
    if during != Crash { CrashInsideBlock(base, s, during); }
  }
}
