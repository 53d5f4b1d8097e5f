/** The job queue as the object it is: two fields changed in place, a vault entry
    rewritten after every change, and a worker split at its `await` points. */
module JobQueue {
  import opened Prelude
  import opened Vault
  import opened Storage
  import opened JobQueueSpec

  // ---- The dequeue loop ----

  /** The queue when the first `i` ids have been popped and none was ready. */
  ghost function Scanned(m: Snapshot, i: nat): seq<JobId>
    requires i <= |m.queue|
  {
    m.queue[i..] + StillQueued(m.jobs, m.queue[..i])
  }

  lemma ScanStart(m: Snapshot)
    ensures Scanned(m, 0) == m.queue
  {
  }

  lemma ScanOne(m: Snapshot, i: nat)
    requires i < |m.queue|
    ensures var q := Scanned(m, i);
            && |q| >= 1 && q[0] == m.queue[i]
            && q[1..] == m.queue[i+1..] + StillQueued(m.jobs, m.queue[..i])
            && Scanned(m, i + 1) == if IsQueued(m.jobs, m.queue[i]) then q[1..] + [m.queue[i]] else q[1..]
  {
    assert m.queue[..i+1][..i] == m.queue[..i] && m.queue[..i+1][i] == m.queue[i];
  }

  lemma {:induction false} FirstReadyIs(jobs: map<JobId, Job>, q: seq<JobId>, now: real, k: nat)
    requires k <= |q| && (forall j :: 0 <= j < k ==> !Ready(jobs, q[j], now)) && (k < |q| ==> Ready(jobs, q[k], now))
    ensures FirstReady(jobs, q, now) == k
  {
    if k > 0 { FirstReadyIs(jobs, q[1..], now, k - 1); }
  }

  lemma ScanStops(m: Snapshot, now: real, k: nat)
    requires k <= |m.queue| && (forall j :: 0 <= j < k ==> !Ready(m.jobs, m.queue[j], now))
    requires k < |m.queue| ==> Ready(m.jobs, m.queue[k], now)
    ensures Dequeued(m, now) ==
      if k == |m.queue| then (None, Snapshot(m.jobs, Scanned(m, k)))
      else (Some(m.queue[k]), Snapshot(m.jobs[m.queue[k] := Claimed(m.jobs[m.queue[k]], now)], Scanned(m, k)[1..]))
  {
    FirstReadyIs(m.jobs, m.queue, now, k);
    if k == |m.queue| {
      assert m.queue[..k] == m.queue;
      assert Scanned(m, k) == StillQueued(m.jobs, m.queue);
    } else {
      ScanOne(m, k);
    }
  }

  // ---- The load loop ----

  function Visited(m: Snapshot, id: JobId): Snapshot
    requires id in m.jobs
  {
    var jobs := m.jobs[id := Requeued(m.jobs[id])];
    Snapshot(jobs, if IsQueued(jobs, id) && id !in m.queue then m.queue + [id] else m.queue)
  }

  ghost function VisitAll(m: Snapshot, todo: set<JobId>): Snapshot
    requires todo <= m.jobs.Keys
    decreases |todo|
  {
    if todo == {} then m
    else VisitAll(Visited(m, Least(todo)), todo - {Least(todo)})
  }

  /** Requeueing the jobs of `todo` and nothing else. */
  ghost function PartlyRequeued(jobs: map<JobId, Job>, todo: set<JobId>): map<JobId, Job> {
    map id | id in jobs :: if id in todo then Requeued(jobs[id]) else jobs[id]
  }

  lemma VisitedIsNotMissing(m: Snapshot, id: JobId)
    requires id in m.jobs
    ensures Missing(Visited(m, id)) == Missing(m) - {id}
  {
    var v := Visited(m, id);
    forall x ensures x in Missing(v) <==> x in Missing(m) && x != id {
      assert x != id ==> (x in v.queue <==> x in m.queue);
    }
  }

  lemma AscendingFirst(q: seq<JobId>, s: set<JobId>, id: JobId)
    requires IsLeast(s, id)
    ensures (q + [id]) + Ascending(s - {id}) == q + Ascending(s)
  {
    assert Least(s) == id;
    assert Ascending(s) == [id] + Ascending(s - {id});
  }

  lemma VisitedQueue(m: Snapshot, id: JobId)
    requires id in m.jobs
    ensures Visited(m, id).queue == if id in Missing(m) then m.queue + [id] else m.queue
  {
  }

  lemma VisitShrinksMissing(m: Snapshot, todo: set<JobId>, id: JobId)
    requires todo <= m.jobs.Keys && IsLeast(todo, id)
    ensures Visited(m, id).queue + Ascending(Missing(Visited(m, id)) * (todo - {id}))
            == m.queue + Ascending(Missing(m) * todo)
  {
    var left := Missing(m) * todo;
    VisitedIsNotMissing(m, id);
    VisitedQueue(m, id);
    assert Missing(Visited(m, id)) * (todo - {id}) == left - {id};
    if id in left {
      AscendingFirst(m.queue, left, id);
    } else {
      assert left - {id} == left;
    }
  }

  lemma VisitRequeuesOne(m: Snapshot, todo: set<JobId>, id: JobId)
    requires todo <= m.jobs.Keys && id in todo
    ensures PartlyRequeued(Visited(m, id).jobs, todo - {id}) == PartlyRequeued(m.jobs, todo)
  {
  }

  lemma {:induction false} VisitAllIsReload(m: Snapshot, todo: set<JobId>)
    requires todo <= m.jobs.Keys
    ensures VisitAll(m, todo) == Snapshot(PartlyRequeued(m.jobs, todo), m.queue + Ascending(Missing(m) * todo))
    decreases |todo|
  {
    if todo == {} {
      assert Missing(m) * todo == {};
      assert PartlyRequeued(m.jobs, todo) == m.jobs;
    } else {
      var id := Least(todo);
      VisitAllIsReload(Visited(m, id), todo - {id});
      VisitShrinksMissing(m, todo, id);
      VisitRequeuesOne(m, todo, id);
    }
  }

  lemma VisitedIs(m: Snapshot, id: JobId, after: Snapshot)
    requires id in m.jobs
    requires after.jobs == if m.jobs[id].status.Running? then m.jobs[id := m.jobs[id].(status := Queued)] else m.jobs
    requires after.queue == if after.jobs[id].status.Queued? && id !in m.queue then m.queue + [id] else m.queue
    ensures after == Visited(m, id)
  {
    assert after.jobs == m.jobs[id := Requeued(m.jobs[id])];
  }

  lemma LoadIsReload(m: Snapshot)
    ensures VisitAll(m, m.jobs.Keys) == Reloaded(m)
  {
    VisitAllIsReload(m, m.jobs.Keys);
    assert Missing(m) * m.jobs.Keys == Missing(m);
    assert PartlyRequeued(m.jobs, m.jobs.Keys) == Reloaded(m).jobs;
  }

  // ---- The object ----

  class PersistentJobQueue {
    const vault: LocalVault<Value>
    const retryBase: nat
    var jobs: map<JobId, Job>
    var queue: seq<JobId>
    var handlers: set<string>
    var worker: Worker
    ghost var orphans: set<JobId>
    ghost var clock: real

    ghost predicate Valid()
      reads this, vault
    {
      vault.Readable()
    }

    ghost function Mem(): Snapshot
      reads this
    {
      Snapshot(jobs, queue)
    }

    ghost function View(): State
      reads this, vault
      requires Valid()
    {
      State(Mem(), SavedJobs(vault.Contents()), handlers, worker, orphans, clock)
    }

    /** Everything in the vault that does not belong to the queue, both as entries
        and as the other services see it. */
    ghost function Others(): (Entries, Views)
      reads this, vault
      requires Valid()
    {
      BesidesJobs(vault.Contents())
    }

    method PersistState()
      requires Valid()
      modifies vault
      ensures Valid() && SavedJobs(vault.Contents()) == Mem()
      ensures Others() == old(Others())
    {
      ghost var before := vault.Contents();
      var _ := vault.Set(JOB_KEY, JobState(Snapshot(jobs, queue)));
      JobKeyIsPrivate(before, vault.Contents());
    }

    /** The loop of the load: whether it changed anything is what it reports. */
    method RequeueUnfinished() returns (dirty: bool)
      modifies this`jobs, this`queue
      ensures Mem() == Reloaded(old(Mem()))
      ensures !dirty ==> Mem() == old(Mem())
    {
      var todo := jobs.Keys;
      dirty := false;
      ghost var saved := Mem();
      while todo != {}
        invariant todo <= jobs.Keys
        invariant VisitAll(Mem(), todo) == VisitAll(saved, saved.jobs.Keys)
        invariant !dirty ==> Mem() == saved
        decreases |todo|
      {
        ghost var before := Mem();
        var id := Least(todo);
        if jobs[id].status.Running? {
          jobs := jobs[id := jobs[id].(status := Queued)];
          dirty := true;
        }
        if jobs[id].status.Queued? && id !in queue {
          queue := queue + [id];
          dirty := true;
        }
        VisitedIs(before, id, Mem());
        todo := todo - {id};
      }
      LoadIsReload(saved);
    }

    /** Jobs are visited in id order: the saved object has sorted keys. */
    method LoadState()
      requires Valid()
      modifies this`jobs, this`queue, vault
      ensures Valid()
      ensures Mem() == Reloaded(old(SavedJobs(vault.Contents())))
      ensures SavedJobs(vault.Contents()) == Mem()
      ensures Others() == old(Others())
    {
      var raw := vault.Get(JOB_KEY);
      jobs, queue := map[], [];
      if raw.value.Some? && raw.value.value.JobState? {
        jobs, queue := raw.value.value.snapshot.jobs, raw.value.value.snapshot.queue;
      }
      var dirty := RequeueUnfinished();
      if dirty {
        PersistState();
      }
    }

    constructor (vault: LocalVault<Value>, retryBaseSeconds: int, ghost clock: real)
      requires vault.Readable()
      modifies vault
      ensures Valid() && this.vault == vault && retryBase == Max(1, retryBaseSeconds)
      ensures View() == Boot(old(SavedJobs(vault.Contents())), clock)
      ensures Others() == old(BesidesJobs(vault.Contents()))
    {
      this.vault := vault;
      retryBase := Max(1, retryBaseSeconds);
      jobs, queue, handlers, worker := map[], [], {}, Off;
      orphans, this.clock := {}, clock;
      new;
      LoadState();
    }

    method RegisterHandler(jobType: string)
      requires Valid()
      modifies this`handlers
      ensures Valid() && View() == Step(retryBase, old(View()), Register(jobType))
    {
      handlers := handlers + {jobType};
    }

    /** `id` is a new uuid; `now` is read before the lock is taken. */
    method Enqueue(id: JobId, jobType: string, payload: Json, maxRetries: int, now: real) returns (job: Job)
      requires Valid() && id !in jobs
      modifies this`jobs, this`queue, vault
      ensures Valid() && View() == Step(retryBase, old(View()), Event.Enqueue(id, jobType, payload, maxRetries, now))
      ensures job == jobs[id] && Others() == old(Others())
    {
      var created := Trunc(now);
      job := Job(jobType, payload, Queued, 0, Max(0, maxRetries), created, created, None, None, created as real);
      jobs := jobs[id := job];
      queue := queue + [id];
      PersistState();
    }

    method GetJob(id: JobId) returns (job: Option<Job>)
      ensures job == if id in jobs then Some(jobs[id]) else None
    {
      job := if id in jobs then Some(jobs[id]) else None;
    }

    /** Pops each id at most once; a queued but deferred one goes to the back. */
    method DequeueNextJobId(now: real) returns (picked: Option<JobId>)
      requires Valid()
      modifies this`jobs, this`queue, vault
      ensures Valid() && Others() == old(Others())
      ensures (picked, Mem()) == Dequeued(old(Mem()), now)
      ensures SavedJobs(vault.Contents()) == if picked.Some? then Mem() else old(SavedJobs(vault.Contents()))
    {
      hide BesidesJobs, Dequeued, FirstReady, StillQueued, Scanned;
      ghost var m := Mem();
      ScanStart(m);
      for i := 0 to |queue|
        invariant jobs == m.jobs && vault.disk == old(vault.disk)
        invariant queue == Scanned(m, i)
        invariant forall j :: 0 <= j < i ==> !Ready(m.jobs, m.queue[j], now)
      {
        ScanOne(m, i);
        var id := queue[0];
        queue := queue[1..];
        if id !in jobs || !jobs[id].status.Queued? {
          continue;
        }
        if jobs[id].runAfter > now {
          queue := queue + [id];
          continue;
        }
        ScanStops(m, now, i);
        jobs := jobs[id := jobs[id].(status := Running, updatedAt := Trunc(now))];
        PersistState();
        return Some(id);
      }
      ScanStops(m, now, |m.queue|);
      picked := None;
    }

    method MarkCompleted(id: JobId, result: Json, now: real)
      requires Valid()
      modifies this`jobs, vault
      ensures Valid() && Others() == old(Others())
      ensures Mem() == MarkedCompleted(old(Mem()), id, result, now)
      ensures SavedJobs(vault.Contents()) == if id in old(jobs) then Mem() else old(SavedJobs(vault.Contents()))
    {
      if id !in jobs { return; }
      var job := jobs[id];
      job := job.(status := Completed);
      job := job.(result := Some(result));
      job := job.(updatedAt := Trunc(now));
      job := job.(lastError := None);
      jobs := jobs[id := job];
      PersistState();
    }

    /** No guard on the status, as in the source. */
    method MarkFailedOrRetry(id: JobId, error: string, now: real, later: real)
      requires Valid()
      modifies this`jobs, this`queue, vault
      ensures Valid() && Others() == old(Others())
      ensures Mem() == MarkedFailed(retryBase, old(Mem()), id, error, now, later)
      ensures SavedJobs(vault.Contents()) == if id in old(jobs) then Mem() else old(SavedJobs(vault.Contents()))
    {
      hide BesidesJobs;
      if id !in jobs { return; }
      var job := jobs[id];
      var attempts := job.attempts + 1;
      job := job.(attempts := attempts);
      job := job.(updatedAt := Trunc(now));
      job := job.(lastError := Some(error));
      if attempts <= job.maxRetries {
        var retryDelay := retryBase * attempts;
        job := job.(status := Queued);
        job := job.(runAfter := later + retryDelay as real);
        jobs := jobs[id := job];
        queue := queue + [id];
        PersistState();
        return;
      }
      job := job.(status := Failed);
      jobs := jobs[id := job];
      PersistState();
    }

    // ---- The worker, one method per stretch between two awaits ----

    method Start()
      requires Valid()
      modifies this`worker
      ensures Valid() && View() == Step(retryBase, old(View()), Event.Start)
    {
      if worker.Off? || worker.Ended? { worker := Idle; }
    }

    /** Cancelling the worker forgets which job it held. */
    method Stop()
      requires Valid()
      modifies this`worker, this`orphans
      ensures Valid() && View() == Step(retryBase, old(View()), Event.Stop)
    {
      if worker.Off? { return; }
      if worker.HasJob() { orphans := orphans + {worker.id}; }
      worker := Off;
    }

    /** Ask for a job; without one the worker sleeps and asks again. */
    method Fetch(now: real)
      requires Valid() && worker.Idle?
      modifies this`jobs, this`queue, this`worker, this`clock, vault
      ensures Valid() && View() == Step(retryBase, old(View()), Event.Dequeue(now))
      ensures Others() == old(Others())
    {
      var picked := DequeueNextJobId(now);
      clock := now;
      if picked.Some? { worker := Fetched(picked.value); }
    }

    /** Look the job up again and find its handler. */
    method FindHandler()
      requires Valid() && worker.Fetched?
      modifies this`worker
      ensures Valid() && View() == Step(retryBase, old(View()), Event.Dispatch)
    {
      if worker.id !in jobs {
        worker := Idle;
      } else if jobs[worker.id].jobType in handlers {
        worker := Executing(worker.id);
      } else {
        worker := Rejected(worker.id);
      }
    }

    method HandlerReturned(result: Json, now: real)
      requires Valid() && worker.Executing?
      modifies this`jobs, this`worker, this`clock, vault
      ensures Valid() && View() == Step(retryBase, old(View()), Event.Succeed(result, now))
      ensures Others() == old(Others())
    {
      MarkCompleted(worker.id, result, now);
      worker, clock := Idle, now;
    }

    method HandlerRaised(error: string, now: real, later: real)
      requires Valid() && worker.Executing?
      modifies this`jobs, this`queue, this`worker, this`clock, vault
      ensures Valid() && View() == Step(retryBase, old(View()), Event.Fail(error, now, later))
      ensures Others() == old(Others())
    {
      MarkFailedOrRetry(worker.id, error, now, later);
      worker, clock := Idle, later;
    }

    /** Only `Exception` is caught around the handler: a CancelledError that it
        raises ends the worker, and the job stays running. */
    method HandlerWasCancelled()
      requires Valid() && worker.Executing?
      modifies this`worker, this`orphans
      ensures Valid() && View() == Step(retryBase, old(View()), Event.HandlerCancelled)
    {
      orphans := orphans + {worker.id};
      worker := Ended;
    }

    method ReportMissingHandler(now: real, later: real)
      requires Valid() && worker.Rejected?
      modifies this`jobs, this`queue, this`worker, this`clock, vault
      ensures Valid() && View() == Step(retryBase, old(View()), Event.Reject(now, later))
      ensures Others() == old(Others())
    {
      if worker.id !in jobs {
        worker := Idle;
        return;
      }
      MarkFailedOrRetry(worker.id, "No handler registered for job type '" + jobs[worker.id].jobType + "'.", now, later);
      worker, clock := Idle, later;
    }
  }
}
