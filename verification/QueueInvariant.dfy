/**
  The queue's guarantees over whole runs: every state reachable from the empty queue by any
  enabled steps in any order satisfies `Inv`, and what the queue promises follows from it.
 */
module QueueInvariant {
  import opened Common
  import opened QueueModel
  import opened QueueProofs

  /** Waiting work is never forgotten: a scheduler pass is due or some job is still to finish. */
  ghost predicate Awake(s: State) {
    s.queue != [] || s.processing ==> s.microtasks > 0 || |s.jobs.running| > 0
  }

  ghost predicate Retries(s: State) {
    && s.pendingRetry == |s.jobs.waiting|
    && s.jobs.armed <= s.jobs.waiting.Keys
    && (s.active ==> s.jobs.armed == s.jobs.waiting.Keys)
  }

  /** What holds between any two steps. */
  ghost predicate Inv(cfg: Config, s: State) {
    && Core(cfg, s)
    && |s.queue| <= cfg.maxQueueDepth
    && Retries(s)
    && Awake(s)
  }

  // ---------- what the scheduler leaves alone ----------

  ghost predicate Untouched(before: State, s: State) {
    && s.jobs.waiting == before.jobs.waiting
    && s.jobs.armed == before.jobs.armed
    && s.jobs.nextId == before.jobs.nextId
    && s.quotas == before.quotas
    && s.pendingRetry == before.pendingRetry
    && s.active == before.active
    && s.microtasks == before.microtasks
    && s.marks.succeeded == before.marks.succeeded
    && |s.queue| <= |before.queue|
  }

  lemma MoveLeavesUntouched(cfg: Config, before: State, s: State, m: Move)
    requires Core(cfg, s) && Untouched(before, s) && Allowed(cfg, s, m)
    ensures Untouched(before, Apply(cfg, s, m))
  {
    hide Counters, EffectsOnce, Attempts;
    if m.SkipDuplicate? {
      assert s.queue[m.index].id !in s.jobs.waiting;
      assert EndJob(s.jobs, s.queue[m.index].id, SkippedDuplicate).waiting == s.jobs.waiting;
    }
  }

  lemma SchedulerKeepsCore(cfg: Config, s: State)
    requires Core(cfg, s)
    ensures Core(cfg, MaybeRunJobs(cfg, s)) && Untouched(s, MaybeRunJobs(cfg, s))
  {
    var p := (t: State) => Core(cfg, t) && Untouched(s, t);
    forall t, m | p(t) && Allowed(cfg, t, m) ensures p(Apply(cfg, t, m)) {
      CoreKeptByMove(cfg, t, m);
      MoveLeavesUntouched(cfg, s, t, m);
    }
    SchedulerKeeps(cfg, p, s);
  }

  // ---------- the scheduler's exit ----------

  /** Every queued job's tenant has as many jobs counted as its quota allows. */
  ghost predicate AllAtQuota(cfg: Config, queue: seq<Job>, c: Slots, q: Quotas) {
    forall i :: 0 <= i < |queue| ==> Count(c.byTenant, Tenant(queue[i])) >= QuotaOf(cfg, q.current, Tenant(queue[i]))
  }

  lemma {:induction false} LaunchStopsOnlyWhenStuck(cfg: Config, s: State)
    ensures var r := Launch(cfg, s);
            r.slots.inflight >= cfg.maxConcurrent || AllAtQuota(cfg, r.queue, r.slots, r.quotas)
    decreases |s.queue|
  {
    if s.slots.inflight < cfg.maxConcurrent {
      var index := FindRunnableFrom(cfg, s, 0);
      if index >= 0 {
        LaunchStopsOnlyWhenStuck(cfg, StartJob(cfg, Dequeue(s, index), s.queue[index]));
      }
    }
  }

  lemma SomeoneRuns(cfg: Config, c: Slots, q: Quotas, running: map<nat, Job>, tenant: string)
    requires Counters(cfg, c, q, running)
    requires Count(c.byTenant, tenant) > 0
    ensures |running| > 0
  {
    assert TenantCounter(cfg, c, q, running, tenant);
    var id :| id in RunningOf(running, tenant);
    assert id in running.Keys;
  }

  lemma SchedulerLeavesAwake(cfg: Config, s: State)
    requires ValidConfig(cfg) && Core(cfg, s)
    ensures var r := MaybeRunJobs(cfg, s); r.queue != [] || r.processing ==> |r.jobs.running| > 0
  {
    SchedulerKeepsCore(cfg, s);
    LaunchStopsOnlyWhenStuck(cfg, Reap(cfg, s));
    var r := MaybeRunJobs(cfg, s);
    if r.queue != [] && r.slots.inflight < cfg.maxConcurrent {
      var stuck := Launch(cfg, Reap(cfg, s));
      assert !UnderQuota(cfg, stuck, stuck.queue[0]);
      assert QuotaHistory(cfg, r.quotas, Tenant(r.queue[0]));
      SomeoneRuns(cfg, r.slots, r.quotas, r.jobs.running, Tenant(r.queue[0]));
    }
  }

  // ---------- every step keeps the invariant ----------

  lemma PassKeepsInv(cfg: Config, s: State)
    requires ValidConfig(cfg) && Core(cfg, s) && |s.queue| <= cfg.maxQueueDepth
    ensures var r := MaybeRunJobs(cfg, s);
            Core(cfg, r) && Untouched(s, r) && |r.queue| <= cfg.maxQueueDepth && Awake(r)
  {
    SchedulerKeepsCore(cfg, s);
    SchedulerLeavesAwake(cfg, s);
  }

  lemma AcceptLedger(queue: seq<Job>, jobs: Jobs, job: Job)
    requires Ledger(queue, jobs) && job.id == jobs.nextId
    ensures Ledger(queue + [job], jobs.(nextId := jobs.nextId + 1))
  {
    var queue' := queue + [job];
    assert queue'[|queue|] == job;
    forall id: nat | InQueue(queue, id) ensures InQueue(queue', id) {
      var i :| 0 <= i < |queue| && queue[i].id == id;
      assert queue'[i].id == id;
    }
  }

  lemma AcceptAttempts(cfg: Config, queue: seq<Job>, jobs: Jobs, job: Job)
    requires ValidConfig(cfg) && Attempts(cfg, queue, jobs) && job.id == jobs.nextId && job.attempt == 1
    ensures Attempts(cfg, queue + [job], jobs.(nextId := jobs.nextId + 1))
  {
    var jobs' := jobs.(nextId := jobs.nextId + 1);
    forall id ensures Runs(jobs', id) == Runs(jobs, id) {}
  }

  lemma EnqueueKeepsInv(cfg: Config, s: State, taskId: string, tenantId: Option<string>, token: Option<string>)
    requires ValidConfig(cfg) && Inv(cfg, s)
    ensures Inv(cfg, DoEnqueue(cfg, s, taskId, tenantId, token))
  {
    hide Counters, Ledger, EffectsOnce, Attempts;
    var job := Job(s.jobs.nextId, taskId, tenantId, 1, token);
    AcceptLedger(s.queue, s.jobs, job);
    AcceptAttempts(cfg, s.queue, s.jobs, job);
  }

  lemma EndLedger(queue: seq<Job>, jobs: Jobs, id: nat, outcome: Outcome)
    requires Ledger(queue, jobs) && (id in jobs.running || id in jobs.waiting)
    ensures Ledger(queue, EndJob(jobs, id, outcome))
  {
  }

  lemma EndAttempts(cfg: Config, queue: seq<Job>, jobs: Jobs, id: nat, outcome: Outcome)
    requires Attempts(cfg, queue, jobs)
    ensures Attempts(cfg, queue, EndJob(jobs, id, outcome))
  {
    forall i ensures Runs(EndJob(jobs, id, outcome), i) == Runs(jobs, i) {}
  }

  function MarksAfter(marks: Marks, job: Job, outcome: Outcome): Marks {
    if outcome == Completed then marks.(succeeded := marks.succeeded + [Effect(job)]) else marks
  }

  lemma EndEffects(marks: Marks, running: map<nat, Job>, id: nat, outcome: Outcome)
    requires EffectsOnce(marks, running) && id in running
    ensures EffectsOnce(MarksAfter(marks, running[id], outcome), running - {id})
  {
  }

  lemma EndRunOnly(queue: seq<Job>, jobs: Jobs, id: nat, outcome: Outcome)
    requires Ledger(queue, jobs) && id in jobs.running
    ensures EndJob(jobs, id, outcome).waiting == jobs.waiting
  {
  }

  lemma EndKeepsCore(cfg: Config, s: State, id: nat, outcome: Outcome)
    requires Core(cfg, s) && id in s.jobs.running
    ensures var job := s.jobs.running[id];
            Core(cfg, Release(s.(jobs := EndJob(s.jobs, id, outcome), marks := MarksAfter(s.marks, job, outcome)),
                              Tenant(job), job.taskId))
  {
    FreeAfterRun(cfg, s.slots, s.quotas, s.jobs.running, id);
    EndLedger(s.queue, s.jobs, id, outcome);
    EndAttempts(cfg, s.queue, s.jobs, id, outcome);
    EndEffects(s.marks, s.jobs.running, id, outcome);
  }

  /** The end of a run, successful or dead-lettered, followed by its scheduler pass. */
  lemma EndKeepsInv(cfg: Config, s: State, id: nat, outcome: Outcome)
    requires ValidConfig(cfg) && Inv(cfg, s) && id in s.jobs.running
    ensures var job := s.jobs.running[id];
            Inv(cfg, FinishJob(cfg, s.(jobs := EndJob(s.jobs, id, outcome), marks := MarksAfter(s.marks, job, outcome)),
                               Tenant(job), job.taskId))
  {
    hide Counters, Ledger, EffectsOnce, Attempts;
    var job := s.jobs.running[id];
    EndKeepsCore(cfg, s, id, outcome);
    EndRunOnly(s.queue, s.jobs, id, outcome);
    PassKeepsInv(cfg, Release(s.(jobs := EndJob(s.jobs, id, outcome), marks := MarksAfter(s.marks, job, outcome)),
                              Tenant(job), job.taskId));
  }

  lemma AwaitLedger(queue: seq<Job>, jobs: Jobs, id: nat)
    requires Ledger(queue, jobs) && id in jobs.running
    ensures Ledger(queue, AwaitRetry(jobs, jobs.running[id]))
  {
  }

  lemma AwaitAttempts(cfg: Config, queue: seq<Job>, jobs: Jobs, id: nat)
    requires Attempts(cfg, queue, jobs) && Ledger(queue, jobs)
    requires id in jobs.running && jobs.running[id].attempt < cfg.maxAttempts
    ensures Attempts(cfg, queue, AwaitRetry(jobs, jobs.running[id]))
  {
    forall i ensures Runs(AwaitRetry(jobs, jobs.running[id]), i) == Runs(jobs, i) {}
  }

  lemma UnmarkEffects(marks: Marks, running: map<nat, Job>, id: nat)
    requires EffectsOnce(marks, running) && id in running
    ensures EffectsOnce(Unmark(marks, Effect(running[id])), running - {id})
  {
  }

  function ClearedForRetry(s: State, job: Job): State {
    Release(s.(jobs := AwaitRetry(s.jobs, job), marks := Unmark(s.marks, Effect(job))), Tenant(job), job.taskId)
  }

  lemma RetryKeepsCore(cfg: Config, s: State, id: nat)
    requires Core(cfg, s) && id in s.jobs.running && s.jobs.running[id].attempt < cfg.maxAttempts
    ensures Core(cfg, ClearedForRetry(s, s.jobs.running[id]))
  {
    FreeAfterRun(cfg, s.slots, s.quotas, s.jobs.running, id);
    AwaitLedger(s.queue, s.jobs, id);
    AwaitAttempts(cfg, s.queue, s.jobs, id);
    UnmarkEffects(s.marks, s.jobs.running, id);
  }

  lemma NotWaiting(cfg: Config, s: State, id: nat)
    requires Core(cfg, s) && id in s.jobs.running
    ensures id !in s.jobs.waiting && s.jobs.running[id].id == id
  {
  }

  lemma PendingKeepsCore(cfg: Config, s: State, pending: int)
    requires Core(cfg, s)
    ensures Core(cfg, s.(pendingRetry := pending))
  {
  }

  /** After the pass, the pending count catches up with the job that now waits. */
  lemma CountPending(cfg: Config, s: State, id: nat, passed: State)
    requires Retries(s) && id in s.jobs.running && id !in s.jobs.waiting && s.jobs.running[id].id == id
    requires Untouched(ClearedForRetry(s, s.jobs.running[id]), passed)
    ensures Retries(passed.(pendingRetry := passed.pendingRetry + 1))
  {
    AddTo(s.jobs.waiting, id, s.jobs.running[id]);
  }

  /** A failed run that will be retried. */
  lemma RetryKeepsInv(cfg: Config, s: State, id: nat)
    requires ValidConfig(cfg) && Inv(cfg, s)
    requires id in s.jobs.running && s.jobs.running[id].attempt < cfg.maxAttempts
    ensures Inv(cfg, DoThrow(cfg, s, s.jobs.running[id]))
  {
    hide Core, MaybeRunJobs, Retries;
    var cleared := ClearedForRetry(s, s.jobs.running[id]);
    var passed := MaybeRunJobs(cfg, cleared);
    NotWaiting(cfg, s, id);
    RetryKeepsCore(cfg, s, id);
    PassKeepsInv(cfg, cleared);
    PendingKeepsCore(cfg, passed, passed.pendingRetry + 1);
    CountPending(cfg, s, id, passed);
    assert DoThrow(cfg, s, s.jobs.running[id]) == passed.(pendingRetry := passed.pendingRetry + 1);
  }

  lemma WakeLedger(queue: seq<Job>, jobs: Jobs, id: nat)
    requires Ledger(queue, jobs) && id in jobs.waiting
    ensures var job := jobs.waiting[id];
            Ledger(queue + [job.(attempt := job.attempt + 1)],
                   jobs.(armed := jobs.armed - {id}, waiting := jobs.waiting - {id}))
  {
    var job := jobs.waiting[id];
    var queue' := queue + [job.(attempt := job.attempt + 1)];
    assert queue'[|queue|].id == id;
    forall i: nat | InQueue(queue, i) ensures InQueue(queue', i) {
      var k :| 0 <= k < |queue| && queue[k].id == i;
      assert queue'[k].id == i;
    }
  }

  lemma WakeAttempts(cfg: Config, queue: seq<Job>, jobs: Jobs, id: nat)
    requires Attempts(cfg, queue, jobs) && Ledger(queue, jobs) && id in jobs.waiting
    ensures var job := jobs.waiting[id];
            Attempts(cfg, queue + [job.(attempt := job.attempt + 1)],
                     jobs.(armed := jobs.armed - {id}, waiting := jobs.waiting - {id}))
  {
    var jobs' := jobs.(armed := jobs.armed - {id}, waiting := jobs.waiting - {id});
    forall i ensures Runs(jobs', i) == Runs(jobs, i) {}
  }

  lemma DisarmLedger(queue: seq<Job>, jobs: Jobs, id: nat)
    ensures var disarmed := jobs.(armed := jobs.armed - {id});
            Ledger(queue, jobs) ==> Ledger(queue, disarmed)
  {
  }

  lemma DisarmAttempts(cfg: Config, queue: seq<Job>, jobs: Jobs, id: nat)
    requires Attempts(cfg, queue, jobs)
    ensures Attempts(cfg, queue, jobs.(armed := jobs.armed - {id}))
  {
    forall i ensures Runs(jobs.(armed := jobs.armed - {id}), i) == Runs(jobs, i) {}
  }

  lemma TimerKeepsCore(cfg: Config, s: State, id: nat)
    requires Core(cfg, s) && id in s.jobs.waiting
    ensures Core(cfg, DoTimer(cfg, s, s.jobs.waiting[id]))
  {
    hide Counters, Ledger, EffectsOnce, Attempts;
    var disarmed := s.jobs.(armed := s.jobs.armed - {id});
    DisarmLedger(s.queue, s.jobs, id);
    DisarmAttempts(cfg, s.queue, s.jobs, id);
    if s.active {
      if |s.queue| >= cfg.maxQueueDepth {
        assert EndJob(disarmed, id, DeadLettered).running == s.jobs.running;
        EndLedger(s.queue, disarmed, id, DeadLettered);
        EndAttempts(cfg, s.queue, disarmed, id, DeadLettered);
      } else {
        WakeLedger(s.queue, s.jobs, id);
        WakeAttempts(cfg, s.queue, s.jobs, id);
      }
    }
  }

  lemma EndWaitOnly(cfg: Config, s: State, id: nat)
    requires Core(cfg, s) && id in s.jobs.waiting
    ensures id !in s.jobs.running && s.jobs.waiting[id].id == id
  {
  }

  lemma TimerKeepsInv(cfg: Config, s: State, id: nat)
    requires Inv(cfg, s) && id in s.jobs.armed && id in s.jobs.waiting
    ensures Inv(cfg, DoTimer(cfg, s, s.jobs.waiting[id]))
  {
    hide Core, Retries, Kickoff;
    TimerKeepsCore(cfg, s, id);
    EndWaitOnly(cfg, s, id);
    TimerKeepsRetries(cfg, s, s.jobs.waiting[id]);
    TimerKeepsAwake(cfg, s, id);
  }

  lemma TimerKeepsRetries(cfg: Config, s: State, job: Job)
    requires Retries(s) && job.id in s.jobs.armed && job.id in s.jobs.waiting
    ensures Retries(DoTimer(cfg, s, job))
  {
    RemoveFrom(s.jobs.waiting, job.id);
    assert (s.jobs.waiting - {job.id}).Keys == s.jobs.waiting.Keys - {job.id};
  }

  lemma TimerKeepsAwake(cfg: Config, s: State, id: nat)
    requires Inv(cfg, s) && id in s.jobs.waiting
    ensures var r := DoTimer(cfg, s, s.jobs.waiting[id]); Awake(r) && |r.queue| <= cfg.maxQueueDepth
  {
    hide Core, Retries;
    EndWaitOnly(cfg, s, id);
    assert s.jobs.running - {id} == s.jobs.running;
  }

  lemma QuotaKeepsInv(cfg: Config, s: State, tenantId: string, limit: int)
    requires Inv(cfg, s)
    ensures Inv(cfg, DoSetQuota(cfg, s, tenantId, limit))
  {
    hide Ledger, EffectsOnce, Attempts, GlobalCounter, TenantKey;
    var q := DoSetQuota(cfg, s, tenantId, limit).quotas;
    forall tenant ensures TenantCounter(cfg, s.slots, q, s.jobs.running, tenant) && QuotaHistory(cfg, q, tenant) {
      assert TenantCounter(cfg, s.slots, s.quotas, s.jobs.running, tenant) && QuotaHistory(cfg, s.quotas, tenant);
    }
  }

  lemma StepKeepsInv(cfg: Config, s: State, a: Action)
    requires ValidConfig(cfg) && Inv(cfg, s) && Enabled(s, a)
    ensures Inv(cfg, Step(cfg, s, a))
  {
    hide Counters, Ledger, EffectsOnce, Attempts, MaybeRunJobs, DoEnqueue, DoTimer, DoSetQuota;
    match a
    case Enqueue(taskId, tenantId, token) => EnqueueKeepsInv(cfg, s, taskId, tenantId, token);
    case MicrotaskFires => PassKeepsInv(cfg, s.(microtasks := s.microtasks - 1));
    case RunSucceeds(id) =>
      NotWaiting(cfg, s, id);
      EndKeepsInv(cfg, s, id, Completed);
    case RunThrows(id) =>
      NotWaiting(cfg, s, id);
      if s.jobs.running[id].attempt < cfg.maxAttempts {
        RetryKeepsInv(cfg, s, id);
      } else {
        EndKeepsInv(cfg, s, id, DeadLettered);
      }
    case TimerFires(id) => TimerKeepsInv(cfg, s, id);
    case Stop =>
    case SetTenantQuota(tenant, limit) => QuotaKeepsInv(cfg, s, tenant, limit);
    case MarkEffectComplete(effect) => MarkKeepsEffects(s.marks, s.jobs.running, effect);
  }

  lemma MarkKeepsEffects(marks: Marks, running: map<nat, Job>, effect: string)
    requires EffectsOnce(marks, running)
    ensures EffectsOnce(Mark(marks, effect), running)
  {
  }

  lemma InitInv(cfg: Config)
    requires ValidConfig(cfg)
    ensures Inv(cfg, Init())
  {
    forall tenant ensures TenantCounter(cfg, Init().slots, Init().quotas, map[], tenant) {
      assert RunningOf(map[], tenant) == {};
    }
  }

  lemma {:induction false} EveryRunKeepsInv(cfg: Config, s: State, acts: seq<Action>)
    requires ValidConfig(cfg) && Inv(cfg, s) && Takes(cfg, s, acts)
    ensures Inv(cfg, After(cfg, s, acts))
    decreases |acts|
  {
    if acts != [] {
      StepKeepsInv(cfg, s, acts[0]);
      EveryRunKeepsInv(cfg, Step(cfg, s, acts[0]), acts[1..]);
    }
  }
}
