/**
  What every run of the queue keeps.

  The scheduler's recursion is taken apart once: everything it does to the state is a chain of
  five small moves, so a property those moves keep is kept by the whole scheduler
  (`SchedulerKeeps`). Each invariant is then checked against the moves and the steps alone.
 */
module QueueProofs {
  import opened QueueModel

  // ---------- the scheduler as a chain of moves ----------

  datatype Move =
    | ReapLeases
    | SettleFlag
    | StartFresh(index: nat)
    | SkipDuplicate(index: nat)
    | FinishTwice(tenant: string, taskId: string)

  ghost predicate CanStart(cfg: Config, s: State, index: nat) {
    && index < |s.queue| && s.slots.inflight < cfg.maxConcurrent
    && UnderQuota(cfg, s, s.queue[index]) && (forall i :: 0 <= i < index ==> !UnderQuota(cfg, s, s.queue[i]))
  }

  ghost predicate Skipped(s: State, id: nat) {
    id in s.jobs.settled && s.jobs.settled[id] == SkippedDuplicate
  }

  ghost predicate Allowed(cfg: Config, s: State, m: Move) {
    match m
    case StartFresh(index) => CanStart(cfg, s, index) && Effect(s.queue[index]) !in s.marks.completed
    case SkipDuplicate(index) => CanStart(cfg, s, index) && Effect(s.queue[index]) in s.marks.completed
    case FinishTwice(_, _) => exists id :: Skipped(s, id)
    case _ => true
  }

  ghost function ApplyStart(cfg: Config, s: State, index: nat): State
    requires index < |s.queue|
  {
    var job := s.queue[index];
    var a := Acquire(cfg, Dequeue(s, index), job);
    a.(marks := Mark(a.marks, Effect(job)), jobs := BeginRun(a.jobs, job))
  }

  ghost function ApplySkip(cfg: Config, s: State, index: nat): State
    requires index < |s.queue|
  {
    var job := s.queue[index];
    var a := Acquire(cfg, Dequeue(s, index), job);
    Release(a.(jobs := EndJob(a.jobs, job.id, SkippedDuplicate)), Tenant(job), job.taskId)
  }

  ghost function Apply(cfg: Config, s: State, m: Move): State
    requires Allowed(cfg, s, m)
  {
    match m
    case ReapLeases => Reap(cfg, s)
    case SettleFlag => Settle(s)
    case StartFresh(index) => ApplyStart(cfg, s, index)
    case SkipDuplicate(index) => ApplySkip(cfg, s, index)
    case FinishTwice(tenant, taskId) => Release(s.(slots := CountSkip(s.slots, tenant)), tenant, taskId)
  }

  ghost predicate KeptByMoves(cfg: Config, p: State -> bool) {
    forall s, m :: p(s) && Allowed(cfg, s, m) ==> p(Apply(cfg, s, m))
  }

  lemma OneMove(cfg: Config, p: State -> bool, s: State, m: Move)
    requires KeptByMoves(cfg, p) && p(s) && Allowed(cfg, s, m)
    ensures p(Apply(cfg, s, m))
  {
  }

  lemma {:induction false} SchedulerKeeps(cfg: Config, p: State -> bool, s: State)
    requires KeptByMoves(cfg, p) && p(s)
    ensures p(MaybeRunJobs(cfg, s))
    decreases |s.queue|, 1
  {
    OneMove(cfg, p, s, ReapLeases);
    LaunchKeeps(cfg, p, Reap(cfg, s));
    OneMove(cfg, p, Launch(cfg, Reap(cfg, s)), SettleFlag);
  }

  lemma {:induction false} LaunchKeeps(cfg: Config, p: State -> bool, s: State)
    requires KeptByMoves(cfg, p) && p(s)
    ensures p(Launch(cfg, s))
    decreases |s.queue|, 0
  {
    if s.slots.inflight < cfg.maxConcurrent {
      var index := FindRunnableFrom(cfg, s, 0);
      if index >= 0 {
        StartKeeps(cfg, p, s, index);
        LaunchKeeps(cfg, p, StartJob(cfg, Dequeue(s, index), s.queue[index]));
      }
    }
  }

  lemma {:induction false} StartKeeps(cfg: Config, p: State -> bool, s: State, index: nat)
    requires KeptByMoves(cfg, p) && p(s) && CanStart(cfg, s, index)
    ensures p(StartJob(cfg, Dequeue(s, index), s.queue[index]))
    decreases |s.queue| - 1, 3
  {
    var job := s.queue[index];
    if Effect(job) in s.marks.completed {
      OneMove(cfg, p, s, SkipDuplicate(index));
      var q := (t: State) => p(t) && Skipped(t, job.id);
      StaysSkipped(cfg, p, job.id);
      SchedulerKeeps(cfg, q, ApplySkip(cfg, s, index));
      var first := MaybeRunJobs(cfg, ApplySkip(cfg, s, index));
      assert q(first);
      OneMove(cfg, p, first, FinishTwice(Tenant(job), job.taskId));
      SchedulerKeeps(cfg, p, Apply(cfg, first, FinishTwice(Tenant(job), job.taskId)));
    } else {
      OneMove(cfg, p, s, StartFresh(index));
    }
  }

  lemma StaysSkipped(cfg: Config, p: State -> bool, id: nat)
    requires KeptByMoves(cfg, p)
    ensures KeptByMoves(cfg, t => p(t) && Skipped(t, id))
  {
    var q := (t: State) => p(t) && Skipped(t, id);
    forall t, m | q(t) && Allowed(cfg, t, m) ensures q(Apply(cfg, t, m)) {
      OneMove(cfg, p, t, m);
    }
  }

  /** One turn of the launch loop. */
  lemma LaunchTurn(cfg: Config, s: State)
    ensures var index := FindRunnableFrom(cfg, s, 0);
            Launch(cfg, s) ==
              if s.slots.inflight >= cfg.maxConcurrent || index < 0 then s
              else Launch(cfg, StartJob(cfg, Dequeue(s, index), s.queue[index]))
  {
  }

  // ---------- counters against really running jobs ----------

  ghost function RunningOf(running: map<nat, Job>, tenant: string): set<nat> {
    set id | id in running && Tenant(running[id]) == tenant
  }

  ghost predicate GlobalCounter(cfg: Config, c: Slots, running: map<nat, Job>) {
    && c.inflight <= |running| <= c.inflight + c.lost
    && c.lost <= c.skips + c.reaps
    && c.inflight <= cfg.maxConcurrent
  }

  ghost predicate TenantCounter(cfg: Config, c: Slots, q: Quotas, running: map<nat, Job>, tenant: string) {
    && Count(c.byTenant, tenant) <= |RunningOf(running, tenant)|
    && |RunningOf(running, tenant)| <= Count(c.byTenant, tenant) + Count(c.lostByTenant, tenant)
    && Count(c.byTenant, tenant) <= QuotaOf(cfg, q.peak, tenant)
    && Count(c.lostByTenant, tenant) <= Count(c.skipsByTenant, tenant) <= c.skips
  }

  ghost predicate QuotaHistory(cfg: Config, q: Quotas, tenant: string) {
    && 1 <= QuotaOf(cfg, q.current, tenant) <= QuotaOf(cfg, q.peak, tenant)
    && (tenant !in q.lowered ==> QuotaOf(cfg, q.current, tenant) == QuotaOf(cfg, q.peak, tenant))
  }

  ghost predicate Counters(cfg: Config, c: Slots, q: Quotas, running: map<nat, Job>) {
    && GlobalCounter(cfg, c, running)
    && (forall tenant :: TenantCounter(cfg, c, q, running, tenant))
    && (forall tenant :: QuotaHistory(cfg, q, tenant))
  }

  // ---------- the ledger of accepted jobs ----------

  ghost predicate InQueue(queue: seq<Job>, id: nat) {
    exists i :: 0 <= i < |queue| && queue[i].id == id
  }

  ghost predicate QueueIds(queue: seq<Job>, jobs: Jobs) {
    && (forall i, j :: 0 <= i < j < |queue| ==> queue[i].id != queue[j].id)
    && (forall i :: 0 <= i < |queue| ==>
          && queue[i].id < jobs.nextId
          && queue[i].id !in jobs.running
          && queue[i].id !in jobs.waiting
          && queue[i].id !in jobs.settled)
  }

  /** Every accepted job is in exactly one place. */
  ghost predicate Ledger(queue: seq<Job>, jobs: Jobs) {
    && QueueIds(queue, jobs)
    && jobs.running.Keys !! jobs.waiting.Keys
    && jobs.running.Keys !! jobs.settled.Keys
    && jobs.waiting.Keys !! jobs.settled.Keys
    && (forall id :: id in jobs.running ==> jobs.running[id].id == id && id < jobs.nextId)
    && (forall id :: id in jobs.waiting ==> jobs.waiting[id].id == id && id < jobs.nextId)
    && (forall id :: id in jobs.settled ==> id < jobs.nextId)
    && (forall id: nat :: id < jobs.nextId ==>
          InQueue(queue, id) || id in jobs.running || id in jobs.waiting || id in jobs.settled)
  }

  // ---------- effects ----------

  ghost predicate NoRepeats(effects: seq<string>) {
    forall i, j :: 0 <= i < j < |effects| ==> effects[i] != effects[j]
  }

  ghost predicate EffectsOnce(marks: Marks, running: map<nat, Job>) {
    && (forall id :: id in running ==> Effect(running[id]) in marks.completed)
    && (forall id, other :: id in running && other in running && id != other ==>
          Effect(running[id]) != Effect(running[other]))
    && (forall i :: 0 <= i < |marks.succeeded| ==> marks.succeeded[i] in marks.completed)
    && (forall i, id :: 0 <= i < |marks.succeeded| && id in running ==> marks.succeeded[i] != Effect(running[id]))
    && NoRepeats(marks.succeeded)
  }

  // ---------- attempts ----------

  ghost predicate Attempts(cfg: Config, queue: seq<Job>, jobs: Jobs) {
    && (forall i :: 0 <= i < |queue| ==>
          1 <= queue[i].attempt <= cfg.maxAttempts && Runs(jobs, queue[i].id) == queue[i].attempt - 1)
    && (forall id :: id in jobs.running ==>
          1 <= jobs.running[id].attempt <= cfg.maxAttempts && Runs(jobs, id) == jobs.running[id].attempt)
    && (forall id :: id in jobs.waiting ==>
          1 <= jobs.waiting[id].attempt < cfg.maxAttempts && Runs(jobs, id) == jobs.waiting[id].attempt)
    && (forall id :: Runs(jobs, id) <= cfg.maxAttempts)
    && (forall id :: id in jobs.runs ==> id < jobs.nextId)
  }

  /** What holds at every point of the scheduler. */
  ghost predicate Core(cfg: Config, s: State) {
    && Counters(cfg, s.slots, s.quotas, s.jobs.running)
    && Ledger(s.queue, s.jobs)
    && EffectsOnce(s.marks, s.jobs.running)
    && Attempts(cfg, s.queue, s.jobs)
  }

  // ---------- moves keep the core ----------

  lemma RemoveFrom<T>(m: map<nat, T>, id: nat)
    requires id in m
    ensures |m - {id}| == |m| - 1
  {
    assert (m - {id}).Keys == m.Keys - {id};
    assert |m.Keys| == |m| && |(m - {id}).Keys| == |m - {id}|;
  }

  lemma AddTo<T>(m: map<nat, T>, id: nat, v: T)
    requires id !in m
    ensures |m[id := v]| == |m| + 1
  {
    assert m[id := v].Keys == m.Keys + {id};
    assert |m.Keys| == |m| && |m[id := v].Keys| == |m[id := v]|;
  }

  lemma TakeForRun(cfg: Config, c: Slots, q: Quotas, running: map<nat, Job>, job: Job)
    requires Counters(cfg, c, q, running) && job.id !in running
    requires c.inflight < cfg.maxConcurrent
    requires Count(c.byTenant, Tenant(job)) < QuotaOf(cfg, q.current, Tenant(job))
    ensures Counters(cfg, TakeSlot(c, Tenant(job)), q, running[job.id := job])
  {
    var running' := running[job.id := job];
    AddTo(running, job.id, job);
    forall tenant ensures TenantCounter(cfg, TakeSlot(c, Tenant(job)), q, running', tenant) {
      assert TenantCounter(cfg, c, q, running, tenant) && QuotaHistory(cfg, q, tenant);
      RunningWith(running, job, tenant);
    }
  }

  lemma RunningWith(running: map<nat, Job>, job: Job, tenant: string)
    requires job.id !in running
    ensures |RunningOf(running[job.id := job], tenant)| ==
            |RunningOf(running, tenant)| + (if tenant == Tenant(job) then 1 else 0)
  {
    if tenant == Tenant(job) {
      assert RunningOf(running[job.id := job], tenant) == RunningOf(running, tenant) + {job.id};
    } else {
      assert RunningOf(running[job.id := job], tenant) == RunningOf(running, tenant);
    }
  }

  lemma RunningWithout(running: map<nat, Job>, id: nat, tenant: string)
    requires id in running
    ensures |RunningOf(running - {id}, tenant)| ==
            |RunningOf(running, tenant)| - (if tenant == Tenant(running[id]) then 1 else 0)
  {
    if tenant == Tenant(running[id]) {
      assert RunningOf(running - {id}, tenant) == RunningOf(running, tenant) - {id};
      assert id in RunningOf(running, tenant);
    } else {
      assert RunningOf(running - {id}, tenant) == RunningOf(running, tenant);
    }
  }

  /** A running job that ends gives back exactly its slot. */
  lemma FreeAfterRun(cfg: Config, c: Slots, q: Quotas, running: map<nat, Job>, id: nat)
    requires Counters(cfg, c, q, running) && id in running
    ensures Counters(cfg, FreeSlot(c, Tenant(running[id])), q, running - {id})
  {
    RemoveFrom(running, id);
    forall tenant ensures TenantCounter(cfg, FreeSlot(c, Tenant(running[id])), q, running - {id}, tenant) {
      assert TenantCounter(cfg, c, q, running, tenant);
      RunningWithout(running, id, tenant);
    }
  }

  lemma TakeThenFree(cfg: Config, c: Slots, q: Quotas, running: map<nat, Job>, tenant: string)
    requires Counters(cfg, c, q, running)
    ensures Counters(cfg, FreeSlot(TakeSlot(c, tenant), tenant), q, running)
  {
    var c' := FreeSlot(TakeSlot(c, tenant), tenant);
    forall t ensures TenantCounter(cfg, c', q, running, t) {
      assert TenantCounter(cfg, c, q, running, t);
    }
  }

  /** Finishing a skipped job again is paid for by the skip count. */
  lemma FreeTwice(cfg: Config, c: Slots, q: Quotas, running: map<nat, Job>, tenant: string)
    requires Counters(cfg, c, q, running)
    ensures Counters(cfg, FreeSlot(CountSkip(c, tenant), tenant), q, running)
  {
    var c' := FreeSlot(CountSkip(c, tenant), tenant);
    forall t ensures TenantCounter(cfg, c', q, running, t) {
      assert TenantCounter(cfg, c, q, running, t);
    }
  }

  lemma ReapCounters(cfg: Config, c: Slots, q: Quotas, running: map<nat, Job>, expired: nat)
    requires Counters(cfg, c, q, running)
    ensures Counters(cfg, ReapSlots(c, expired), q, running)
  {
    forall t ensures TenantCounter(cfg, ReapSlots(c, expired), q, running, t) {
      assert TenantCounter(cfg, c, q, running, t);
    }
  }

  lemma DequeueIds(queue: seq<Job>, jobs: Jobs, index: nat)
    requires Ledger(queue, jobs) && index < |queue|
    ensures var rest := queue[..index] + queue[index + 1..];
            && QueueIds(rest, jobs)
            && (forall i :: 0 <= i < |rest| ==> rest[i] in queue && rest[i].id != queue[index].id)
            && (forall id: nat :: InQueue(queue, id) && id != queue[index].id ==> InQueue(rest, id))
  {
    var rest := queue[..index] + queue[index + 1..];
    forall id: nat | InQueue(queue, id) && id != queue[index].id ensures InQueue(rest, id) {
      var i :| 0 <= i < |queue| && queue[i].id == id;
      assert rest[if i < index then i else i - 1].id == id;
    }
  }

  lemma StartLedger(queue: seq<Job>, jobs: Jobs, index: nat)
    requires Ledger(queue, jobs) && index < |queue|
    ensures Ledger(queue[..index] + queue[index + 1..], BeginRun(jobs, queue[index]))
  {
    DequeueIds(queue, jobs, index);
  }

  lemma SkipLedger(queue: seq<Job>, jobs: Jobs, index: nat)
    requires Ledger(queue, jobs) && index < |queue|
    ensures Ledger(queue[..index] + queue[index + 1..], EndJob(jobs, queue[index].id, SkippedDuplicate))
  {
    DequeueIds(queue, jobs, index);
  }

  lemma StartAttempts(cfg: Config, queue: seq<Job>, jobs: Jobs, index: nat)
    requires Ledger(queue, jobs) && Attempts(cfg, queue, jobs) && index < |queue|
    ensures Attempts(cfg, queue[..index] + queue[index + 1..], BeginRun(jobs, queue[index]))
  {
    var job := queue[index];
    var rest := queue[..index] + queue[index + 1..];
    var jobs' := BeginRun(jobs, job);
    forall id ensures Runs(jobs', id) == if id == job.id then job.attempt else Runs(jobs, id) {}
    forall i | 0 <= i < |rest|
      ensures 1 <= rest[i].attempt <= cfg.maxAttempts && Runs(jobs', rest[i].id) == rest[i].attempt - 1
    {
      var from := if i < index then i else i + 1;
      assert rest[i] == queue[from] && queue[from].id != job.id;
    }
  }

  lemma SkipAttempts(cfg: Config, queue: seq<Job>, jobs: Jobs, index: nat)
    requires Ledger(queue, jobs) && Attempts(cfg, queue, jobs) && index < |queue|
    ensures Attempts(cfg, queue[..index] + queue[index + 1..], EndJob(jobs, queue[index].id, SkippedDuplicate))
  {
    var rest := queue[..index] + queue[index + 1..];
    var jobs' := EndJob(jobs, queue[index].id, SkippedDuplicate);
    assert jobs'.runs == jobs.runs;
    forall id ensures Runs(jobs', id) == Runs(jobs, id) {}
    forall i | 0 <= i < |rest|
      ensures 1 <= rest[i].attempt <= cfg.maxAttempts && Runs(jobs', rest[i].id) == rest[i].attempt - 1
    {
      assert rest[i] == queue[if i < index then i else i + 1];
    }
  }

  lemma SkipKeepsRunning(queue: seq<Job>, jobs: Jobs, index: nat)
    requires Ledger(queue, jobs) && index < |queue|
    ensures EndJob(jobs, queue[index].id, SkippedDuplicate).running == jobs.running
  {
  }

  lemma StartEffects(marks: Marks, running: map<nat, Job>, job: Job)
    requires EffectsOnce(marks, running) && Effect(job) !in marks.completed
    ensures EffectsOnce(Mark(marks, Effect(job)), running[job.id := job])
  {
  }

  lemma NotRunning(queue: seq<Job>, jobs: Jobs, index: nat)
    requires Ledger(queue, jobs) && index < |queue|
    ensures queue[index].id !in jobs.running
  {
  }

  lemma CoreKeptByStart(cfg: Config, s: State, index: nat)
    requires Core(cfg, s) && Allowed(cfg, s, StartFresh(index))
    ensures Core(cfg, ApplyStart(cfg, s, index))
  {
    hide Counters, Ledger, EffectsOnce, Attempts;
    NotRunning(s.queue, s.jobs, index);
    StartEffects(s.marks, s.jobs.running, s.queue[index]);
    TakeForRun(cfg, s.slots, s.quotas, s.jobs.running, s.queue[index]);
    StartLedger(s.queue, s.jobs, index);
    StartAttempts(cfg, s.queue, s.jobs, index);
  }

  lemma CoreKeptBySkip(cfg: Config, s: State, index: nat)
    requires Core(cfg, s) && Allowed(cfg, s, SkipDuplicate(index))
    ensures Core(cfg, ApplySkip(cfg, s, index))
  {
    hide Counters, Ledger, EffectsOnce, Attempts;
    TakeThenFree(cfg, s.slots, s.quotas, s.jobs.running, Tenant(s.queue[index]));
    SkipKeepsRunning(s.queue, s.jobs, index);
    SkipLedger(s.queue, s.jobs, index);
    SkipAttempts(cfg, s.queue, s.jobs, index);
  }

  lemma CoreKeptByMove(cfg: Config, s: State, m: Move)
    requires Core(cfg, s) && Allowed(cfg, s, m)
    ensures Core(cfg, Apply(cfg, s, m))
  {
    hide Counters, Ledger, EffectsOnce, Attempts;
    match m
    case ReapLeases =>
      ReapCounters(cfg, s.slots, s.quotas, s.jobs.running, |Expired(cfg, s)|);
    case SettleFlag =>
    case StartFresh(index) => CoreKeptByStart(cfg, s, index);
    case SkipDuplicate(index) => CoreKeptBySkip(cfg, s, index);
    case FinishTwice(tenant, taskId) =>
      FreeTwice(cfg, s.slots, s.quotas, s.jobs.running, tenant);
  }
}
