/**
  The state of the asynchronous task queue and its atomic steps, as functions.

  A step is what runs without giving up the event loop: an enqueue, a microtask, the
  completion or failure of a job's run, a retry timer, a stop, a quota change. Finishing a
  job runs the scheduler again, and a job whose effect is already marked finishes while it
  is being started, so the scheduler's functions are mutually recursive, as in the source.
 */
module QueueModel {
  import opened Common

  const LEASE_TIMEOUT_MS := 30000
  const DEFAULT_TENANT_QUOTA := 10

  /** `id` stands for the identity of the job's run callback: one per accepted enqueue. */
  datatype Job = Job(id: nat, taskId: string, tenantId: Option<string>, attempt: nat, token: Option<string>)

  /** `clock(n)` is what the n-th reading of the clock returns: any function will do. */
  datatype Config = Config(
    maxAttempts: nat,
    maxConcurrent: nat,
    maxConcurrentPerTenant: Option<nat>,
    maxQueueDepth: nat,
    clock: nat -> int)

  /** The constructor raises every limit to at least one. */
  predicate ValidConfig(cfg: Config) {
    && cfg.maxAttempts >= 1
    && cfg.maxConcurrent >= 1
    && cfg.maxQueueDepth >= 1
    && (cfg.maxConcurrentPerTenant.Some? ==> cfg.maxConcurrentPerTenant.value >= 1)
  }

  datatype Outcome = Completed | DeadLettered | SkippedDuplicate

  /**
    The two in-flight counters, and the occasions on which they are lowered without a running job
    ending: a reaped lease, and the second finish of a skipped job. `lost` and `lostByTenant`
    count those at which the counter was above zero, so that it really fell.
   */
  datatype Slots = Slots(
    inflight: nat,
    byTenant: map<string, nat>,
    reaps: nat,
    skips: nat,
    skipsByTenant: map<string, nat>,
    lost: nat,
    lostByTenant: map<string, nat>)

  /** What a dead-letter callback is told. */
  datatype DeadLetter = DeadLetter(taskId: string, tenantId: Option<string>, attempts: nat)

  /** The exactly-once marks, and the effects of the runs that succeeded, in order. */
  datatype Marks = Marks(completed: set<string>, succeeded: seq<string>)

  /** The quota table; the highest quota each tenant has had; the tenants whose quota was lowered. */
  datatype Quotas = Quotas(current: map<string, nat>, peak: map<string, nat>, lowered: set<string>)

  /**
    What the event loop holds for the queue: the runs really in progress, the jobs waiting for
    a retry timer and the timers still armed; and how every other accepted job ended.
   */
  datatype Jobs = Jobs(
    running: map<nat, Job>,
    waiting: map<nat, Job>,
    armed: set<nat>,
    settled: map<nat, Outcome>,
    runs: map<nat, nat>,
    nextId: nat)

  datatype State = State(
    queue: seq<Job>,
    slots: Slots,
    leasedJobs: map<string, int>,
    marks: Marks,
    quotas: Quotas,
    pendingRetry: int,
    processing: bool,
    active: bool,
    jobs: Jobs,
    microtasks: nat,
    clockReads: nat)

  function Init(): State {
    State([], Slots(0, map[], 0, 0, map[], 0, map[]), map[], Marks({}, []), Quotas(map[], map[], {}), 0, false, true,
          Jobs(map[], map[], {}, map[], map[], 0), 0, 0)
  }

  function Count(m: map<string, nat>, key: string): nat {
    if key in m then m[key] else 0
  }

  function Tenant(job: Job): string {
    TenantKey(job.tenantId)
  }

  /** The exactly-once token, or one made from the task id. */
  function Effect(job: Job): string {
    if job.token.Some? then job.token.value else "effect:" + job.taskId
  }

  function DefaultQuota(cfg: Config): nat {
    if cfg.maxConcurrentPerTenant.Some? then cfg.maxConcurrentPerTenant.value else DEFAULT_TENANT_QUOTA
  }

  function QuotaOf(cfg: Config, table: map<string, nat>, tenant: string): nat {
    if tenant in table then table[tenant] else DefaultQuota(cfg)
  }

  predicate UnderQuota(cfg: Config, s: State, job: Job) {
    Count(s.slots.byTenant, Tenant(job)) < QuotaOf(cfg, s.quotas.current, Tenant(job))
  }

  /** The first queued job from `index` on whose tenant is under its quota, or -1. */
  function FindRunnableFrom(cfg: Config, s: State, index: nat): (r: int)
    requires index <= |s.queue|
    ensures -1 <= r < |s.queue|
    ensures r >= 0 ==> index <= r && Count(s.slots.byTenant, Tenant(s.queue[r])) < QuotaOf(cfg, s.quotas.current, Tenant(s.queue[r]))
    ensures forall i :: index <= i < (if r < 0 then |s.queue| else r) ==>
              Count(s.slots.byTenant, Tenant(s.queue[i])) >= QuotaOf(cfg, s.quotas.current, Tenant(s.queue[i]))
    decreases |s.queue| - index
  {
    if index == |s.queue| then -1
    else if UnderQuota(cfg, s, s.queue[index]) then index
    else FindRunnableFrom(cfg, s, index + 1)
  }

  function Dequeue(s: State, index: nat): State
    requires index < |s.queue|
  {
    s.(queue := s.queue[..index] + s.queue[index + 1..])
  }

  ghost function Expired(cfg: Config, s: State): set<string> {
    set taskId | taskId in s.leasedJobs && cfg.clock(s.clockReads) - s.leasedJobs[taskId] > LEASE_TIMEOUT_MS
  }

  function ReapSlots(c: Slots, expired: nat): Slots {
    c.(inflight := Max(0, c.inflight - expired), reaps := c.reaps + expired, lost := c.lost + Min(c.inflight, expired))
  }

  /** Drops the expired leases and lowers `inflight` for each, but no tenant's count. */
  ghost function Reap(cfg: Config, s: State): State {
    var expired := Expired(cfg, s);
    var slots := ReapSlots(s.slots, |expired|);
    s.(leasedJobs := s.leasedJobs - expired,
       slots := slots,
       processing := s.processing && !(expired != {} && s.queue == [] && slots.inflight == 0),
       clockReads := s.clockReads + 1)
  }

  function Settle(s: State): State {
    if s.queue == [] && s.slots.inflight == 0 then s.(processing := false) else s
  }

  function TakeSlot(c: Slots, tenant: string): Slots {
    c.(inflight := c.inflight + 1, byTenant := c.byTenant[tenant := Count(c.byTenant, tenant) + 1])
  }

  /** Both counters stop at zero. */
  function FreeSlot(c: Slots, tenant: string): Slots {
    var current := Count(c.byTenant, tenant);
    c.(inflight := Max(0, c.inflight - 1),
       byTenant := if current <= 1 then c.byTenant - {tenant} else c.byTenant[tenant := current - 1])
  }

  function CountSkip(c: Slots, tenant: string): Slots {
    var falls := if c.inflight > 0 then 1 else 0;
    var fallsHere := if Count(c.byTenant, tenant) > 0 then 1 else 0;
    c.(skips := c.skips + 1,
       skipsByTenant := c.skipsByTenant[tenant := Count(c.skipsByTenant, tenant) + 1],
       lost := c.lost + falls,
       lostByTenant := c.lostByTenant[tenant := Count(c.lostByTenant, tenant) + fallsHere])
  }

  /** The slot and the lease that starting a job takes. */
  function Acquire(cfg: Config, s: State, job: Job): State {
    s.(slots := TakeSlot(s.slots, Tenant(job)),
       leasedJobs := s.leasedJobs[job.taskId := cfg.clock(s.clockReads)],
       clockReads := s.clockReads + 1)
  }

  /** What finishing a job gives back; an empty task id keeps its lease. */
  function Release(s: State, tenant: string, taskId: string): State {
    s.(slots := FreeSlot(s.slots, tenant),
       leasedJobs := if taskId != "" then s.leasedJobs - {taskId} else s.leasedJobs)
  }

  function EndJob(jobs: Jobs, id: nat, outcome: Outcome): Jobs {
    jobs.(running := jobs.running - {id}, waiting := jobs.waiting - {id}, settled := jobs.settled[id := outcome])
  }

  function BeginRun(jobs: Jobs, job: Job): Jobs {
    jobs.(running := jobs.running[job.id := job], runs := jobs.runs[job.id := Runs(jobs, job.id) + 1])
  }

  /** How often the job's run has been called. */
  function Runs(jobs: Jobs, id: nat): nat {
    if id in jobs.runs then jobs.runs[id] else 0
  }

  function Mark(marks: Marks, effect: string): Marks {
    marks.(completed := marks.completed + {effect})
  }

  /**
    A job whose effect is already marked is finished at once, and once more on the way out.
    Otherwise the effect is marked and the job's run is called.
   */
  ghost function StartJob(cfg: Config, s: State, job: Job): (r: State)
    ensures |r.queue| <= |s.queue|
    decreases |s.queue|, 3
  {
    var a := Acquire(cfg, s, job);
    if Effect(job) in s.marks.completed then
      var skipped := a.(jobs := EndJob(a.jobs, job.id, SkippedDuplicate));
      var first := FinishJob(cfg, skipped, Tenant(job), job.taskId);
      FinishJob(cfg, first.(slots := CountSkip(first.slots, Tenant(job))), Tenant(job), job.taskId)
    else
      a.(marks := Mark(a.marks, Effect(job)), jobs := BeginRun(a.jobs, job))
  }

  ghost function FinishJob(cfg: Config, s: State, tenant: string, taskId: string): (r: State)
    ensures |r.queue| <= |s.queue|
    decreases |s.queue|, 2
  {
    MaybeRunJobs(cfg, Release(s, tenant, taskId))
  }

  ghost function MaybeRunJobs(cfg: Config, s: State): (r: State)
    ensures |r.queue| <= |s.queue|
    decreases |s.queue|, 1
  {
    Settle(Launch(cfg, Reap(cfg, s)))
  }

  /** Starts runnable jobs until the global limit is reached or none is left. */
  ghost function Launch(cfg: Config, s: State): (r: State)
    ensures |r.queue| <= |s.queue|
    decreases |s.queue|, 0
  {
    if s.slots.inflight < cfg.maxConcurrent then
      var index := FindRunnableFrom(cfg, s, 0);
      if index < 0 then s
      else Launch(cfg, StartJob(cfg, Dequeue(s, index), s.queue[index]))
    else s
  }

  function Kickoff(s: State): State {
    if s.processing then s else s.(processing := true, microtasks := s.microtasks + 1)
  }

  datatype Action =
    | Enqueue(taskId: string, tenantId: Option<string>, token: Option<string>)
    | MicrotaskFires
    | RunSucceeds(id: nat)
    | RunThrows(id: nat)
    | TimerFires(id: nat)
    | Stop
    | SetTenantQuota(tenant: string, limit: int)
    | MarkEffectComplete(effect: string)

  predicate Enabled(s: State, a: Action) {
    match a
    case MicrotaskFires => s.microtasks > 0
    case RunSucceeds(id) => id in s.jobs.running
    case RunThrows(id) => id in s.jobs.running
    case TimerFires(id) => id in s.jobs.armed && id in s.jobs.waiting
    case _ => true
  }

  function DoEnqueue(cfg: Config, s: State, taskId: string, tenantId: Option<string>, token: Option<string>): State {
    if |s.queue| >= cfg.maxQueueDepth then s
    else
      var job := Job(s.jobs.nextId, taskId, tenantId, 1, token);
      Kickoff(s.(queue := s.queue + [job], jobs := s.jobs.(nextId := s.jobs.nextId + 1)))
  }

  ghost function DoSucceed(cfg: Config, s: State, job: Job): State {
    var done := s.(jobs := EndJob(s.jobs, job.id, Completed),
                   marks := s.marks.(succeeded := s.marks.succeeded + [Effect(job)]));
    FinishJob(cfg, done, Tenant(job), job.taskId)
  }

  function AwaitRetry(jobs: Jobs, job: Job): Jobs {
    jobs.(running := jobs.running - {job.id},
          waiting := jobs.waiting[job.id := job],
          armed := jobs.armed + {job.id})
  }

  function Unmark(marks: Marks, effect: string): Marks {
    marks.(completed := marks.completed - {effect})
  }

  /** A failed run with attempts left gives its effect mark back and waits; otherwise it is dead-lettered. */
  ghost function DoThrow(cfg: Config, s: State, job: Job): State {
    if job.attempt < cfg.maxAttempts then
      var cleared := s.(jobs := AwaitRetry(s.jobs, job), marks := Unmark(s.marks, Effect(job)));
      var finished := FinishJob(cfg, cleared, Tenant(job), job.taskId);
      finished.(pendingRetry := finished.pendingRetry + 1)
    else
      FinishJob(cfg, s.(jobs := EndJob(s.jobs, job.id, DeadLettered)), Tenant(job), job.taskId)
  }

  /** A timer that fires after `stop` leaves its job, and the pending count, where they are. */
  function DoTimer(cfg: Config, s: State, job: Job): State {
    var disarmed := s.jobs.(armed := s.jobs.armed - {job.id});
    if !s.active then s.(jobs := disarmed)
    else if |s.queue| >= cfg.maxQueueDepth then
      s.(pendingRetry := s.pendingRetry - 1, jobs := EndJob(disarmed, job.id, DeadLettered))
    else
      Kickoff(s.(pendingRetry := s.pendingRetry - 1,
                 jobs := disarmed.(waiting := disarmed.waiting - {job.id}),
                 queue := s.queue + [job.(attempt := job.attempt + 1)]))
  }

  function DoSetQuota(cfg: Config, s: State, tenantId: string, limit: int): State {
    var tenant := TenantKey(Some(tenantId));
    var quota := Max(1, limit);
    var q := s.quotas;
    s.(quotas := Quotas(
         q.current[tenant := quota],
         q.peak[tenant := Max(QuotaOf(cfg, q.peak, tenant), quota)],
         if quota < QuotaOf(cfg, q.current, tenant) then q.lowered + {tenant} else q.lowered))
  }

  ghost function Step(cfg: Config, s: State, a: Action): State
    requires Enabled(s, a)
  {
    match a
    case Enqueue(taskId, tenantId, token) => DoEnqueue(cfg, s, taskId, tenantId, token)
    case MicrotaskFires => MaybeRunJobs(cfg, s.(microtasks := s.microtasks - 1))
    case RunSucceeds(id) => DoSucceed(cfg, s, s.jobs.running[id])
    case RunThrows(id) => DoThrow(cfg, s, s.jobs.running[id])
    case TimerFires(id) => DoTimer(cfg, s, s.jobs.waiting[id])
    case Stop => s.(active := false)
    case SetTenantQuota(tenant, limit) => DoSetQuota(cfg, s, tenant, limit)
    case MarkEffectComplete(effect) => s.(marks := Mark(s.marks, effect))
  }

  /** `acts` can be taken one after the other from `s`. */
  ghost predicate Takes(cfg: Config, s: State, acts: seq<Action>)
    decreases |acts|
  {
    acts == [] || (Enabled(s, acts[0]) && Takes(cfg, Step(cfg, s, acts[0]), acts[1..]))
  }

  ghost function After(cfg: Config, s: State, acts: seq<Action>): State
    requires Takes(cfg, s, acts)
    decreases |acts|
  {
    if acts == [] then s else After(cfg, Step(cfg, s, acts[0]), acts[1..])
  }
}
