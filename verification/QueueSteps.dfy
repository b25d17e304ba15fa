/**
  What each step of the queue comes to: which jobs a scheduler pass leaves, in what order it takes
  them, where a job goes when its run or its timer ends, and what becomes of quotas and leases.
 */
module QueueSteps {
  import opened Common
  import opened QueueModel
  import opened QueueProofs
  import opened QueueInvariant

  // ---------- a pass leaves nothing that could be started ----------

  /** After a pass the global limit is reached, or every job still queued has a tenant at its quota. */
  lemma PassLeavesNothingStartable(cfg: Config, s: State)
    ensures var r := MaybeRunJobs(cfg, s);
            r.slots.inflight >= cfg.maxConcurrent || AllAtQuota(cfg, r.queue, r.slots, r.quotas)
  {
    LaunchStopsOnlyWhenStuck(cfg, Reap(cfg, s));
  }

  // ---------- a pass takes each tenant's jobs in order ----------

  predicate Subsequence(a: seq<Job>, b: seq<Job>) {
    a == [] || (b != [] && if a[0] == b[0] then Subsequence(a[1..], b[1..]) else Subsequence(a, b[1..]))
  }

  lemma {:induction false} SubsequenceOfItself(a: seq<Job>)
    ensures Subsequence(a, a)
  {
    if a != [] {
      SubsequenceOfItself(a[1..]);
    }
  }

  lemma {:induction false} InLonger(a: seq<Job>, b: seq<Job>)
    requires b != [] && Subsequence(a, b[1..])
    ensures Subsequence(a, b)
    decreases |b|, 0
  {
    if a != [] && a[0] == b[0] {
      if a[0] == b[1..][0] {
        InLonger(a[1..], b[1..]);
      } else {
        TailIsSubsequence(a, b[1..]);
      }
    }
  }

  lemma {:induction false} TailIsSubsequence(a: seq<Job>, b: seq<Job>)
    requires a != [] && Subsequence(a, b)
    ensures Subsequence(a[1..], b)
    decreases |b|, 1
  {
    if a[0] == b[0] {
      InLonger(a[1..], b);
    } else {
      TailIsSubsequence(a, b[1..]);
      InLonger(a[1..], b);
    }
  }

  lemma {:induction false} WithoutOne(a: seq<Job>, b: seq<Job>, i: nat)
    requires i < |a| && Subsequence(a, b)
    ensures Subsequence(a[..i] + a[i + 1..], b)
    decreases |b|
  {
    var rest := a[..i] + a[i + 1..];
    if i == 0 {
      assert rest == a[1..];
      TailIsSubsequence(a, b);
    } else {
      assert rest[0] == a[0];
      if a[0] == b[0] {
        assert rest[1..] == a[1..][..i - 1] + a[1..][i..];
        WithoutOne(a[1..], b[1..], i - 1);
      } else {
        WithoutOne(a, b[1..], i);
      }
    }
  }

  ghost predicate Distinct(queue: seq<Job>) {
    forall i, j :: 0 <= i < j < |queue| ==> queue[i] != queue[j]
  }

  lemma {:induction false} MembersOf(a: seq<Job>, b: seq<Job>)
    requires Subsequence(a, b)
    ensures forall x :: x in a ==> x in b
  {
    if a != [] {
      assert b == [b[0]] + b[1..];
      if a[0] == b[0] {
        assert a == [a[0]] + a[1..];
        MembersOf(a[1..], b[1..]);
      } else {
        MembersOf(a, b[1..]);
      }
    }
  }

  /** A subsequence has its members in the same order. */
  lemma {:induction false} OrderKept(a: seq<Job>, b: seq<Job>, m: nat, n: nat, i: nat, j: nat)
    requires Subsequence(a, b) && Distinct(a) && Distinct(b)
    requires m < |a| && n < |a| && i < j < |b| && a[m] == b[i] && a[n] == b[j]
    ensures m < n
    decreases |b|
  {
    if a[0] == b[0] {
      if i > 0 {
        assert m > 0 && n > 0;
        OrderKept(a[1..], b[1..], m - 1, n - 1, i - 1, j - 1);
      } else {
        assert m == 0 && n != 0;
      }
    } else {
      MembersOf(a, b[1..]);
      assert forall k :: 0 <= k < |b[1..]| ==> b[1..][k] != b[0];
      assert a[m] in a;
      OrderKept(a, b[1..], m, n, i - 1, j - 1);
    }
  }

  /** Of two jobs of one tenant the earlier is never left behind by the later. */
  ghost predicate FirstComeFirstServed(before: seq<Job>, after: seq<Job>) {
    forall i, j :: 0 <= i < j < |before| && Tenant(before[i]) == Tenant(before[j]) && before[i] in after ==> before[j] in after
  }

  ghost predicate InTurn(before: seq<Job>, after: seq<Job>) {
    Subsequence(after, before) && FirstComeFirstServed(before, after)
  }

  lemma TakingTheFirst(before: seq<Job>, queue: seq<Job>, index: nat)
    requires Distinct(before) && Distinct(queue) && InTurn(before, queue) && index < |queue|
    requires forall i :: 0 <= i < index ==> Tenant(queue[i]) != Tenant(queue[index])
    ensures InTurn(before, queue[..index] + queue[index + 1..])
  {
    var rest := queue[..index] + queue[index + 1..];
    WithoutOne(queue, before, index);
    forall i, j | 0 <= i < j < |before| && Tenant(before[i]) == Tenant(before[j]) && before[i] in rest
      ensures before[j] in rest
    {
      assert before[i] in queue && before[j] in queue;
      var m :| 0 <= m < |queue| && queue[m] == before[i];
      var n :| 0 <= n < |queue| && queue[n] == before[j];
      OrderKept(queue, before, m, n, i, j);
      assert n != index;
      assert rest[if n < index then n else n - 1] == before[j];
    }
  }

  lemma MoveInTurn(cfg: Config, before: seq<Job>, s: State, m: Move)
    requires Core(cfg, s) && Distinct(before) && InTurn(before, s.queue) && Allowed(cfg, s, m)
    ensures InTurn(before, Apply(cfg, s, m).queue)
  {
    hide Counters, EffectsOnce, Attempts, InTurn;
    if m.StartFresh? || m.SkipDuplicate? {
      TakingTheFirst(before, s.queue, m.index);
    }
  }

  /** A pass keeps the order of the jobs it leaves, and takes each tenant's jobs first come, first served. */
  lemma PassTakesInTurn(cfg: Config, s: State)
    requires Core(cfg, s)
    ensures var r := MaybeRunJobs(cfg, s);
            Subsequence(r.queue, s.queue) && FirstComeFirstServed(s.queue, r.queue)
  {
    QueueIsDistinct(cfg, s);
    SubsequenceOfItself(s.queue);
    hide Core;
    var p := (t: State) => Core(cfg, t) && InTurn(s.queue, t.queue);
    forall t, m | p(t) && Allowed(cfg, t, m) ensures p(Apply(cfg, t, m)) {
      CoreKeptByMove(cfg, t, m);
      MoveInTurn(cfg, s.queue, t, m);
    }
    SchedulerKeeps(cfg, p, s);
  }

  lemma QueueIsDistinct(cfg: Config, s: State)
    requires Core(cfg, s)
    ensures Distinct(s.queue)
  {
  }

  // ---------- what else a pass does ----------

  ghost predicate Idle(s: State) {
    s.queue == [] && s.slots.inflight == 0
  }

  ghost predicate FlagFollows(before: State, s: State) {
    (s.processing ==> before.processing) && (before.processing && !s.processing ==> Idle(s))
  }

  lemma MoveFlag(cfg: Config, before: State, s: State, m: Move)
    requires Core(cfg, s) && FlagFollows(before, s) && Allowed(cfg, s, m)
    ensures FlagFollows(before, Apply(cfg, s, m))
  {
    hide Core;
  }

  /** A pass puts the processing flag down exactly when it leaves nothing queued and nothing counted in flight. */
  lemma PassPutsFlagDownIff(cfg: Config, s: State)
    requires Core(cfg, s)
    ensures var r := MaybeRunJobs(cfg, s); r.processing <==> s.processing && !Idle(r)
  {
    var p := (t: State) => Core(cfg, t) && FlagFollows(s, t);
    forall t, m | p(t) && Allowed(cfg, t, m) ensures p(Apply(cfg, t, m)) {
      CoreKeptByMove(cfg, t, m);
      MoveFlag(cfg, s, t, m);
    }
    SchedulerKeeps(cfg, p, s);
    PassSettles(cfg, s);
  }

  lemma PassSettles(cfg: Config, s: State)
    ensures var r := MaybeRunJobs(cfg, s); Idle(r) ==> !r.processing
  {
  }

  /** No tenant is listed with a count of zero. */
  ghost predicate NoIdleTenants(s: State) {
    forall tenant :: tenant in s.slots.byTenant ==> s.slots.byTenant[tenant] > 0
  }

  lemma PassKeepsTenants(cfg: Config, s: State)
    requires NoIdleTenants(s)
    ensures NoIdleTenants(MaybeRunJobs(cfg, s))
  {
    var p := (t: State) => NoIdleTenants(t);
    SchedulerKeeps(cfg, p, s);
  }

  lemma StepKeepsTenants(cfg: Config, s: State, a: Action)
    requires NoIdleTenants(s) && Enabled(s, a)
    ensures NoIdleTenants(Step(cfg, s, a))
  {
    hide MaybeRunJobs;
    match a
    case MicrotaskFires => PassKeepsTenants(cfg, s.(microtasks := s.microtasks - 1));
    case RunSucceeds(id) => FinishKeepsTenants(cfg, s, s.jobs.running[id]);
    case RunThrows(id) => FinishKeepsTenants(cfg, s, s.jobs.running[id]);
    case _ =>
  }

  lemma FinishKeepsTenants(cfg: Config, s: State, job: Job)
    requires NoIdleTenants(s)
    ensures forall t: State :: t.slots == s.slots ==> NoIdleTenants(FinishJob(cfg, t, Tenant(job), job.taskId))
  {
    hide MaybeRunJobs;
    forall t: State | t.slots == s.slots ensures NoIdleTenants(FinishJob(cfg, t, Tenant(job), job.taskId)) {
      PassKeepsTenants(cfg, Release(t, Tenant(job), job.taskId));
    }
  }

  /** In every reachable state the tenants listed are those with jobs counted in flight. */
  lemma {:induction false} TenantsListedAreBusy(cfg: Config, s: State, acts: seq<Action>)
    requires NoIdleTenants(s) && Takes(cfg, s, acts)
    ensures NoIdleTenants(After(cfg, s, acts))
    decreases |acts|
  {
    if acts != [] {
      StepKeepsTenants(cfg, s, acts[0]);
      TenantsListedAreBusy(cfg, Step(cfg, s, acts[0]), acts[1..]);
    }
  }

  // ---------- where a job goes ----------

  ghost predicate EndedAs(s: State, id: nat, outcome: Outcome) {
    && id in s.jobs.settled && s.jobs.settled[id] == outcome
    && id !in s.jobs.running && id !in s.jobs.waiting && !InQueue(s.queue, id)
  }

  lemma MoveKeepsEnd(cfg: Config, s: State, m: Move, id: nat, outcome: Outcome)
    requires Core(cfg, s) && EndedAs(s, id, outcome) && Allowed(cfg, s, m)
    ensures EndedAs(Apply(cfg, s, m), id, outcome)
  {
    hide Counters, EffectsOnce, Attempts;
    if m.StartFresh? || m.SkipDuplicate? {
      assert InQueue(s.queue, s.queue[m.index].id);
    }
  }

  lemma PassKeepsEnd(cfg: Config, s: State, id: nat, outcome: Outcome)
    requires Core(cfg, s) && EndedAs(s, id, outcome)
    ensures EndedAs(MaybeRunJobs(cfg, s), id, outcome)
  {
    hide Core, EndedAs;
    var p := (t: State) => Core(cfg, t) && EndedAs(t, id, outcome);
    forall t, m | p(t) && Allowed(cfg, t, m) ensures p(Apply(cfg, t, m)) {
      CoreKeptByMove(cfg, t, m);
      MoveKeepsEnd(cfg, t, m, id, outcome);
    }
    SchedulerKeeps(cfg, p, s);
  }

  lemma RunLeaves(cfg: Config, s: State, id: nat, outcome: Outcome)
    requires Core(cfg, s) && id in s.jobs.running
    ensures EndedAs(s.(jobs := EndJob(s.jobs, id, outcome)), id, outcome)
  {
  }

  /** A run that resolves ends its job as completed, and its effect is the next to have succeeded. */
  lemma ResolvedRunCompletes(cfg: Config, s: State, id: nat)
    requires Inv(cfg, s) && id in s.jobs.running
    ensures var job := s.jobs.running[id];
            var r := Step(cfg, s, Action.RunSucceeds(id));
            && EndedAs(r, id, Completed)
            && r.marks.succeeded == s.marks.succeeded + [if job.token.Some? then job.token.value else "effect:" + job.taskId]
  {
    hide Core, MaybeRunJobs, EndedAs;
    NotWaiting(cfg, s, id);
    RunLeaves(cfg, s, id, Completed);
    EndKeepsCore(cfg, s, id, Completed);
    var job := s.jobs.running[id];
    var ended := Release(s.(jobs := EndJob(s.jobs, id, Completed), marks := MarksAfter(s.marks, job, Completed)),
                         Tenant(job), job.taskId);
    SameJobsSameEnd(s.(jobs := EndJob(s.jobs, id, Completed)), ended, id, Completed);
    PassKeepsEnd(cfg, ended, id, Completed);
    SchedulerKeepsCore(cfg, ended);
  }

  lemma SameJobsSameEnd(s: State, t: State, id: nat, outcome: Outcome)
    requires EndedAs(s, id, outcome) && t.jobs == s.jobs && t.queue == s.queue
    ensures EndedAs(t, id, outcome)
  {
  }

  /** A run that rejects is retried exactly while it has attempts left: its job waits for a timer; else it is dead-lettered. */
  lemma RejectedRunRetriesIff(cfg: Config, s: State, id: nat)
    requires ValidConfig(cfg) && Inv(cfg, s) && id in s.jobs.running
    ensures var job := s.jobs.running[id];
            var r := Step(cfg, s, Action.RunThrows(id));
            if job.attempt < cfg.maxAttempts
            then id in r.jobs.armed && id in r.jobs.waiting && r.jobs.waiting[id] == job
            else EndedAs(r, id, DeadLettered)
  {
    hide Core, FinishJob, EndedAs;
    NotWaiting(cfg, s, id);
    if s.jobs.running[id].attempt < cfg.maxAttempts {
      RetriedRunWaits(cfg, s, id);
    } else {
      LastRunEnds(cfg, s, id);
    }
  }

  lemma RetriedRunWaits(cfg: Config, s: State, id: nat)
    requires Core(cfg, s) && id in s.jobs.running && s.jobs.running[id].attempt < cfg.maxAttempts
    ensures var job := s.jobs.running[id];
            var r := DoThrow(cfg, s, job);
            id in r.jobs.armed && id in r.jobs.waiting && r.jobs.waiting[id] == job
  {
    hide Core, MaybeRunJobs;
    NotWaiting(cfg, s, id);
    RetryKeepsCore(cfg, s, id);
    SchedulerKeepsCore(cfg, ClearedForRetry(s, s.jobs.running[id]));
  }

  lemma LastRunEnds(cfg: Config, s: State, id: nat)
    requires Core(cfg, s) && id in s.jobs.running && s.jobs.running[id].attempt >= cfg.maxAttempts
    ensures EndedAs(DoThrow(cfg, s, s.jobs.running[id]), id, DeadLettered)
  {
    hide Core, MaybeRunJobs, EndedAs;
    NotWaiting(cfg, s, id);
    var job := s.jobs.running[id];
    RunLeaves(cfg, s, id, DeadLettered);
    EndKeepsCore(cfg, s, id, DeadLettered);
    var ended := Release(s.(jobs := EndJob(s.jobs, id, DeadLettered), marks := MarksAfter(s.marks, job, DeadLettered)),
                         Tenant(job), job.taskId);
    SameJobsSameEnd(s.(jobs := EndJob(s.jobs, id, DeadLettered)), ended, id, DeadLettered);
    PassKeepsEnd(cfg, ended, id, DeadLettered);
  }

  /** A timer puts its job at the end of the queue as its next attempt, unless the queue is full or was stopped. */
  lemma TimerRequeuesIff(cfg: Config, s: State, id: nat)
    requires Inv(cfg, s) && id in s.jobs.armed && id in s.jobs.waiting
    ensures var job := s.jobs.waiting[id];
            var r := Step(cfg, s, Action.TimerFires(id));
            && id !in r.jobs.armed
            && (!s.active ==> r.queue == s.queue && r.jobs.waiting == s.jobs.waiting && r.pendingRetry == s.pendingRetry)
            && (s.active && |s.queue| >= cfg.maxQueueDepth ==> r.queue == s.queue && EndedAs(r, id, DeadLettered))
            && (s.active && |s.queue| < cfg.maxQueueDepth ==>
                  && r.queue == s.queue + [Job(id, job.taskId, job.tenantId, job.attempt + 1, job.token)]
                  && id !in r.jobs.waiting)
  {
    EndWaitOnly(cfg, s, id);
    hide DoTimer, DoEnqueue, DoSucceed, DoThrow, DoSetQuota, MaybeRunJobs, EndedAs, Ledger, Counters, EffectsOnce, Attempts, Awake, Retries;
    WaitingIsNotQueued(s.queue, s.jobs, id);
    TimerCases(cfg, s, s.jobs.waiting[id]);
  }

  lemma TimerCases(cfg: Config, s: State, job: Job)
    requires job.id in s.jobs.waiting && job.id !in s.jobs.running && !InQueue(s.queue, job.id)
    ensures var r := DoTimer(cfg, s, job);
            && job.id !in r.jobs.armed
            && (!s.active ==> r.queue == s.queue && r.jobs.waiting == s.jobs.waiting && r.pendingRetry == s.pendingRetry)
            && (s.active && |s.queue| >= cfg.maxQueueDepth ==> r.queue == s.queue && EndedAs(r, job.id, DeadLettered))
            && (s.active && |s.queue| < cfg.maxQueueDepth ==>
                  && r.queue == s.queue + [Job(job.id, job.taskId, job.tenantId, job.attempt + 1, job.token)]
                  && job.id !in r.jobs.waiting)
  {
    hide InQueue;
  }

  lemma WaitingIsNotQueued(queue: seq<Job>, jobs: Jobs, id: nat)
    requires Ledger(queue, jobs) && id in jobs.waiting
    ensures !InQueue(queue, id)
  {
  }

  /** A job that the queue has room for is appended as a first attempt, and a pass is due unless one is under way. */
  lemma EnqueueAppendsIff(cfg: Config, s: State, taskId: string, tenantId: Option<string>, token: Option<string>)
    ensures var r := Step(cfg, s, Action.Enqueue(taskId, tenantId, token));
            if |s.queue| >= cfg.maxQueueDepth then r == s
            else && r.queue == s.queue + [Job(s.jobs.nextId, taskId, tenantId, 1, token)]
                 && r.processing && r.microtasks == s.microtasks + (if s.processing then 0 else 1)
                 && r.slots == s.slots && r.marks == s.marks && r.quotas == s.quotas && r.leasedJobs == s.leasedJobs
  {
  }

  // ---------- stopping ----------

  lemma StepStops(cfg: Config, s: State, a: Action)
    requires ValidConfig(cfg) && Inv(cfg, s) && Enabled(s, a)
    ensures Step(cfg, s, a).active <==> s.active && !a.Stop?
  {
    hide Core, MaybeRunJobs, Awake, Retries;
    match a
    case MicrotaskFires =>
      DueKeepsCore(cfg, s);
      SchedulerKeepsCore(cfg, s.(microtasks := s.microtasks - 1));
    case RunSucceeds(id) =>
      NotWaiting(cfg, s, id);
      EndKeepsQuotas(cfg, s, id, Completed);
    case RunThrows(id) =>
      NotWaiting(cfg, s, id);
      if s.jobs.running[id].attempt < cfg.maxAttempts {
        RetryKeepsCore(cfg, s, id);
        SchedulerKeepsCore(cfg, ClearedForRetry(s, s.jobs.running[id]));
      } else {
        EndKeepsQuotas(cfg, s, id, DeadLettered);
      }
    case _ =>
  }

  /** The queue is active, so that retry timers requeue their jobs, exactly until it is first stopped. */
  lemma {:induction false} ActiveUntilStopped(cfg: Config, s: State, acts: seq<Action>)
    requires ValidConfig(cfg) && Inv(cfg, s) && Takes(cfg, s, acts)
    ensures After(cfg, s, acts).active <==> s.active && forall i :: 0 <= i < |acts| ==> !acts[i].Stop?
    decreases |acts|
  {
    hide Inv, Step;
    if acts != [] {
      StepKeepsInv(cfg, s, acts[0]);
      StepStops(cfg, s, acts[0]);
      ActiveUntilStopped(cfg, Step(cfg, s, acts[0]), acts[1..]);
      assert forall i :: 0 < i < |acts| ==> acts[i] == acts[1..][i - 1];
    }
  }

  // ---------- quotas ----------

  /** The quota that a tenant has after the actions, if it had `quota` before: the last one set, and at least one. */
  function QuotaFrom(quota: int, acts: seq<Action>, tenant: string): int
    decreases |acts|
  {
    if acts == [] then quota
    else if acts[0].SetTenantQuota? && TenantKey(Some(acts[0].tenant)) == tenant
    then QuotaFrom(if acts[0].limit < 1 then 1 else acts[0].limit, acts[1..], tenant)
    else QuotaFrom(quota, acts[1..], tenant)
  }

  lemma StepSetsQuota(cfg: Config, s: State, a: Action, tenant: string)
    requires ValidConfig(cfg) && Inv(cfg, s) && Enabled(s, a)
    ensures QuotaOf(cfg, Step(cfg, s, a).quotas.current, tenant) == QuotaFrom(QuotaOf(cfg, s.quotas.current, tenant), [a], tenant)
  {
    hide Core, MaybeRunJobs, Awake, Retries;
    assert [a][1..] == [];
    match a
    case MicrotaskFires =>
      DueKeepsCore(cfg, s);
      SchedulerKeepsCore(cfg, s.(microtasks := s.microtasks - 1));
    case RunSucceeds(id) =>
      NotWaiting(cfg, s, id);
      EndKeepsQuotas(cfg, s, id, Completed);
    case RunThrows(id) =>
      NotWaiting(cfg, s, id);
      if s.jobs.running[id].attempt < cfg.maxAttempts {
        RetryKeepsCore(cfg, s, id);
        SchedulerKeepsCore(cfg, ClearedForRetry(s, s.jobs.running[id]));
      } else {
        EndKeepsQuotas(cfg, s, id, DeadLettered);
      }
    case _ =>
  }

  lemma DueKeepsCore(cfg: Config, s: State)
    requires Core(cfg, s) && s.microtasks > 0
    ensures Core(cfg, s.(microtasks := s.microtasks - 1))
  {
  }

  lemma EndKeepsQuotas(cfg: Config, s: State, id: nat, outcome: Outcome)
    requires Core(cfg, s) && id in s.jobs.running
    ensures var job := s.jobs.running[id];
            FinishJob(cfg, s.(jobs := EndJob(s.jobs, id, outcome), marks := MarksAfter(s.marks, job, outcome)),
                      Tenant(job), job.taskId).quotas == s.quotas
    ensures var job := s.jobs.running[id];
            FinishJob(cfg, s.(jobs := EndJob(s.jobs, id, outcome), marks := MarksAfter(s.marks, job, outcome)),
                      Tenant(job), job.taskId).active == s.active
  {
    hide Core, MaybeRunJobs;
    var job := s.jobs.running[id];
    EndKeepsCore(cfg, s, id, outcome);
    SchedulerKeepsCore(cfg, Release(s.(jobs := EndJob(s.jobs, id, outcome), marks := MarksAfter(s.marks, job, outcome)),
                                    Tenant(job), job.taskId));
  }

  lemma {:induction false} QuotaFollows(cfg: Config, s: State, acts: seq<Action>, tenant: string)
    requires ValidConfig(cfg) && Inv(cfg, s) && Takes(cfg, s, acts)
    ensures QuotaOf(cfg, After(cfg, s, acts).quotas.current, tenant) == QuotaFrom(QuotaOf(cfg, s.quotas.current, tenant), acts, tenant)
    decreases |acts|
  {
    hide Inv, Step, QuotaOf;
    if acts != [] {
      StepKeepsInv(cfg, s, acts[0]);
      StepSetsQuota(cfg, s, acts[0], tenant);
      assert [acts[0]][1..] == [];
      QuotaFollows(cfg, Step(cfg, s, acts[0]), acts[1..], tenant);
    }
  }

  /** After any run a tenant's quota is the one last set for it, or else the configured one, or else ten. */
  lemma QuotaIsTheLastSet(cfg: Config, acts: seq<Action>, tenant: string)
    requires ValidConfig(cfg) && Takes(cfg, Init(), acts)
    ensures var first := if cfg.maxConcurrentPerTenant.Some? then cfg.maxConcurrentPerTenant.value else 10;
            QuotaOf(cfg, After(cfg, Init(), acts).quotas.current, tenant) == QuotaFrom(first, acts, tenant)
  {
    InitInv(cfg);
    QuotaFollows(cfg, Init(), acts, tenant);
  }

  // ---------- leases ----------

  /** A reap drops exactly the leases older than 30 seconds, and lowers the global count for each, no tenant's. */
  lemma ReapDropsOldLeases(cfg: Config, s: State, taskId: string)
    ensures var r := Reap(cfg, s);
            var now := cfg.clock(s.clockReads);
            && (taskId in r.leasedJobs <==> taskId in s.leasedJobs && now <= s.leasedJobs[taskId] + 30000)
            && (taskId in r.leasedJobs ==> r.leasedJobs[taskId] == s.leasedJobs[taskId])
            && r.slots.byTenant == s.slots.byTenant && r.queue == s.queue && r.jobs == s.jobs
  {
  }

  /** Starting a job whose effect is fresh leases its task as of that reading of the clock, and starts its run. */
  lemma StartTakesLease(cfg: Config, s: State, job: Job)
    requires (if job.token.Some? then job.token.value else "effect:" + job.taskId) !in s.marks.completed
    ensures var r := StartJob(cfg, s, job);
            && r.leasedJobs == s.leasedJobs[job.taskId := cfg.clock(s.clockReads)] && r.clockReads == s.clockReads + 1
            && r.jobs.running == s.jobs.running[job.id := job] && r.queue == s.queue
            && r.slots.inflight == s.slots.inflight + 1
  {
  }

  /** Finishing gives a named task's lease back, and no other. */
  lemma ReleaseDropsLease(s: State, tenant: string, taskId: string, other: string)
    ensures var r := Release(s, tenant, taskId);
            && (other in r.leasedJobs <==> other in s.leasedJobs && (other != taskId || taskId == ""))
            && (other in r.leasedJobs ==> r.leasedJobs[other] == s.leasedJobs[other])
            && r.queue == s.queue && r.jobs == s.jobs && r.marks == s.marks
  {
  }
}
