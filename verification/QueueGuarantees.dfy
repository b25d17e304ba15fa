/** The queue's promises, for every run from the empty queue. */
module QueueGuarantees {
  import opened Common
  import opened QueueModel
  import opened QueueProofs
  import opened QueueInvariant

  lemma ReachableInv(cfg: Config, acts: seq<Action>)
    requires ValidConfig(cfg) && Takes(cfg, Init(), acts)
    ensures Inv(cfg, After(cfg, Init(), acts))
  {
    InitInv(cfg);
    EveryRunKeepsInv(cfg, Init(), acts);
  }

  /**
    A queued job is never stranded: a scheduler pass is due, or a running job's end will bring
    one. This holds however far the counters have drifted from the truth.
   */
  lemma NoLostWakeUp(cfg: Config, acts: seq<Action>)
    requires ValidConfig(cfg) && Takes(cfg, Init(), acts)
    ensures var s := After(cfg, Init(), acts);
            s.queue != [] ==> s.microtasks > 0 || |s.jobs.running| > 0
  {
    ReachableInv(cfg, acts);
  }

  /**
    The counters never exceed the truth, and fall short of it by no more than the times a reaped
    lease or a second finish lowered them; so real concurrency exceeds a limit by no more than that.
   */
  lemma ConcurrencyWithinDrift(cfg: Config, acts: seq<Action>, tenant: string)
    requires ValidConfig(cfg) && Takes(cfg, Init(), acts)
    ensures var s := After(cfg, Init(), acts);
            && s.slots.inflight <= |s.jobs.running| <= s.slots.inflight + s.slots.lost
            && |s.jobs.running| <= cfg.maxConcurrent + s.slots.lost
            && s.slots.lost <= s.slots.skips + s.slots.reaps
            && Count(s.slots.byTenant, tenant) <= |RunningOf(s.jobs.running, tenant)|
            && |RunningOf(s.jobs.running, tenant)|
                 <= QuotaOf(cfg, s.quotas.peak, tenant) + Count(s.slots.lostByTenant, tenant)
            && Count(s.slots.lostByTenant, tenant) <= Count(s.slots.skipsByTenant, tenant) <= s.slots.skips
  {
    ReachableInv(cfg, acts);
    var s := After(cfg, Init(), acts);
    assert TenantCounter(cfg, s.slots, s.quotas, s.jobs.running, tenant);
  }

  /** Runs with the same effect never overlap, and of all runs with one effect at most one succeeds. */
  lemma EffectsHappenOnce(cfg: Config, acts: seq<Action>)
    requires ValidConfig(cfg) && Takes(cfg, Init(), acts)
    ensures var s := After(cfg, Init(), acts);
            && (forall id, other :: id in s.jobs.running && other in s.jobs.running && id != other ==>
                  Effect(s.jobs.running[id]) != Effect(s.jobs.running[other]))
            && (forall i, j :: 0 <= i < j < |s.marks.succeeded| ==> s.marks.succeeded[i] != s.marks.succeeded[j])
            && (forall i, id :: 0 <= i < |s.marks.succeeded| && id in s.jobs.running ==>
                  s.marks.succeeded[i] != Effect(s.jobs.running[id]))
  {
    ReachableInv(cfg, acts);
  }

  ghost function QueuedIds(queue: seq<Job>): set<nat> {
    set i | 0 <= i < |queue| :: queue[i].id
  }

  /** Every accepted job is in exactly one of queued, running, waiting and settled. */
  lemma JobsAreConserved(cfg: Config, acts: seq<Action>)
    requires ValidConfig(cfg) && Takes(cfg, Init(), acts)
    ensures var s := After(cfg, Init(), acts);
            var queued := QueuedIds(s.queue);
            && queued !! s.jobs.running.Keys !! s.jobs.waiting.Keys !! s.jobs.settled.Keys
            && (forall id: nat :: id < s.jobs.nextId <==>
                  id in queued + s.jobs.running.Keys + s.jobs.waiting.Keys + s.jobs.settled.Keys)
            && s.jobs.nextId == |s.queue| + |s.jobs.running| + |s.jobs.waiting| + |s.jobs.settled|
            && s.pendingRetry == |s.jobs.waiting|
            && |s.queue| <= cfg.maxQueueDepth
  {
    ReachableInv(cfg, acts);
    var s := After(cfg, Init(), acts);
    LedgerAddsUp(s.queue, s.jobs);
  }

  lemma {:induction false} DistinctIds(queue: seq<Job>, jobs: Jobs)
    requires QueueIds(queue, jobs)
    ensures |QueuedIds(queue)| == |queue|
  {
    if queue != [] {
      var init := queue[..|queue| - 1];
      DistinctIds(init, jobs);
      assert QueuedIds(queue) == QueuedIds(init) + {queue[|queue| - 1].id};
    }
  }

  lemma {:induction false} CountBelow(n: nat, ids: set<nat>)
    requires forall id: nat :: id < n <==> id in ids
    ensures |ids| == n
  {
    if n == 0 {
      assert ids == {};
    } else {
      CountBelow(n - 1, ids - {n - 1});
    }
  }

  lemma QueuedMeansInQueue(queue: seq<Job>, jobs: Jobs)
    requires QueueIds(queue, jobs)
    ensures forall id: nat :: id in QueuedIds(queue) <==> InQueue(queue, id)
    ensures forall id :: id in QueuedIds(queue) ==>
              id < jobs.nextId && id !in jobs.running && id !in jobs.waiting && id !in jobs.settled
  {
    forall id: nat | InQueue(queue, id) ensures id in QueuedIds(queue) {
      var i :| 0 <= i < |queue| && queue[i].id == id;
      assert queue[i].id in QueuedIds(queue);
    }
  }

  lemma FourApart(a: set<nat>, b: set<nat>, c: set<nat>, d: set<nat>)
    requires a !! b !! c !! d
    ensures |a + b + c + d| == |a| + |b| + |c| + |d|
  {
  }

  lemma LedgerAddsUp(queue: seq<Job>, jobs: Jobs)
    requires Ledger(queue, jobs)
    ensures QueuedIds(queue) !! jobs.running.Keys !! jobs.waiting.Keys !! jobs.settled.Keys
    ensures forall id: nat :: id < jobs.nextId <==>
              id in QueuedIds(queue) + jobs.running.Keys + jobs.waiting.Keys + jobs.settled.Keys
    ensures jobs.nextId == |queue| + |jobs.running| + |jobs.waiting| + |jobs.settled|
  {
    var ids := QueuedIds(queue) + jobs.running.Keys + jobs.waiting.Keys + jobs.settled.Keys;
    QueuedMeansInQueue(queue, jobs);
    hide QueuedIds, InQueue;
    CountBelow(jobs.nextId, ids);
    DistinctIds(queue, jobs);
    FourApart(QueuedIds(queue), jobs.running.Keys, jobs.waiting.Keys, jobs.settled.Keys);
  }

  /** A job's run is called at most `maxAttempts` times. */
  lemma AttemptsAreBounded(cfg: Config, acts: seq<Action>, id: nat)
    requires ValidConfig(cfg) && Takes(cfg, Init(), acts)
    ensures Runs(After(cfg, Init(), acts).jobs, id) <= cfg.maxAttempts
  {
    ReachableInv(cfg, acts);
  }

  // ---------- without drift ----------

  ghost predicate QueuedFresh(queue: seq<Job>, marks: Marks) {
    && (forall i :: 0 <= i < |queue| ==> Effect(queue[i]) !in marks.completed)
    && (forall i, j :: 0 <= i < j < |queue| ==> Effect(queue[i]) != Effect(queue[j]))
  }

  ghost predicate WaitingFresh(queue: seq<Job>, waiting: map<nat, Job>, marks: Marks) {
    && (forall id :: id in waiting ==> Effect(waiting[id]) !in marks.completed)
    && (forall id, other :: id in waiting && other in waiting && id != other ==>
          Effect(waiting[id]) != Effect(waiting[other]))
    && (forall i, id :: 0 <= i < |queue| && id in waiting ==> Effect(queue[i]) != Effect(waiting[id]))
  }

  ghost predicate Within(used: set<string>, queue: seq<Job>, waiting: map<nat, Job>, marks: Marks) {
    && marks.completed <= used
    && (forall i :: 0 <= i < |queue| ==> Effect(queue[i]) in used)
    && (forall id :: id in waiting ==> Effect(waiting[id]) in used)
  }

  /**
    If no effect is accepted twice, every effect still queued or waiting is unmarked, and no job
    is ever skipped. `used` is the set of effects brought so far.
   */
  ghost predicate NoDuplicates(used: set<string>, s: State) {
    && QueuedFresh(s.queue, s.marks)
    && WaitingFresh(s.queue, s.jobs.waiting, s.marks)
    && Within(used, s.queue, s.jobs.waiting, s.marks)
    && (forall id :: !Skipped(s, id))
    && s.slots.skips == 0
  }

  lemma StartStaysFresh(used: set<string>, queue: seq<Job>, waiting: map<nat, Job>, marks: Marks, index: nat)
    requires QueuedFresh(queue, marks) && WaitingFresh(queue, waiting, marks) && Within(used, queue, waiting, marks)
    requires index < |queue|
    ensures var rest := queue[..index] + queue[index + 1..];
            var marks' := Mark(marks, Effect(queue[index]));
            QueuedFresh(rest, marks') && WaitingFresh(rest, waiting, marks') && Within(used, rest, waiting, marks')
  {
    var rest := queue[..index] + queue[index + 1..];
    forall i | 0 <= i < |rest| ensures rest[i] == queue[if i < index then i else i + 1] {}
  }

  lemma MoveStaysFresh(cfg: Config, used: set<string>, s: State, m: Move)
    requires NoDuplicates(used, s) && Allowed(cfg, s, m)
    ensures NoDuplicates(used, Apply(cfg, s, m))
  {
    if m.StartFresh? {
      StartStaysFresh(used, s.queue, s.jobs.waiting, s.marks, m.index);
      forall id ensures !Skipped(Apply(cfg, s, m), id) { assert !Skipped(s, id); }
    } else if m.ReapLeases? || m.SettleFlag? {
      forall id ensures !Skipped(Apply(cfg, s, m), id) { assert !Skipped(s, id); }
    }
  }

  lemma PassStaysFresh(cfg: Config, used: set<string>, s: State)
    requires NoDuplicates(used, s)
    ensures NoDuplicates(used, MaybeRunJobs(cfg, s))
  {
    var p := (t: State) => NoDuplicates(used, t);
    forall t, m | p(t) && Allowed(cfg, t, m) ensures p(Apply(cfg, t, m)) {
      MoveStaysFresh(cfg, used, t, m);
    }
    SchedulerKeeps(cfg, p, s);
  }

  /**
    No enqueue that is accepted, and no mark set from outside, brings an effect in `used` or one
    brought before. An enqueue that a full queue refuses may be tried again.
   */
  ghost predicate NoEffectTwice(cfg: Config, used: set<string>, s: State, acts: seq<Action>)
    requires Takes(cfg, s, acts)
    decreases |acts|
  {
    acts == [] ||
    var brought := Brings(cfg, s, acts[0]);
    brought !! used && NoEffectTwice(cfg, used + brought, Step(cfg, s, acts[0]), acts[1..])
  }

  function Brings(cfg: Config, s: State, a: Action): set<string> {
    match a
    case Enqueue(taskId, tenantId, token) =>
      if |s.queue| >= cfg.maxQueueDepth then {} else {Effect(Job(0, taskId, tenantId, 1, token))}
    case MarkEffectComplete(effect) => {effect}
    case _ => {}
  }

  lemma EnqueueStaysFresh(cfg: Config, used: set<string>, s: State, taskId: string, tenantId: Option<string>, token: Option<string>)
    requires NoDuplicates(used, s) && Brings(cfg, s, Action.Enqueue(taskId, tenantId, token)) !! used
    ensures NoDuplicates(used + Brings(cfg, s, Action.Enqueue(taskId, tenantId, token)), DoEnqueue(cfg, s, taskId, tenantId, token))
  {
    var r := DoEnqueue(cfg, s, taskId, tenantId, token);
    forall id ensures !Skipped(r, id) { assert !Skipped(s, id); }
  }

  lemma EndStaysFresh(cfg: Config, used: set<string>, s: State, id: nat, outcome: Outcome)
    requires NoDuplicates(used, s) && Core(cfg, s) && id in s.jobs.running && outcome != SkippedDuplicate
    ensures var job := s.jobs.running[id];
            NoDuplicates(used, FinishJob(cfg, s.(jobs := EndJob(s.jobs, id, outcome), marks := MarksAfter(s.marks, job, outcome)),
                                         Tenant(job), job.taskId))
  {
    var job := s.jobs.running[id];
    EndRunOnly(s.queue, s.jobs, id, outcome);
    var ended := Release(s.(jobs := EndJob(s.jobs, id, outcome), marks := MarksAfter(s.marks, job, outcome)),
                         Tenant(job), job.taskId);
    forall i ensures !Skipped(ended, i) { assert !Skipped(s, i); }
    PassStaysFresh(cfg, used, ended);
  }

  lemma RetryStaysFresh(cfg: Config, used: set<string>, s: State, id: nat)
    requires NoDuplicates(used, s) && Core(cfg, s)
    requires id in s.jobs.running && s.jobs.running[id].attempt < cfg.maxAttempts
    ensures NoDuplicates(used, DoThrow(cfg, s, s.jobs.running[id]))
  {
    hide Core, MaybeRunJobs, NoDuplicates;
    var cleared := ClearedForRetry(s, s.jobs.running[id]);
    ClearedStaysFresh(cfg, used, s, id);
    PassStaysFresh(cfg, used, cleared);
    QuietStaysFresh(used, MaybeRunJobs(cfg, cleared), DoThrow(cfg, s, s.jobs.running[id]));
  }

  lemma ClearedStaysFresh(cfg: Config, used: set<string>, s: State, id: nat)
    requires NoDuplicates(used, s) && Core(cfg, s) && id in s.jobs.running
    ensures NoDuplicates(used, ClearedForRetry(s, s.jobs.running[id]))
  {
    hide Counters, Ledger, Attempts;
    var job := s.jobs.running[id];
    var cleared := ClearedForRetry(s, job);
    assert Effect(job) in s.marks.completed;
    forall i ensures !Skipped(cleared, i) { assert !Skipped(s, i); }
  }

  lemma WakeStaysFresh(used: set<string>, queue: seq<Job>, waiting: map<nat, Job>, marks: Marks, id: nat)
    requires QueuedFresh(queue, marks) && WaitingFresh(queue, waiting, marks) && Within(used, queue, waiting, marks)
    requires id in waiting
    ensures var queue' := queue + [waiting[id].(attempt := waiting[id].attempt + 1)];
            && QueuedFresh(queue', marks)
            && WaitingFresh(queue', waiting - {id}, marks)
            && Within(used, queue', waiting - {id}, marks)
  {
    var woken := waiting[id].(attempt := waiting[id].attempt + 1);
    assert Effect(woken) == Effect(waiting[id]);
  }

  lemma TimerStaysFresh(cfg: Config, used: set<string>, s: State, id: nat)
    requires NoDuplicates(used, s) && id in s.jobs.waiting && s.jobs.waiting[id].id == id
    ensures NoDuplicates(used, DoTimer(cfg, s, s.jobs.waiting[id]))
  {
    hide QueuedFresh, WaitingFresh, Within;
    var r := DoTimer(cfg, s, s.jobs.waiting[id]);
    forall i ensures !Skipped(r, i) { assert !Skipped(s, i); }
    if !s.active {
    } else if |s.queue| >= cfg.maxQueueDepth {
      DropStaysFresh(used, s.queue, s.jobs.waiting, s.marks, id);
    } else {
      WakeStaysFresh(used, s.queue, s.jobs.waiting, s.marks, id);
    }
  }

  lemma DropStaysFresh(used: set<string>, queue: seq<Job>, waiting: map<nat, Job>, marks: Marks, id: nat)
    requires WaitingFresh(queue, waiting, marks) && Within(used, queue, waiting, marks)
    ensures WaitingFresh(queue, waiting - {id}, marks) && Within(used, queue, waiting - {id}, marks)
  {
  }

  lemma QuietStaysFresh(used: set<string>, s: State, r: State)
    requires NoDuplicates(used, s)
    requires r.queue == s.queue && r.marks == s.marks && r.slots == s.slots
    requires r.jobs.waiting == s.jobs.waiting && r.jobs.settled == s.jobs.settled
    ensures NoDuplicates(used, r)
  {
    forall i ensures !Skipped(r, i) { assert !Skipped(s, i); }
  }

  lemma {:induction false} DistinctEffectsNeverSkip(cfg: Config, used: set<string>, s: State, acts: seq<Action>)
    requires ValidConfig(cfg) && Inv(cfg, s) && Takes(cfg, s, acts)
    requires NoDuplicates(used, s) && NoEffectTwice(cfg, used, s, acts)
    ensures After(cfg, s, acts).slots.skips == 0
    decreases |acts|
  {
    if acts != [] {
      hide Core, MaybeRunJobs, NoDuplicates, DoTimer, DoThrow, DoEnqueue, Awake, Retries;
      var next := Step(cfg, s, acts[0]);
      StepKeepsInv(cfg, s, acts[0]);
      StepStaysFresh(cfg, used, s, acts[0]);
      DistinctEffectsNeverSkip(cfg, used + Brings(cfg, s, acts[0]), next, acts[1..]);
    } else {
      assert NoDuplicates(used, s);
    }
  }

  lemma MarkStaysFresh(used: set<string>, s: State, effect: string)
    requires NoDuplicates(used, s) && effect !in used
    ensures NoDuplicates(used + {effect}, s.(marks := Mark(s.marks, effect)))
  {
    var marked := s.(marks := Mark(s.marks, effect));
    forall id ensures !Skipped(marked, id) { assert !Skipped(s, id); }
  }

  lemma StepStaysFresh(cfg: Config, used: set<string>, s: State, a: Action)
    requires Inv(cfg, s) && NoDuplicates(used, s) && Enabled(s, a) && Brings(cfg, s, a) !! used
    ensures NoDuplicates(used + Brings(cfg, s, a), Step(cfg, s, a))
  {
    hide Core, MaybeRunJobs, NoDuplicates, DoTimer, Awake, Retries;
    assert used + {} == used;
    match a
    case Enqueue(taskId, tenantId, token) =>
      EnqueueStaysFresh(cfg, used, s, taskId, tenantId, token);
    case MicrotaskFires =>
      QuietStaysFresh(used, s, s.(microtasks := s.microtasks - 1));
      PassStaysFresh(cfg, used, s.(microtasks := s.microtasks - 1));
    case RunSucceeds(id) =>
      NotWaiting(cfg, s, id);
      EndStaysFresh(cfg, used, s, id, Completed);
    case RunThrows(id) =>
      NotWaiting(cfg, s, id);
      if s.jobs.running[id].attempt < cfg.maxAttempts {
        RetryStaysFresh(cfg, used, s, id);
      } else {
        EndStaysFresh(cfg, used, s, id, DeadLettered);
      }
    case TimerFires(id) =>
      EndWaitOnly(cfg, s, id);
      TimerStaysFresh(cfg, used, s, id);
    case Stop => QuietStaysFresh(used, s, Step(cfg, s, a));
    case SetTenantQuota(tenant, limit) => QuietStaysFresh(used, s, Step(cfg, s, a));
    case MarkEffectComplete(effect) => MarkStaysFresh(used, s, effect);
  }

  lemma InitIsFresh()
    ensures NoDuplicates({}, Init())
  {
  }

  lemma CountersOf(cfg: Config, s: State)
    requires Core(cfg, s)
    ensures Counters(cfg, s.slots, s.quotas, s.jobs.running)
  {
  }

  /**
    When no effect is accepted twice and no lease has been reaped, the counters are exact: the
    limits hold for the jobs really running, for every tenant whose quota was never lowered.
   */
  lemma AccountingIsExact(cfg: Config, acts: seq<Action>, tenant: string)
    requires ValidConfig(cfg) && Takes(cfg, Init(), acts) && NoEffectTwice(cfg, {}, Init(), acts)
    requires After(cfg, Init(), acts).slots.reaps == 0
    ensures var s := After(cfg, Init(), acts);
            && s.slots.inflight == |s.jobs.running| <= cfg.maxConcurrent
            && Count(s.slots.byTenant, tenant) == |RunningOf(s.jobs.running, tenant)|
            && (tenant !in s.quotas.lowered ==>
                  |RunningOf(s.jobs.running, tenant)| <= QuotaOf(cfg, s.quotas.current, tenant))
  {
    hide Core, NoDuplicates, Ledger, EffectsOnce, Attempts, Step;
    InitInv(cfg);
    InitIsFresh();
    DistinctEffectsNeverSkip(cfg, {}, Init(), acts);
    ReachableInv(cfg, acts);
    CountersOf(cfg, After(cfg, Init(), acts));
    var s := After(cfg, Init(), acts);
    assert TenantCounter(cfg, s.slots, s.quotas, s.jobs.running, tenant);
    assert QuotaHistory(cfg, s.quotas, tenant);
  }
}
