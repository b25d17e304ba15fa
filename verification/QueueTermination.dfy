/**
  Without new enqueues the queue comes to rest, and at rest everything accepted is settled
  (or parked, if the queue was stopped while a job waited for its retry).
 */
module QueueTermination {
  import opened QueueModel
  import opened QueueProofs
  import opened QueueInvariant
  import opened QueueGuarantees

  /** The stages a live job still has before it: attempts left first, then how far the attempt has come. */
  ghost function StagesLeft(cfg: Config, jobs: Jobs, id: nat): int {
    var attemptsLeft := cfg.maxAttempts - Runs(jobs, id);
    if id in jobs.settled then 0
    else if id in jobs.running then 3 * attemptsLeft + 2
    else if id in jobs.waiting then 3 * attemptsLeft + 1
    else 3 * attemptsLeft
  }

  ghost function WorkBelow(cfg: Config, jobs: Jobs, n: nat): int {
    if n == 0 then 0 else WorkBelow(cfg, jobs, n - 1) + StagesLeft(cfg, jobs, n - 1)
  }

  ghost function Work(cfg: Config, s: State): int {
    WorkBelow(cfg, s.jobs, s.jobs.nextId)
  }

  /** Bounds the number of steps the queue can still take on its own. */
  ghost function Potential(cfg: Config, s: State): int {
    2 * Work(cfg, s) + s.microtasks + |s.jobs.armed|
  }

  lemma {:induction false} OneJobAdvances(cfg: Config, jobs: Jobs, jobs': Jobs, id: nat, n: nat)
    requires forall other: nat :: other != id ==> StagesLeft(cfg, jobs', other) == StagesLeft(cfg, jobs, other)
    ensures WorkBelow(cfg, jobs', n) ==
            WorkBelow(cfg, jobs, n) + (if id < n then StagesLeft(cfg, jobs', id) - StagesLeft(cfg, jobs, id) else 0)
  {
    if n > 0 {
      OneJobAdvances(cfg, jobs, jobs', id, n - 1);
    }
  }

  lemma {:induction false} WorkIsNotNegative(cfg: Config, queue: seq<Job>, jobs: Jobs, n: nat)
    requires Attempts(cfg, queue, jobs)
    ensures WorkBelow(cfg, jobs, n) >= 0
  {
    if n > 0 {
      WorkIsNotNegative(cfg, queue, jobs, n - 1);
    }
  }

  lemma StartAdvances(cfg: Config, queue: seq<Job>, jobs: Jobs, index: nat)
    requires Ledger(queue, jobs) && Attempts(cfg, queue, jobs) && index < |queue|
    ensures var jobs' := BeginRun(jobs, queue[index]);
            WorkBelow(cfg, jobs', jobs.nextId) < WorkBelow(cfg, jobs, jobs.nextId)
  {
    var job := queue[index];
    OneJobAdvances(cfg, jobs, BeginRun(jobs, job), job.id, jobs.nextId);
  }

  lemma EndAdvances(cfg: Config, queue: seq<Job>, jobs: Jobs, id: nat, outcome: Outcome)
    requires Ledger(queue, jobs) && Attempts(cfg, queue, jobs) && id < jobs.nextId && id !in jobs.settled
    requires id in jobs.running || id in jobs.waiting || InQueue(queue, id)
    ensures WorkBelow(cfg, EndJob(jobs, id, outcome), jobs.nextId) < WorkBelow(cfg, jobs, jobs.nextId)
  {
    var jobs' := EndJob(jobs, id, outcome);
    forall other ensures Runs(jobs', other) == Runs(jobs, other) {}
    OneJobAdvances(cfg, jobs, jobs', id, jobs.nextId);
  }

  lemma MoveDoesNoWork(cfg: Config, s: State, m: Move)
    requires Core(cfg, s) && Allowed(cfg, s, m)
    ensures Work(cfg, Apply(cfg, s, m)) <= Work(cfg, s)
    ensures Apply(cfg, s, m).jobs.nextId == s.jobs.nextId
  {
    match m
    case StartFresh(index) => StartAdvances(cfg, s.queue, s.jobs, index);
    case SkipDuplicate(index) =>
      assert InQueue(s.queue, s.queue[index].id);
      EndAdvances(cfg, s.queue, s.jobs, s.queue[index].id, SkippedDuplicate);
    case _ =>
  }

  lemma PassDoesNoWork(cfg: Config, s: State)
    requires Core(cfg, s)
    ensures Work(cfg, MaybeRunJobs(cfg, s)) <= Work(cfg, s)
  {
    var bound := Work(cfg, s);
    var p := (t: State) => Core(cfg, t) && Work(cfg, t) <= bound;
    forall t, m | p(t) && Allowed(cfg, t, m) ensures p(Apply(cfg, t, m)) {
      CoreKeptByMove(cfg, t, m);
      MoveDoesNoWork(cfg, t, m);
    }
    SchedulerKeeps(cfg, p, s);
  }

  /** The steps the event loop takes by itself. */
  predicate Internal(a: Action) {
    a.MicrotaskFires? || a.RunSucceeds? || a.RunThrows? || a.TimerFires?
  }

  lemma EndLowersPotential(cfg: Config, s: State, id: nat, outcome: Outcome)
    requires ValidConfig(cfg) && Inv(cfg, s) && id in s.jobs.running
    ensures var job := s.jobs.running[id];
            Potential(cfg, FinishJob(cfg, s.(jobs := EndJob(s.jobs, id, outcome), marks := MarksAfter(s.marks, job, outcome)),
                                     Tenant(job), job.taskId)) < Potential(cfg, s)
  {
    hide Counters, EffectsOnce, Awake, Retries, MaybeRunJobs;
    var job := s.jobs.running[id];
    var ended := Release(s.(jobs := EndJob(s.jobs, id, outcome), marks := MarksAfter(s.marks, job, outcome)),
                         Tenant(job), job.taskId);
    EndAdvances(cfg, s.queue, s.jobs, id, outcome);
    EndKeepsCore(cfg, s, id, outcome);
    PassDoesNoWork(cfg, ended);
    SchedulerKeepsCore(cfg, ended);
  }

  lemma AwaitAdvances(cfg: Config, queue: seq<Job>, jobs: Jobs, id: nat)
    requires Ledger(queue, jobs) && Attempts(cfg, queue, jobs) && id in jobs.running
    ensures WorkBelow(cfg, AwaitRetry(jobs, jobs.running[id]), jobs.nextId) < WorkBelow(cfg, jobs, jobs.nextId)
  {
    var jobs' := AwaitRetry(jobs, jobs.running[id]);
    forall other ensures Runs(jobs', other) == Runs(jobs, other) {}
    OneJobAdvances(cfg, jobs, jobs', id, jobs.nextId);
  }

  lemma AddToSet(ids: set<nat>, id: nat)
    ensures |ids + {id}| <= |ids| + 1
  {
  }

  lemma RetryLowersPotential(cfg: Config, s: State, id: nat)
    requires ValidConfig(cfg) && Inv(cfg, s)
    requires id in s.jobs.running && s.jobs.running[id].attempt < cfg.maxAttempts
    ensures Potential(cfg, DoThrow(cfg, s, s.jobs.running[id])) < Potential(cfg, s)
  {
    hide Counters, Ledger, EffectsOnce, Attempts, Awake, Retries, MaybeRunJobs, WorkBelow;
    var cleared := ClearedForRetry(s, s.jobs.running[id]);
    NotWaiting(cfg, s, id);
    AwaitAdvances(cfg, s.queue, s.jobs, id);
    RetryKeepsCore(cfg, s, id);
    PassDoesNoWork(cfg, cleared);
    SchedulerKeepsCore(cfg, cleared);
    var passed := MaybeRunJobs(cfg, cleared);
    AddToSet(s.jobs.armed, id);
    assert DoThrow(cfg, s, s.jobs.running[id]) == passed.(pendingRetry := passed.pendingRetry + 1);
  }

  lemma WakeAdvances(cfg: Config, queue: seq<Job>, jobs: Jobs, id: nat)
    requires Ledger(queue, jobs) && Attempts(cfg, queue, jobs) && id in jobs.waiting
    ensures var jobs' := jobs.(armed := jobs.armed - {id}, waiting := jobs.waiting - {id});
            WorkBelow(cfg, jobs', jobs.nextId) < WorkBelow(cfg, jobs, jobs.nextId)
  {
    var jobs' := jobs.(armed := jobs.armed - {id}, waiting := jobs.waiting - {id});
    forall other ensures Runs(jobs', other) == Runs(jobs, other) {}
    OneJobAdvances(cfg, jobs, jobs', id, jobs.nextId);
  }

  lemma DisarmKeepsWork(cfg: Config, jobs: Jobs, id: nat)
    ensures WorkBelow(cfg, jobs.(armed := jobs.armed - {id}), jobs.nextId) == WorkBelow(cfg, jobs, jobs.nextId)
  {
    var jobs' := jobs.(armed := jobs.armed - {id});
    forall other ensures Runs(jobs', other) == Runs(jobs, other) {}
    OneJobAdvances(cfg, jobs, jobs', id, jobs.nextId);
  }

  lemma TimerLowersPotential(cfg: Config, s: State, id: nat)
    requires Core(cfg, s) && id in s.jobs.armed && id in s.jobs.waiting
    ensures Potential(cfg, DoTimer(cfg, s, s.jobs.waiting[id])) < Potential(cfg, s)
  {
    hide Counters, EffectsOnce;
    EndWaitOnly(cfg, s, id);
    DisarmKeepsWork(cfg, s.jobs, id);
    if s.active {
      if |s.queue| >= cfg.maxQueueDepth {
        DisarmLedger(s.queue, s.jobs, id);
        DisarmAttempts(cfg, s.queue, s.jobs, id);
        EndAdvances(cfg, s.queue, s.jobs.(armed := s.jobs.armed - {id}), id, DeadLettered);
      } else {
        WakeAdvances(cfg, s.queue, s.jobs, id);
      }
    }
  }

  lemma InternalStepsLowerPotential(cfg: Config, s: State, a: Action)
    requires ValidConfig(cfg) && Inv(cfg, s) && Enabled(s, a) && Internal(a)
    ensures Potential(cfg, Step(cfg, s, a)) < Potential(cfg, s)
  {
    hide Core, Awake, Retries, MaybeRunJobs, Potential, FinishJob;
    match a
    case MicrotaskFires => MicrotaskLowersPotential(cfg, s);
    case RunSucceeds(id) =>
      NotWaiting(cfg, s, id);
      EndLowersPotential(cfg, s, id, Completed);
    case RunThrows(id) =>
      NotWaiting(cfg, s, id);
      if s.jobs.running[id].attempt < cfg.maxAttempts {
        RetryLowersPotential(cfg, s, id);
      } else {
        EndLowersPotential(cfg, s, id, DeadLettered);
      }
    case TimerFires(id) => TimerLowersPotential(cfg, s, id);
  }

  lemma MicrotaskLowersPotential(cfg: Config, s: State)
    requires Core(cfg, s) && s.microtasks > 0
    ensures Potential(cfg, MaybeRunJobs(cfg, s.(microtasks := s.microtasks - 1))) < Potential(cfg, s)
  {
    hide Counters, Ledger, EffectsOnce, Attempts, MaybeRunJobs;
    var due := s.(microtasks := s.microtasks - 1);
    assert Core(cfg, due);
    PassDoesNoWork(cfg, due);
    SchedulerKeepsCore(cfg, due);
  }

  /** However the event loop orders its own steps, it takes at most `Potential` of them. */
  lemma {:induction false} InternalRunsAreBounded(cfg: Config, s: State, acts: seq<Action>)
    requires ValidConfig(cfg) && Inv(cfg, s) && Takes(cfg, s, acts)
    requires forall i :: 0 <= i < |acts| ==> Internal(acts[i])
    ensures Inv(cfg, After(cfg, s, acts)) && |acts| <= Potential(cfg, s)
    decreases |acts|
  {
    hide Potential, Core, Awake, Retries;
    if acts == [] {
      PotentialIsNotNegative(cfg, s);
    } else {
      StepKeepsInv(cfg, s, acts[0]);
      InternalStepsLowerPotential(cfg, s, acts[0]);
      InternalRunsAreBounded(cfg, Step(cfg, s, acts[0]), acts[1..]);
    }
  }

  lemma PotentialIsNotNegative(cfg: Config, s: State)
    requires Core(cfg, s)
    ensures Potential(cfg, s) >= 0
  {
    WorkIsNotNegative(cfg, s.queue, s.jobs, s.jobs.nextId);
  }

  ghost predicate AtRest(s: State) {
    forall a :: Internal(a) ==> !Enabled(s, a)
  }

  /**
    From any reachable state, a run of internal steps that cannot be continued leaves an empty
    queue with nothing running, and every job ever accepted settled, except the jobs a stop has
    parked; there are none of those unless the queue was stopped.
   */
  lemma QueueDrains(cfg: Config, acts: seq<Action>, drain: seq<Action>)
    requires ValidConfig(cfg) && Takes(cfg, Init(), acts) && Takes(cfg, After(cfg, Init(), acts), drain)
    requires forall i :: 0 <= i < |drain| ==> Internal(drain[i])
    requires AtRest(After(cfg, After(cfg, Init(), acts), drain))
    ensures |drain| <= Potential(cfg, After(cfg, Init(), acts))
    ensures var r := After(cfg, After(cfg, Init(), acts), drain);
            && r.queue == [] && r.jobs.running == map[]
            && (r.active ==> r.jobs.waiting == map[])
            && r.jobs.nextId == |r.jobs.waiting| + |r.jobs.settled|
  {
    hide Core, Potential;
    var s := After(cfg, Init(), acts);
    ReachableInv(cfg, acts);
    InternalRunsAreBounded(cfg, s, drain);
    RestIsEmpty(cfg, After(cfg, s, drain));
  }

  lemma RestIsEmpty(cfg: Config, r: State)
    requires Inv(cfg, r) && AtRest(r)
    ensures r.queue == [] && r.jobs.running == map[]
    ensures r.active ==> r.jobs.waiting == map[]
    ensures r.jobs.nextId == |r.jobs.waiting| + |r.jobs.settled|
  {
    hide Counters, EffectsOnce, Attempts;
    assert !Enabled(r, MicrotaskFires);
    forall id ensures id !in r.jobs.running { assert !Enabled(r, RunSucceeds(id)); }
    assert r.jobs.running == map[];
    forall id ensures !(id in r.jobs.armed && id in r.jobs.waiting) { assert !Enabled(r, TimerFires(id)); }
    if r.active {
      assert r.jobs.waiting == map[];
    }
    LedgerAddsUp(r.queue, r.jobs);
  }
}
