/**
  The queue object itself: the fields of the source's class, updated in place by its loops.

  `model` is the specification state; `Matches` ties every field to it, and each method's
  contract says which function of `QueueModel` takes the old model to the new one. The public
  steps also keep `Inv`, from which the guarantees in `QueueGuarantees` follow.
 */
module AsyncQueue {
  import opened Common
  import opened QueueModel
  import opened QueueProofs
  import opened QueueInvariant
  import opened QueueSteps

  class AsyncTaskQueue {
    const cfg: Config
    var queue: seq<Job>
    var inflight: nat
    var inflightByTenant: map<string, nat>
    var leasedJobs: map<string, int>
    var completedEffects: set<string>
    var pendingRetry: int
    var tenantQuota: map<string, nat>
    var processing: bool
    var running: bool
    var nextId: nat
    var clockReads: nat
    ghost var model: State

    /** Every field shows its part of the model. */
    ghost predicate Matches()
      reads this
    {
      && queue == model.queue
      && inflight == model.slots.inflight
      && inflightByTenant == model.slots.byTenant
      && leasedJobs == model.leasedJobs
      && completedEffects == model.marks.completed
      && pendingRetry == model.pendingRetry
      && tenantQuota == model.quotas.current
      && processing == model.processing
      && running == model.active
      && nextId == model.jobs.nextId
      && clockReads == model.clockReads
    }

    ghost predicate Valid()
      reads this
    {
      ValidConfig(cfg) && Matches() && Inv(cfg, model)
    }

    constructor (maxAttempts: Option<int>, maxConcurrent: Option<int>, maxConcurrentPerTenant: Option<int>,
                 maxQueueDepth: Option<int>, clock: nat -> int)
      ensures Valid() && model == Init() && cfg.clock == clock
      ensures cfg.maxAttempts == Max(1, if maxAttempts.Some? then maxAttempts.value else 3)
      ensures cfg.maxConcurrent == Max(1, if maxConcurrent.Some? then maxConcurrent.value else 4)
      ensures cfg.maxConcurrentPerTenant ==
              if maxConcurrentPerTenant.Some? then Some(Max(1, maxConcurrentPerTenant.value)) else None
      ensures cfg.maxQueueDepth == Max(1, if maxQueueDepth.Some? then maxQueueDepth.value else 1000)
    {
      cfg := Config(
        Max(1, if maxAttempts.Some? then maxAttempts.value else 3),
        Max(1, if maxConcurrent.Some? then maxConcurrent.value else 4),
        if maxConcurrentPerTenant.Some? then Some(Max(1, maxConcurrentPerTenant.value)) else None,
        Max(1, if maxQueueDepth.Some? then maxQueueDepth.value else 1000),
        clock);
      queue, inflight, inflightByTenant, leasedJobs := [], 0, map[], map[];
      completedEffects, pendingRetry, tenantQuota := {}, 0, map[];
      processing, running, nextId, clockReads := false, true, 0, 0;
      model := Init();
      new;
      InitInv(cfg);
    }

    // ---------- public steps ----------

    method Enqueue(taskId: string, tenantId: Option<string>, token: Option<string>) returns (accepted: bool)
      requires Valid()
      modifies this
      ensures Valid() && model == Step(cfg, old(model), Action.Enqueue(taskId, tenantId, token))
      ensures accepted == (|old(queue)| < cfg.maxQueueDepth)
      ensures accepted ==> queue == old(queue) + [Job(old(nextId), taskId, tenantId, 1, token)]
    {
      hide Inv, QueueModel.MaybeRunJobs, QueueModel.FinishJob, QueueModel.StartJob, Launch;
      EnqueueKeepsInv(cfg, model, taskId, tenantId, token);
      if |queue| >= cfg.maxQueueDepth {
        return false;
      }
      var job := Job(nextId, taskId, tenantId, 1, token);
      queue := queue + [job];
      nextId := nextId + 1;
      model := model.(queue := queue, jobs := model.jobs.(nextId := nextId));
      Kickoff();
      accepted := true;
    }

    /** The scheduled microtask runs. */
    method MicrotaskFires()
      requires Valid() && model.microtasks > 0
      modifies this
      ensures Valid() && model == Step(cfg, old(model), Action.MicrotaskFires)
    {
      hide Inv, QueueModel.MaybeRunJobs, QueueModel.FinishJob, QueueModel.StartJob, Launch;
      StepKeepsInv(cfg, model, Action.MicrotaskFires);
      model := model.(microtasks := model.microtasks - 1);
      MaybeRunJobs();
    }

    /** The promise of a running job resolves. */
    method RunSucceeds(job: Job)
      requires Valid() && job.id in model.jobs.running && model.jobs.running[job.id] == job
      modifies this
      ensures Valid() && model == Step(cfg, old(model), Action.RunSucceeds(job.id))
    {
      hide Inv, QueueModel.MaybeRunJobs, QueueModel.FinishJob, QueueModel.StartJob, Launch;
      EndKeepsInv(cfg, model, job.id, Completed);
      model := model.(jobs := EndJob(model.jobs, job.id, Completed),
                      marks := model.marks.(succeeded := model.marks.succeeded + [Effect(job)]));
      FinishJob(Tenant(job), job.taskId);
    }

    /** The promise of a running job rejects. On the last attempt its dead-letter callback is called. */
    method RunThrows(job: Job) returns (deadLetter: Option<DeadLetter>)
      requires Valid() && job.id in model.jobs.running && model.jobs.running[job.id] == job
      modifies this
      ensures Valid() && model == Step(cfg, old(model), Action.RunThrows(job.id))
      ensures deadLetter == if job.attempt < cfg.maxAttempts then None else Some(DeadLetter(job.taskId, job.tenantId, job.attempt))
    {
      hide Inv, QueueModel.MaybeRunJobs, QueueModel.FinishJob, QueueModel.StartJob, Launch;
      if job.attempt < cfg.maxAttempts {
        RetryKeepsInv(cfg, model, job.id);
        completedEffects := completedEffects - {Effect(job)};
        model := model.(jobs := AwaitRetry(model.jobs, job), marks := Unmark(model.marks, Effect(job)));
        FinishJob(Tenant(job), job.taskId);
        pendingRetry := pendingRetry + 1;
        model := model.(pendingRetry := pendingRetry);
        deadLetter := None;
      } else {
        deadLetter := Some(DeadLetter(job.taskId, job.tenantId, job.attempt));
        EndKeepsInv(cfg, model, job.id, DeadLettered);
        model := model.(jobs := EndJob(model.jobs, job.id, DeadLettered));
        FinishJob(Tenant(job), job.taskId);
      }
    }

    /** A retry timer fires. A job that finds no room in the queue is dead-lettered as its next attempt. */
    method TimerFires(job: Job) returns (deadLetter: Option<DeadLetter>)
      requires Valid() && job.id in model.jobs.armed
      requires job.id in model.jobs.waiting && model.jobs.waiting[job.id] == job
      modifies this
      ensures Valid() && model == Step(cfg, old(model), Action.TimerFires(job.id))
      ensures deadLetter == if old(running) && |old(queue)| >= cfg.maxQueueDepth
                            then Some(DeadLetter(job.taskId, job.tenantId, job.attempt + 1)) else None
    {
      hide Inv, QueueModel.MaybeRunJobs, QueueModel.FinishJob, QueueModel.StartJob, Launch;
      TimerKeepsInv(cfg, model, job.id);
      ghost var disarmed := model.jobs.(armed := model.jobs.armed - {job.id});
      if !running {
        model := model.(jobs := disarmed);
        return None;
      }
      pendingRetry := pendingRetry - 1;
      if |queue| >= cfg.maxQueueDepth {
        model := model.(pendingRetry := pendingRetry, jobs := EndJob(disarmed, job.id, DeadLettered));
        return Some(DeadLetter(job.taskId, job.tenantId, job.attempt + 1));
      }
      queue := queue + [job.(attempt := job.attempt + 1)];
      model := model.(pendingRetry := pendingRetry, queue := queue,
                      jobs := disarmed.(waiting := disarmed.waiting - {job.id}));
      Kickoff();
      deadLetter := None;
    }

    method Stop()
      requires Valid()
      modifies this
      ensures Valid() && model == Step(cfg, old(model), Action.Stop)
    {
      hide Inv, QueueModel.MaybeRunJobs, QueueModel.FinishJob, QueueModel.StartJob, Launch;
      StepKeepsInv(cfg, model, Action.Stop);
      running := false;
      model := model.(active := false);
    }

    method SetTenantQuota(tenantId: string, quota: int)
      requires Valid()
      modifies this
      ensures Valid() && model == Step(cfg, old(model), Action.SetTenantQuota(tenantId, quota))
    {
      hide Inv, QueueModel.MaybeRunJobs, QueueModel.FinishJob, QueueModel.StartJob, Launch;
      QuotaKeepsInv(cfg, model, tenantId, quota);
      tenantQuota := tenantQuota[TenantKey(Some(tenantId)) := Max(1, quota)];
      model := DoSetQuota(cfg, model, tenantId, quota);
    }

    /** True for the first completion of an effect. */
    method MarkEffectComplete(effectId: string) returns (first: bool)
      requires Matches()
      modifies this
      ensures Matches() && first == (effectId !in old(completedEffects))
      ensures model == old(model).(marks := Mark(old(model.marks), effectId))
      ensures queue == old(queue)
    {
      first := effectId !in completedEffects;
      if first {
        completedEffects := completedEffects + {effectId};
      } else {
        assert completedEffects + {effectId} == completedEffects;
      }
      model := model.(marks := Mark(model.marks, effectId));
    }

    method HasCapacity() returns (yes: bool)
      requires Valid()
      ensures yes == (inflight + |queue| + |model.jobs.waiting| < cfg.maxConcurrent + cfg.maxQueueDepth)
    {
      yes := inflight + |queue| + pendingRetry < cfg.maxConcurrent + cfg.maxQueueDepth;
    }

    // ---------- the scheduler ----------

    method Kickoff()
      requires Matches()
      modifies this
      ensures Matches() && model == QueueModel.Kickoff(old(model))
    {
      if processing {
        return;
      }
      processing := true;
      model := model.(processing := true, microtasks := model.microtasks + 1);
    }

    /** The job's tenant has as many jobs in flight as its own quota, the common one, or ten allow. */
    predicate AtQuota(job: Job)
      reads this
    {
      var tenant := Tenant(job);
      var quota := if tenant in tenantQuota then tenantQuota[tenant]
                   else if cfg.maxConcurrentPerTenant.Some? then cfg.maxConcurrentPerTenant.value else 10;
      Count(inflightByTenant, tenant) >= quota
    }

    method MaybeRunJobs()
      requires Matches()
      modifies this
      ensures Matches() && model == QueueModel.MaybeRunJobs(cfg, old(model))
      ensures inflight >= cfg.maxConcurrent || forall i :: 0 <= i < |queue| ==> AtQuota(queue[i])
      decreases |queue|, 1
    {
      hide Launch, Reap;
      PassLeavesNothingStartable(cfg, model);
      ReapExpiredLeases();
      LaunchQueued();
      if |queue| == 0 && inflight == 0 {
        processing := false;
      }
      model := Settle(model);
    }

    /** The scheduler's loop: starts runnable jobs until the limit is reached or none is left. */
    method LaunchQueued()
      requires Matches()
      modifies this
      ensures Matches() && model == Launch(cfg, old(model))
      decreases |queue|, 0
    {
      hide Launch, QueueModel.StartJob;
      while inflight < cfg.maxConcurrent
        invariant Matches() && |queue| <= old(|queue|)
        invariant Launch(cfg, model) == Launch(cfg, old(model))
        decreases |queue|
      {
        var index := FindRunnableJobIndex();
        LaunchTurn(cfg, model);
        if index < 0 {
          return;
        }
        var job := queue[index];
        queue := queue[..index] + queue[index + 1..];
        model := Dequeue(model, index);
        StartJob(job);
      }
      LaunchTurn(cfg, model);
    }

    method ReapExpiredLeases()
      requires Matches()
      modifies this
      ensures Matches() && model == Reap(cfg, old(model)) && queue == old(queue)
    {
      var expired := ExpiredLeases(cfg.clock(clockReads));
      clockReads := clockReads + 1;
      DropLeases(expired);
      if expired != {} && |queue| == 0 && inflight == 0 {
        processing := false;
      }
      model := Reap(cfg, model);
    }

    method DropLeases(expired: set<string>)
      modifies this`leasedJobs, this`inflight
      ensures leasedJobs == old(leasedJobs) - expired
      ensures inflight == Max(0, old(inflight) - |expired|)
    {
      var left := expired;
      while left != {}
        invariant left <= expired
        invariant leasedJobs == old(leasedJobs) - (expired - left)
        invariant inflight == Max(0, old(inflight) - (|expired| - |left|))
        decreases left
      {
        var taskId :| taskId in left;
        assert expired - (left - {taskId}) == (expired - left) + {taskId};
        leasedJobs := leasedJobs - {taskId};
        inflight := Max(0, inflight - 1);
        left := left - {taskId};
      }
    }

    method ExpiredLeases(now: int) returns (expired: set<string>)
      ensures expired == set t | t in leasedJobs && now - leasedJobs[t] > LEASE_TIMEOUT_MS
    {
      expired := {};
      var unseen := leasedJobs.Keys;
      while unseen != {}
        invariant unseen <= leasedJobs.Keys
        invariant expired == set t | t in leasedJobs.Keys - unseen && now - leasedJobs[t] > LEASE_TIMEOUT_MS
        decreases unseen
      {
        var taskId :| taskId in unseen;
        if now - leasedJobs[taskId] > LEASE_TIMEOUT_MS {
          expired := expired + {taskId};
        }
        unseen := unseen - {taskId};
      }
    }

    /** Takes a slot and a lease, then runs the job up to its first await, or skips it. */
    method StartJob(job: Job)
      requires Matches()
      modifies this
      ensures Matches() && model == QueueModel.StartJob(cfg, old(model), job)
      decreases |queue|, 4
    {
      var tenant := Tenant(job);
      inflight := inflight + 1;
      inflightByTenant := inflightByTenant[tenant := Count(inflightByTenant, tenant) + 1];
      leasedJobs := leasedJobs[job.taskId := cfg.clock(clockReads)];
      clockReads := clockReads + 1;
      model := Acquire(cfg, model, job);
      ghost var acquired := model;
      var first := MarkEffectComplete(Effect(job));
      if !first {
        assert model.marks == acquired.marks by {
          assert acquired.marks.completed + {Effect(job)} == acquired.marks.completed;
        }
        SkipJob(job, tenant);
      } else {
        model := model.(jobs := BeginRun(model.jobs, job));
      }
    }

    /** The duplicate path finishes the job, and so does the block that runs on the way out. */
    method SkipJob(job: Job, tenant: string)
      requires Matches()
      modifies this
      ensures Matches()
      ensures var ended := old(model).(jobs := EndJob(old(model.jobs), job.id, SkippedDuplicate));
              var once := QueueModel.FinishJob(cfg, ended, tenant, job.taskId);
              model == QueueModel.FinishJob(cfg, once.(slots := CountSkip(once.slots, tenant)), tenant, job.taskId)
      decreases |queue|, 3
    {
      model := model.(jobs := EndJob(model.jobs, job.id, SkippedDuplicate));
      FinishJob(tenant, job.taskId);
      model := model.(slots := CountSkip(model.slots, tenant));
      FinishJob(tenant, job.taskId);
    }

    method FinishJob(tenant: string, taskId: string)
      requires Matches()
      modifies this
      ensures Matches() && model == QueueModel.FinishJob(cfg, old(model), tenant, taskId)
      decreases |queue|, 2
    {
      hide QueueModel.MaybeRunJobs;
      inflight := Max(0, inflight - 1);
      var current := Count(inflightByTenant, tenant);
      if current <= 1 {
        inflightByTenant := inflightByTenant - {tenant};
      } else {
        inflightByTenant := inflightByTenant[tenant := current - 1];
      }
      if taskId != "" {
        leasedJobs := leasedJobs - {taskId};
      }
      model := Release(model, tenant, taskId);
      MaybeRunJobs();
    }

    /** The first queued job whose tenant is under its quota, or -1. */
    method FindRunnableJobIndex() returns (index: int)
      requires Matches()
      ensures index == FindRunnableFrom(cfg, model, 0)
      ensures -1 <= index < |queue|
      ensures forall i :: 0 <= i < (if index < 0 then |queue| else index) ==> AtQuota(queue[i])
      ensures index >= 0 ==> !AtQuota(queue[index])
    {
      index := 0;
      while index < |queue|
        invariant 0 <= index <= |queue|
        invariant FindRunnableFrom(cfg, model, 0) == FindRunnableFrom(cfg, model, index)
      {
        var candidate := queue[index];
        var tenantInflight := Count(inflightByTenant, Tenant(candidate));
        var tenantMax := if Tenant(candidate) in tenantQuota then tenantQuota[Tenant(candidate)] else DefaultQuota(cfg);
        if tenantInflight < tenantMax {
          return;
        }
        index := index + 1;
      }
      index := -1;
    }
  }
}
