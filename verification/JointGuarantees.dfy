/**
  The whole system: it is a run of the queue and a run of the orchestrator at once, so all that is
  proved of either holds in it; and it bounds what is executed for an asynchronous task.
 */
module JointGuarantees {
  import opened Common
  import Q = QueueModel
  import QD = QueueDrift
  import QI = QueueInvariant
  import QS = QueueSteps
  import Outcomes
  import O = OrchestratorModel
  import OP = OrchestratorProofs
  import TaskStore
  import opened JointModel
  import opened JointProofs

  // ---------- a joint run is a run of each half ----------

  lemma EndRunOfOrch(cfg: Q.Config, w: O.World, s: Joint, a: Action) returns (os: seq<O.Action>)
    requires Enabled(cfg, w, s, a) && a.EndRun?
    ensures O.Takes(w, s.orch, os) && O.After(w, s.orch, os) == Step(cfg, w, s, a).orch
  {
    hide O.Takes, O.After, O.DoResume, O.DoDeadLetter, Q.Step;
    var job := s.orch.calls[a.call].job;
    var resume := O.Action.Resume(a.call, a.outcome, a.appends);
    var resumed := O.Step(w, s.orch, resume);
    var r := OrchAfterRun(cfg, s, a.call, a.outcome, a.appends, a.content, a.receipt);
    ResumeEnds(s.orch, a.call, a.outcome, a.appends);
    OP.OneStep(w, s.orch, resume);
    os := [resume];
    if r.state != resumed {
      var dead := O.Action.DeadLetter(job, a.content, a.receipt);
      OP.OneStep(w, resumed, dead);
      OP.RunGoesOn(w, s.orch, os, [dead]);
      os := os + [dead];
    }
    OP.RunGoesOn(w, s.orch, os, StartActs(a.starts));
    os := os + StartActs(a.starts);
  }

  lemma StepIsBoth(cfg: Q.Config, w: O.World, s: Joint, a: Action) returns (os: seq<O.Action>, qs: seq<Q.Action>)
    requires Enabled(cfg, w, s, a)
    ensures O.Takes(w, s.orch, os) && O.After(w, s.orch, os) == Step(cfg, w, s, a).orch
    ensures Q.Takes(cfg, s.queue, qs) && Q.After(cfg, s.queue, qs) == Step(cfg, w, s, a).queue
  {
    os := StepOfOrch(cfg, w, s, a);
    qs := StepOfQueue(cfg, w, s, a);
  }

  lemma StepOfOrch(cfg: Q.Config, w: O.World, s: Joint, a: Action) returns (os: seq<O.Action>)
    requires Enabled(cfg, w, s, a)
    ensures O.Takes(w, s.orch, os) && O.After(w, s.orch, os) == Step(cfg, w, s, a).orch
  {
    hide O.DoDispatch, O.DoDeadLetter, Q.Step;
    os := [];
    match a
    case Dispatch(call, d) =>
      os := [O.Action.Dispatch(call, d)];
      OP.OneStep(w, s.orch, os[0]);
    case OtherCall(oa) =>
      os := [oa];
      OP.OneStep(w, s.orch, oa);
    case OtherQueue(_) =>
    case Pass(starts) => os := StartActs(starts);
    case EndRun(_, _, _, _, _, _) => os := EndRunOfOrch(cfg, w, s, a);
    case Timer(job, content, receipt) =>
      if Step(cfg, w, s, a).orch != s.orch {
        os := [O.Action.DeadLetter(job, content, receipt)];
        OP.OneStep(w, s.orch, os[0]);
      }
  }

  lemma OneQueueStep(cfg: Q.Config, q: Q.State, a: Q.Action)
    requires Q.Enabled(q, a)
    ensures Q.Takes(cfg, q, [a]) && Q.After(cfg, q, [a]) == Q.Step(cfg, q, a)
  {
    hide Q.Step;
    assert Q.Takes(cfg, Q.Step(cfg, q, a), []);
    assert [a][1..] == [];
    QD.AfterOne(cfg, q, [a]);
  }

  lemma StepOfQueue(cfg: Q.Config, w: O.World, s: Joint, a: Action) returns (qs: seq<Q.Action>)
    requires Enabled(cfg, w, s, a)
    ensures Q.Takes(cfg, s.queue, qs) && Q.After(cfg, s.queue, qs) == Step(cfg, w, s, a).queue
  {
    hide O.DoDispatch, O.DoResume, O.DoDeadLetter, O.Takes, Q.MaybeRunJobs, Q.FinishJob, Q.DoEnqueue, Q.DoTimer, Q.DoThrow;
    qs := [];
    match a
    case Dispatch(call, d) =>
      if Step(cfg, w, s, a).queue != s.queue {
        qs := [Q.Action.Enqueue(d.envelope.taskId, Some(TenantKey(d.envelope.requester.tenantId)), d.envelope.idempotencyToken)];
        OneQueueStep(cfg, s.queue, qs[0]);
      }
    case OtherCall(_) =>
    case OtherQueue(qa) =>
      qs := [qa];
      OneQueueStep(cfg, s.queue, qa);
    case Pass(_) =>
      qs := [Q.Action.MicrotaskFires];
      OneQueueStep(cfg, s.queue, qs[0]);
    case EndRun(call, outcome, appends, content, receipt, _) =>
      var r := OrchAfterRun(cfg, s, call, outcome, appends, content, receipt);
      var job := s.orch.calls[call].job;
      qs := [if r.reply.Returns? then Q.Action.RunSucceeds(job) else Q.Action.RunThrows(job)];
      OneQueueStep(cfg, s.queue, qs[0]);
    case Timer(job, _, _) =>
      qs := [Q.Action.TimerFires(job)];
      OneQueueStep(cfg, s.queue, qs[0]);
  }

  /**
    Every joint run is a run of the queue and a run of the orchestrator, so every guarantee of
    either holds of the whole system.
   */
  lemma {:induction false} JointRunIsBoth(cfg: Q.Config, w: O.World, s: Joint, acts: seq<Action>)
    returns (os: seq<O.Action>, qs: seq<Q.Action>)
    requires Takes(cfg, w, s, acts)
    ensures O.Takes(w, s.orch, os) && O.After(w, s.orch, os) == After(cfg, w, s, acts).orch
    ensures Q.Takes(cfg, s.queue, qs) && Q.After(cfg, s.queue, qs) == After(cfg, w, s, acts).queue
    decreases |acts|
  {
    os, qs := [], [];
    if acts != [] {
      hide Step, Enabled, O.Step, Q.Step;
      var o, q := StepIsBoth(cfg, w, s, acts[0]);
      os, qs := JointRunIsBoth(cfg, w, Step(cfg, w, s, acts[0]), acts[1..]);
      OP.RunGoesOn(w, s.orch, o, os);
      QD.AfterMore(cfg, s.queue, q, qs);
      os, qs := o + os, q + qs;
    }
  }

  // ---------- each queued task has one job ----------

  ghost predicate OwnTasks(o: O.Orch) {
    && (forall i, j :: 0 <= i < j < |o.jobs| ==> o.jobs[i].envelope.taskId != o.jobs[j].envelope.taskId)
    && (forall i :: 0 <= i < |o.jobs| ==> o.jobs[i].envelope.taskId in o.store.tasks)
    && (forall e :: e in o.log && e.Invoked? && e.path.Queued? ==>
          e.path.job < |o.jobs| && e.envelope == o.jobs[e.path.job].envelope)
  }

  lemma DispatchKeepsOwnTasks(w: O.World, o: O.Orch, call: nat, d: O.DispatchCall)
    requires OP.Inv(o) && OwnTasks(o) && call !in o.calls
    ensures OwnTasks(O.DoDispatch(w, o, call, d).state)
  {
    OP.StepIsGood(w, o, O.Action.Dispatch(call, d));
    var t := O.DoDispatch(w, o, call, d).state;
    if !OP.IsNew(o, d) {
      OP.KnownDispatchOnlyAnswers(w, o, call, d);
    } else {
      NewDispatchAdds(w, o, call, d);
      hide OP.Inv, OP.Kept, O.DoDispatch;
      forall i | 0 <= i < |o.jobs| ensures o.jobs[i].envelope.taskId in t.store.tasks {}
    }
  }

  lemma NewDispatchAdds(w: O.World, o: O.Orch, call: nat, d: O.DispatchCall)
    requires OP.IsNew(o, d)
    ensures var t := O.DoDispatch(w, o, call, d).state;
            && (t.jobs == o.jobs
                || (t.jobs == o.jobs + [O.QueuedJob(d.envelope, d.capability, d.agentId)] && d.envelope.taskId in t.store.tasks))
            && d.envelope.taskId !in o.store.tasks
            && (forall e :: e in t.log && e.Invoked? && e.path.Queued? ==> e in o.log)
  {
    hide TaskStore.SaveThrows, TaskStore.Deleted, O.SameRequest;
  }

  lemma StepKeepsOwnTasks(w: O.World, o: O.Orch, a: O.Action)
    requires OP.Inv(o) && OwnTasks(o) && O.Enabled(o, a)
    ensures OwnTasks(O.Step(w, o, a))
  {
    OP.StepIsGood(w, o, a);
    if a.Dispatch? {
      DispatchKeepsOwnTasks(w, o, a.call, a.d);
    } else {
      OtherStepAdds(w, o, a);
      hide OP.Inv, OP.Kept, O.Step;
    }
  }

  lemma OtherStepAdds(w: O.World, o: O.Orch, a: O.Action)
    requires O.Enabled(o, a) && !a.Dispatch?
    ensures var t := O.Step(w, o, a);
            && t.jobs == o.jobs
            && forall e :: e in t.log && e.Invoked? && e.path.Queued? ==>
                 e in o.log || (a.RunJob? && e.path.job == a.job && e.envelope == o.jobs[a.job].envelope)
  {
    hide TaskStore.UpdateThrows, TaskStore.Updated, O.ApprovalMatches, O.DoDispatch;
  }

  lemma {:induction false} RunKeepsOwnTasks(w: O.World, o: O.Orch, acts: seq<O.Action>)
    requires OP.Inv(o) && OwnTasks(o) && O.Takes(w, o, acts)
    ensures OwnTasks(O.After(w, o, acts))
    decreases |acts|
  {
    hide OP.Inv, OwnTasks;
    if acts != [] {
      OP.StepIsGood(w, o, acts[0]);
      StepKeepsOwnTasks(w, o, acts[0]);
      RunKeepsOwnTasks(w, O.Step(w, o, acts[0]), acts[1..]);
    }
  }

  // ---------- what is executed for an asynchronous task ----------

  predicate RunsTask(e: O.Event, taskId: string) {
    e.Invoked? && e.path.Queued? && e.envelope.taskId == taskId
  }

  function CallsForTask(log: seq<O.Event>, taskId: string): nat {
    if log == [] then 0 else (if RunsTask(log[0], taskId) then 1 else 0) + CallsForTask(log[1..], taskId)
  }

  lemma {:induction false} TaskCallsAreJobCalls(log: seq<O.Event>, taskId: string, job: nat)
    requires forall e :: e in log && RunsTask(e, taskId) ==> RunsJob(e, job)
    ensures CallsForTask(log, taskId) <= CallsFor(log, job)
  {
    if log != [] {
      assert log[0] in log;
      TaskCallsAreJobCalls(log[1..], taskId, job);
    }
  }

  /** In every run of the whole system, the queued path calls an adapter at most `maxAttempts` times for one task. */
  lemma TaskCallsAreBounded(cfg: Q.Config, w: O.World, policy: O.Policy, executorPolicy: O.Policy, acts: seq<Action>, taskId: string)
    requires Q.ValidConfig(cfg) && Takes(cfg, w, Start(policy, executorPolicy), acts)
    ensures CallsForTask(After(cfg, w, Start(policy, executorPolicy), acts).orch.log, taskId) <= cfg.maxAttempts
  {
    hide Takes, After, OP.Inv;
    var s := After(cfg, w, Start(policy, executorPolicy), acts);
    var os, qs := JointRunIsBoth(cfg, w, Start(policy, executorPolicy), acts);
    OP.StartIsGood(policy, executorPolicy);
    RunKeepsOwnTasks(w, O.Start(policy, executorPolicy), os);
    var log, jobs := s.orch.log, s.orch.jobs;
    var job := if j: nat :| j < |jobs| && jobs[j].envelope.taskId == taskId then j else 0;
    TaskCallsAreJobCalls(log, taskId, job);
    AdapterCallsAreBounded(cfg, w, policy, executorPolicy, acts, job);
  }

  // ---------- how a queued task starts and ends ----------

  /**
    An asynchronous dispatch that is allowed is queued exactly when the queue has a free place,
    and jobs in flight, queued and waiting together leave room.
   */
  lemma DispatchIsQueuedIff(cfg: Q.Config, w: O.World, s: Joint, call: nat, d: O.DispatchCall)
    requires Q.ValidConfig(cfg) && Coupled(cfg, s) && OP.GoodStore(s.orch.store) && Enabled(cfg, w, s, Dispatch(call, d))
    requires OP.IsNew(s.orch, d) && d.resolves && d.negotiates && d.intentValid && d.asyncDelivery && d.receiptAppends
    requires w.evaluate(s.orch.policy, w.intentOf(d.envelope, d.capability)) == O.Allow
    ensures var q := s.queue;
            var t := Step(cfg, w, s, Dispatch(call, d));
            var room := |q.queue| < cfg.maxQueueDepth
                        && q.slots.inflight + |q.queue| + |q.jobs.waiting| < cfg.maxConcurrent + cfg.maxQueueDepth;
            if room then
              && t.orch.jobs == s.orch.jobs + [O.QueuedJob(d.envelope, d.capability, d.agentId)]
              && t.queue.queue == q.queue + [Q.Job(q.jobs.nextId, d.envelope.taskId, Some(TenantKey(d.envelope.requester.tenantId)),
                                                   1, d.envelope.idempotencyToken)]
            else t.orch.jobs == s.orch.jobs && t.queue == q && t.orch.store == s.orch.store
  {
    Outcomes.AllowedDispatchOutcome(w, s.orch, call, d);
    hide OP.GoodStore, OP.IsNew, O.DoDispatch, AllTagged, RunsMatch, Counted, QI.Awake, QI.Retries, Q.DoEnqueue;
    WaitingIsCounted(cfg, s.queue);
    QS.EnqueueAppendsIff(cfg, s.queue, d.envelope.taskId, Some(TenantKey(d.envelope.requester.tenantId)), d.envelope.idempotencyToken);
  }

  lemma WaitingIsCounted(cfg: Q.Config, q: Q.State)
    requires QI.Inv(cfg, q)
    ensures q.pendingRetry == |q.jobs.waiting|
  {
  }

  lemma StartsKeepStore(cfg: Q.Config, w: O.World, o: O.Orch, starts: seq<Started>)
    requires O.Takes(w, o, StartActs(starts))
    ensures O.After(w, o, StartActs(starts)).store == o.store
    decreases |starts|
  {
    if starts != [] {
      var act := O.Action.RunJob(starts[0].job, starts[0].call, starts[0].start);
      assert StartActs(starts)[0] == act && StartActs(starts)[1..] == StartActs(starts[1..]);
      StartsKeepStore(cfg, w, O.Step(w, o, act), starts[1..]);
    }
  }

  predicate IsRunningTask(o: O.Orch, job: nat) {
    && job < |o.jobs|
    && var id := o.jobs[job].envelope.taskId;
    id in o.store.tasks && o.store.tasks[id].taskId == id && o.store.tasks[id].status == TaskStore.Running
  }

  predicate IsFailedTask(o: O.Orch, id: string, content: string) {
    && id in o.store.tasks && o.store.tasks[id].status == TaskStore.Failed
    && o.store.tasks[id].result == Some(TaskStore.Result(id, TaskStore.Failed, "", content))
  }

  lemma DeadLetterFails(o: O.Orch, job: nat, content: string, receipt: string)
    requires IsRunningTask(o, job)
    ensures IsFailedTask(O.DoDeadLetter(o, job, content, receipt), o.jobs[job].envelope.taskId, content)
  {
    Outcomes.DeadLetterOutcome(o, job, content, receipt);
    hide O.DoDeadLetter;
  }

  /** A run that rejects on its last attempt leaves its job dead-lettered and its running task failed. */
  lemma LastRejectionFailsTask(cfg: Q.Config, w: O.World, s: Joint, call: nat, outcome: Option<O.CoreResult>, appends: bool,
                               content: string, receipt: string, starts: seq<Started>)
    requires Q.ValidConfig(cfg) && Coupled(cfg, s)
    requires Enabled(cfg, w, s, EndRun(call, outcome, appends, content, receipt, starts))
    requires s.queue.jobs.running[s.orch.calls[call].job].attempt == cfg.maxAttempts
    requires O.DoResume(s.orch, call, outcome, appends).reply.Throws?
    requires IsRunningTask(O.DoResume(s.orch, call, outcome, appends).state, s.orch.calls[call].job)
    ensures var job := s.orch.calls[call].job;
            var t := Step(cfg, w, s, EndRun(call, outcome, appends, content, receipt, starts));
            QS.EndedAs(t.queue, job, Q.DeadLettered) && IsFailedTask(t.orch, s.orch.jobs[job].envelope.taskId, content)
  {
    hide O.DoResume, O.DoDeadLetter, Coupled, QueueAfterRun, IsRunningTask, IsFailedTask, QS.EndedAs, CanStart;
    var job := s.orch.calls[call].job;
    var resumed := O.DoResume(s.orch, call, outcome, appends).state;
    ResumeEnds(s.orch, call, outcome, appends);
    DeadLetterFails(resumed, job, content, receipt);
    var dead := O.DoDeadLetter(resumed, job, content, receipt);
    StartsAreTaken(w, s.queue.jobs, QueueAfterRun(cfg, s.queue, job, false).jobs, dead, starts);
    StartsKeepStore(cfg, w, dead, starts);
    SameStoreSameTask(dead, O.After(w, dead, StartActs(starts)), s.orch.jobs[job].envelope.taskId, content);
    LastRejectionEnds(cfg, s, job);
  }

  lemma StartsAreTaken(w: O.World, before: Q.Jobs, after: Q.Jobs, o: O.Orch, starts: seq<Started>)
    requires CanStart(w, before, after, o, starts)
    ensures O.Takes(w, o, StartActs(starts))
  {
  }

  lemma SameStoreSameTask(o: O.Orch, t: O.Orch, id: string, content: string)
    requires IsFailedTask(o, id, content) && t.store == o.store
    ensures IsFailedTask(t, id, content)
  {
  }

  lemma LastRejectionEnds(cfg: Q.Config, s: Joint, job: nat)
    requires Q.ValidConfig(cfg) && Coupled(cfg, s) && job in s.queue.jobs.running
    requires s.queue.jobs.running[job].attempt == cfg.maxAttempts
    ensures QS.EndedAs(QueueAfterRun(cfg, s.queue, job, false), job, Q.DeadLettered)
  {
    hide AllTagged, RunsMatch, Counted, QI.Inv, Q.FinishJob, Q.DoThrow, QS.EndedAs;
    QS.RejectedRunRetriesIff(cfg, s.queue, job);
  }

  /** A retry that finds the queue full leaves its job dead-lettered and its running task failed; a stopped queue leaves both alone. */
  lemma DroppedRetryFailsTask(cfg: Q.Config, w: O.World, s: Joint, job: nat, content: string, receipt: string)
    requires Q.ValidConfig(cfg) && Coupled(cfg, s) && Enabled(cfg, w, s, Timer(job, content, receipt))
    requires IsRunningTask(s.orch, job)
    ensures var t := Step(cfg, w, s, Timer(job, content, receipt));
            if s.queue.active && |s.queue.queue| >= cfg.maxQueueDepth
            then QS.EndedAs(t.queue, job, Q.DeadLettered) && IsFailedTask(t.orch, s.orch.jobs[job].envelope.taskId, content)
            else t.orch == s.orch
  {
    DeadLetterFails(s.orch, job, content, receipt);
    hide O.DoDeadLetter, AllTagged, RunsMatch, Counted, QI.Inv, Q.Step, QS.EndedAs, IsRunningTask, IsFailedTask;
    QS.TimerRequeuesIff(cfg, s.queue, job);
  }

  // ---------- the two halves never block each other ----------

  lemma FreshCall(calls: set<nat>) returns (call: nat)
    ensures call !in calls && forall c :: c in calls ==> c < call
  {
    call := 0;
    var rest := calls;
    while rest != {}
      invariant rest <= calls && forall c :: c in calls && c !in rest ==> c < call
      decreases rest
    {
      var c :| c in rest;
      if c >= call { call := c + 1; }
      rest := rest - {c};
    }
  }

  /** Whatever jobs the queue starts, the orchestrator can run them, whatever the executor then meets. */
  lemma {:induction false} StartsExist(w: O.World, o: O.Orch, jobs: set<nat>, start: O.QueuedStart) returns (starts: seq<Started>)
    requires forall k :: k in jobs ==> k < |o.jobs|
    ensures O.Takes(w, o, StartActs(starts))
    ensures forall k: nat :: TimesStarted(starts, k) == if k in jobs then 1 else 0
    decreases jobs
  {
    starts := [];
    if jobs != {} {
      var k :| k in jobs;
      var call := FreshCall(o.calls.Keys);
      var act := O.Action.RunJob(k, call, start);
      var next := O.Step(w, o, act);
      var rest := StartsExist(w, next, jobs - {k}, start);
      starts := [Started(k, call, start)] + rest;
      assert StartActs(starts)[0] == act && starts[1..] == rest;
      assert StartActs(starts)[1..] == StartActs(rest);
    }
  }

  /** In every reachable state with a scheduler pass due, the pass can take place. */
  lemma PassIsPossible(cfg: Q.Config, w: O.World, s: Joint, start: O.QueuedStart) returns (starts: seq<Started>)
    requires Q.ValidConfig(cfg) && Coupled(cfg, s) && s.queue.microtasks > 0
    ensures Enabled(cfg, w, s, Pass(starts))
  {
    hide AllTagged, RunsMatch, Counted, Q.MaybeRunJobs, QI.Awake, QI.Retries;
    var due := s.queue.(microtasks := s.queue.microtasks - 1);
    DueTagged(s.queue, due, s.orch.jobs);
    PassStarts(cfg, due, s.orch.jobs);
    var r := Q.MaybeRunJobs(cfg, due);
    QI.StepKeepsInv(cfg, s.queue, Q.Action.MicrotaskFires);
    KnownJobs(cfg, r, |s.orch.jobs|);
    starts := StartsExist(w, s.orch, r.jobs.running.Keys - s.queue.jobs.running.Keys, start);
  }

  lemma KnownJobs(cfg: Q.Config, q: Q.State, n: nat)
    requires QI.Inv(cfg, q) && q.jobs.nextId == n
    ensures forall k :: k in q.jobs.running ==> k < n
  {
  }

  /** In every reachable state a suspended queued run can end, with any outcome. */
  lemma EndIsPossible(cfg: Q.Config, w: O.World, s: Joint, call: nat, outcome: Option<O.CoreResult>, appends: bool,
                      content: string, receipt: string, start: O.QueuedStart) returns (starts: seq<Started>)
    requires Q.ValidConfig(cfg) && Coupled(cfg, s) && IsRun(s.orch, call)
    ensures Enabled(cfg, w, s, EndRun(call, outcome, appends, content, receipt, starts))
  {
    hide QI.Inv, AllTagged, RunsMatch, Counted, QueueAfterRun, O.DoResume, O.DoDeadLetter;
    RunIsKnown(cfg, s, call);
    var job := s.orch.calls[call].job;
    var r := OrchAfterRun(cfg, s, call, outcome, appends, content, receipt);
    var resolved := r.reply.Returns?;
    ResumeEnds(s.orch, call, outcome, appends);
    DeadLetterIsQuiet(O.DoResume(s.orch, call, outcome, appends).state, job, content, receipt);
    QueueRunEnds(cfg, s.queue, job, resolved, s.orch.jobs);
    var q := QueueAfterRun(cfg, s.queue, job, resolved);
    EndKeepsInv(cfg, s.queue, job, resolved);
    KnownJobs(cfg, q, |s.orch.jobs|);
    var begun := set k | k in q.jobs.running && (k == job || k !in s.queue.jobs.running);
    starts := StartsExist(w, r.state, begun, start);
  }

  lemma RunIsKnown(cfg: Q.Config, s: Joint, call: nat)
    requires Coupled(cfg, s) && IsRun(s.orch, call)
    ensures s.orch.calls[call].job in s.queue.jobs.running && s.orch.calls[call].job < |s.orch.jobs|
  {
  }

  lemma EndKeepsInv(cfg: Q.Config, q: Q.State, job: nat, resolved: bool)
    requires Q.ValidConfig(cfg) && QI.Inv(cfg, q) && job in q.jobs.running
    ensures QI.Inv(cfg, QueueAfterRun(cfg, q, job, resolved))
  {
    QI.StepKeepsInv(cfg, q, if resolved then Q.Action.RunSucceeds(job) else Q.Action.RunThrows(job));
  }
}
