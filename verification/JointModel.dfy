/**
  The queue and the orchestrator as one system.

  An asynchronous dispatch enqueues a job whose run is the orchestrator's queued run; the queue
  decides when it runs, and how the run ends decides what the queue does with the job. A step is
  what runs without giving up the event loop, so a queue step may start several runs.
 */
module JointModel {
  import opened Common
  import Q = QueueModel
  import O = OrchestratorModel

  datatype Joint = Joint(queue: Q.State, orch: O.Orch)

  /** A run that a queue step starts: the job, the suspended call it becomes, what the executor meets. */
  datatype Started = Started(job: nat, call: nat, start: O.QueuedStart)

  datatype Action =
    | Dispatch(call: nat, d: O.DispatchCall)
    | OtherCall(oa: O.Action)
    | OtherQueue(qa: Q.Action)
    | Pass(starts: seq<Started>)
    | EndRun(call: nat, outcome: Option<O.CoreResult>, appends: bool, content: string, receipt: string, starts: seq<Started>)
    | Timer(job: nat, content: string, receipt: string)

  function StartActs(starts: seq<Started>): seq<O.Action> {
    if starts == [] then []
    else [O.Action.RunJob(starts[0].job, starts[0].call, starts[0].start)] + StartActs(starts[1..])
  }

  function TimesStarted(starts: seq<Started>, job: nat): nat {
    if starts == [] then 0 else (if starts[0].job == job then 1 else 0) + TimesStarted(starts[1..], job)
  }

  /** `starts` are the runs that take the queue's jobs from `before` to `after`; the orchestrator can take them. */
  ghost predicate CanStart(w: O.World, before: Q.Jobs, after: Q.Jobs, o: O.Orch, starts: seq<Started>) {
    && (forall k: nat :: Q.Runs(after, k) == Q.Runs(before, k) + TimesStarted(starts, k))
    && O.Takes(w, o, StartActs(starts))
  }

  predicate HasCapacity(cfg: Q.Config, q: Q.State) {
    q.slots.inflight + |q.queue| + q.pendingRetry < cfg.maxConcurrent + cfg.maxQueueDepth
  }

  /** The steps of the orchestrator that the queue has no part in. */
  predicate IsOther(o: O.Orch, a: O.Action)
    requires O.Enabled(o, a)
  {
    match a
    case Approve(_, _) => true
    case Poll(_) => true
    case CancelTask(_, _, _) => true
    case SetPolicy(_) => true
    case Resume(call, _, _) => !o.calls[call].QueuedRun?
    case _ => false
  }

  predicate IsRun(o: O.Orch, call: nat) {
    call in o.calls && o.calls[call].QueuedRun?
  }

  /** The queue's part of the end of a run. */
  ghost function QueueAfterRun(cfg: Q.Config, q: Q.State, job: nat, resolved: bool): Q.State
    requires job in q.jobs.running
  {
    Q.Step(cfg, q, if resolved then Q.Action.RunSucceeds(job) else Q.Action.RunThrows(job))
  }

  /** The orchestrator's part: the outcome, and on the last failed attempt the dead-letter callback. */
  function OrchAfterRun(cfg: Q.Config, s: Joint, call: nat, outcome: Option<O.CoreResult>, appends: bool,
                        content: string, receipt: string): O.Reaction
    requires IsRun(s.orch, call) && s.orch.calls[call].job in s.queue.jobs.running
    requires s.orch.calls[call].job < |s.orch.jobs|
  {
    var job := s.orch.calls[call].job;
    var r := O.DoResume(s.orch, call, outcome, appends);
    if r.reply.Throws? && s.queue.jobs.running[job].attempt >= cfg.maxAttempts
    then O.Reaction(O.DoDeadLetter(r.state, job, content, receipt), r.reply) else r
  }

  predicate TimerIsSet(q: Q.State, job: nat) {
    job in q.jobs.armed && job in q.jobs.waiting
  }

  ghost predicate Enabled(cfg: Q.Config, w: O.World, s: Joint, a: Action) {
    match a
    case Dispatch(call, d) =>
      && call !in s.orch.calls
      && d.hasCapacity == HasCapacity(cfg, s.queue) && d.enqueued == (|s.queue.queue| < cfg.maxQueueDepth)
    case OtherCall(oa) => O.Enabled(s.orch, oa) && IsOther(s.orch, oa)
    case OtherQueue(qa) => qa.Stop? || qa.SetTenantQuota? || qa.MarkEffectComplete?
    case Pass(starts) =>
      && s.queue.microtasks > 0
      && CanStart(w, s.queue.jobs, Q.Step(cfg, s.queue, Q.Action.MicrotaskFires).jobs, s.orch, starts)
    case EndRun(call, outcome, appends, content, receipt, starts) =>
      && IsRun(s.orch, call)
      && var job := s.orch.calls[call].job;
      && job in s.queue.jobs.running && job < |s.orch.jobs|
      && var r := OrchAfterRun(cfg, s, call, outcome, appends, content, receipt);
      CanStart(w, s.queue.jobs, QueueAfterRun(cfg, s.queue, job, r.reply.Returns?).jobs, r.state, starts)
    case Timer(job, _, _) => TimerIsSet(s.queue, job) && job < |s.orch.jobs|
  }

  /** The queue after a dispatch: it holds one more job if the dispatch was queued. */
  function QueueAfterDispatch(cfg: Q.Config, q: Q.State, o: O.Orch, after: O.Orch, d: O.DispatchCall): Q.State {
    if |after.jobs| == |o.jobs| then q
    else Q.DoEnqueue(cfg, q, d.envelope.taskId, Some(TenantKey(d.envelope.requester.tenantId)), d.envelope.idempotencyToken)
  }

  ghost function Step(cfg: Q.Config, w: O.World, s: Joint, a: Action): Joint
    requires Enabled(cfg, w, s, a)
  {
    match a
    case Dispatch(call, d) =>
      var after := O.Step(w, s.orch, O.Action.Dispatch(call, d));
      Joint(QueueAfterDispatch(cfg, s.queue, s.orch, after, d), after)
    case OtherCall(oa) => s.(orch := O.Step(w, s.orch, oa))
    case OtherQueue(qa) => s.(queue := Q.Step(cfg, s.queue, qa))
    case Pass(starts) =>
      Joint(Q.Step(cfg, s.queue, Q.Action.MicrotaskFires), O.After(w, s.orch, StartActs(starts)))
    case EndRun(call, outcome, appends, content, receipt, starts) =>
      var r := OrchAfterRun(cfg, s, call, outcome, appends, content, receipt);
      Joint(QueueAfterRun(cfg, s.queue, s.orch.calls[call].job, r.reply.Returns?), O.After(w, r.state, StartActs(starts)))
    case Timer(job, content, receipt) =>
      var dropped := s.queue.active && |s.queue.queue| >= cfg.maxQueueDepth;
      Joint(Q.Step(cfg, s.queue, Q.Action.TimerFires(job)),
            if dropped then O.DoDeadLetter(s.orch, job, content, receipt) else s.orch)
  }

  function Start(policy: O.Policy, executorPolicy: O.Policy): Joint {
    Joint(Q.Init(), O.Start(policy, executorPolicy))
  }

  ghost predicate Takes(cfg: Q.Config, w: O.World, s: Joint, acts: seq<Action>)
    decreases |acts|
  {
    acts == [] || (Enabled(cfg, w, s, acts[0]) && Takes(cfg, w, Step(cfg, w, s, acts[0]), acts[1..]))
  }

  ghost function After(cfg: Q.Config, w: O.World, s: Joint, acts: seq<Action>): Joint
    requires Takes(cfg, w, s, acts)
    decreases |acts|
  {
    if acts == [] then s else After(cfg, w, Step(cfg, w, s, acts[0]), acts[1..])
  }
}
