/** What the queue's guarantees mean for the adapters and the tasks. */
module JointProofs {
  import opened Common
  import Q = QueueModel
  import QP = QueueProofs
  import QI = QueueInvariant
  import O = OrchestratorModel
  import OP = OrchestratorProofs
  import TaskStore
  import opened JointModel

  // ---------- counting in the log ----------

  predicate RunsJob(e: O.Event, job: nat) {
    e.Invoked? && e.path == O.Queued(job)
  }

  function CallsFor(log: seq<O.Event>, job: nat): nat {
    if log == [] then 0 else (if RunsJob(log[0], job) then 1 else 0) + CallsFor(log[1..], job)
  }

  function EffectOf(envelope: O.Envelope): string {
    if envelope.idempotencyToken.Some? then envelope.idempotencyToken.value else "effect:" + envelope.taskId
  }

  /** The effects of the queued runs that have resolved, in order. */
  function Resolved(log: seq<O.Event>): seq<string> {
    if log == [] then [] else (if log[0].Finished? then [EffectOf(log[0].envelope)] else []) + Resolved(log[1..])
  }

  lemma {:induction false} LogConcat(a: seq<O.Event>, b: seq<O.Event>)
    ensures forall job :: CallsFor(a + b, job) == CallsFor(a, job) + CallsFor(b, job)
    ensures Resolved(a + b) == Resolved(a) + Resolved(b)
  {
    if a == [] {
      assert a + b == b;
    } else {
      assert (a + b)[1..] == a[1..] + b;
      LogConcat(a[1..], b);
    }
  }

  lemma OneEvent(log: seq<O.Event>, e: O.Event)
    ensures forall job :: CallsFor(log + [e], job) == CallsFor(log, job) + (if RunsJob(e, job) then 1 else 0)
    ensures Resolved(log + [e]) == Resolved(log) + (if e.Finished? then [EffectOf(e.envelope)] else [])
  {
    LogConcat(log, [e]);
    assert [e][1..] == [];
    forall job ensures CallsFor([e], job) == if RunsJob(e, job) then 1 else 0 {
      assert CallsFor([e][1..], job) == 0;
    }
  }

  /** The log has grown by events that are neither queued executions nor their ends. */
  ghost predicate Quiet(log: seq<O.Event>, later: seq<O.Event>) {
    (forall job :: CallsFor(later, job) == CallsFor(log, job)) && Resolved(later) == Resolved(log)
  }

  lemma QuietEvent(log: seq<O.Event>, e: O.Event)
    requires !e.Finished? && !(e.Invoked? && e.path.Queued?)
    ensures Quiet(log, log + [e])
  {
    OneEvent(log, e);
  }

  // ---------- the queue's jobs are the orchestrator's ----------

  ghost predicate Tagged(jobs: seq<O.QueuedJob>, j: Q.Job) {
    && j.id < |jobs|
    && j.taskId == jobs[j.id].envelope.taskId && j.token == jobs[j.id].envelope.idempotencyToken
    && j.tenantId == Some(TenantKey(jobs[j.id].envelope.requester.tenantId))
  }

  ghost predicate AllTagged(jobs: seq<O.QueuedJob>, q: Q.State) {
    && (forall i :: 0 <= i < |q.queue| ==> Tagged(jobs, q.queue[i]))
    && (forall id :: id in q.jobs.running ==> Tagged(jobs, q.jobs.running[id]))
    && (forall id :: id in q.jobs.waiting ==> Tagged(jobs, q.jobs.waiting[id]))
  }

  lemma TaggedEffect(jobs: seq<O.QueuedJob>, j: Q.Job)
    requires Tagged(jobs, j)
    ensures Q.Effect(j) == EffectOf(jobs[j.id].envelope)
  {
  }

  /** What a scheduler pass does to the runs: it only starts new ones, each of them once. */
  ghost predicate StartedSince(s: Q.Jobs, t: Q.Jobs) {
    && (forall k :: k in s.running ==> k in t.running)
    && (forall k :: Q.Runs(t, k) == Q.Runs(s, k) + (if k in t.running && k !in s.running then 1 else 0))
  }

  lemma MoveTags(cfg: Q.Config, t: Q.State, m: QP.Move, jobs: seq<O.QueuedJob>)
    requires AllTagged(jobs, t) && QP.Allowed(cfg, t, m)
    ensures AllTagged(jobs, QP.Apply(cfg, t, m))
  {
    hide Tagged;
    if m.StartFresh? || m.SkipDuplicate? {
      var rest := t.queue[..m.index] + t.queue[m.index + 1..];
      forall i | 0 <= i < |rest| ensures Tagged(jobs, rest[i]) {
        assert rest[i] == t.queue[if i < m.index then i else i + 1];
      }
    }
  }

  lemma JobStarts(s: Q.Jobs, t: Q.Jobs, job: Q.Job)
    requires StartedSince(s, t) && job.id !in t.running
    ensures StartedSince(s, Q.BeginRun(t, job))
  {
    var t' := Q.BeginRun(t, job);
    forall k ensures Q.Runs(t', k) == Q.Runs(t, k) + (if k == job.id then 1 else 0) {}
    forall k ensures Q.Runs(t', k) == Q.Runs(s, k) + (if k in t'.running && k !in s.running then 1 else 0) {
      assert Q.Runs(t, k) == Q.Runs(s, k) + (if k in t.running && k !in s.running then 1 else 0);
    }
  }

  lemma JobSkipped(s: Q.Jobs, t: Q.Jobs, id: nat)
    requires StartedSince(s, t) && id !in t.running
    ensures StartedSince(s, Q.EndJob(t, id, Q.SkippedDuplicate))
  {
    var t' := Q.EndJob(t, id, Q.SkippedDuplicate);
    forall k ensures Q.Runs(t', k) == Q.Runs(t, k) {}
  }

  lemma MoveStarts(cfg: Q.Config, s: Q.State, t: Q.State, m: QP.Move)
    requires QP.Core(cfg, t) && StartedSince(s.jobs, t.jobs) && QP.Allowed(cfg, t, m)
    ensures StartedSince(s.jobs, QP.Apply(cfg, t, m).jobs)
  {
    hide QP.Counters, QP.Ledger, QP.EffectsOnce, QP.Attempts, StartedSince;
    match m
    case StartFresh(index) =>
      QP.NotRunning(t.queue, t.jobs, index);
      JobStarts(s.jobs, t.jobs, t.queue[index]);
    case SkipDuplicate(index) =>
      QP.NotRunning(t.queue, t.jobs, index);
      JobSkipped(s.jobs, t.jobs, t.queue[index].id);
    case _ =>
  }

  lemma PassStarts(cfg: Q.Config, s: Q.State, jobs: seq<O.QueuedJob>)
    requires QP.Core(cfg, s) && AllTagged(jobs, s)
    ensures var r := Q.MaybeRunJobs(cfg, s);
            StartedSince(s.jobs, r.jobs) && AllTagged(jobs, r) && r.jobs.nextId == s.jobs.nextId && r.marks.succeeded == s.marks.succeeded
  {
    hide QP.Core, StartedSince, AllTagged;
    NothingStarted(s.jobs);
    var p := (t: Q.State) => QP.Core(cfg, t) && StartedSince(s.jobs, t.jobs) && AllTagged(jobs, t);
    forall t, m | p(t) && QP.Allowed(cfg, t, m) ensures p(QP.Apply(cfg, t, m)) {
      QP.CoreKeptByMove(cfg, t, m);
      MoveStarts(cfg, s, t, m);
      MoveTags(cfg, t, m, jobs);
    }
    QP.SchedulerKeeps(cfg, p, s);
    QI.SchedulerKeepsCore(cfg, s);
  }

  lemma NothingStarted(s: Q.Jobs)
    ensures StartedSince(s, s)
  {
  }

  // ---------- the suspended runs are the queue's running jobs ----------

  /** Each suspended queued run is of a running job, each running job has one, and only one. */
  ghost predicate RunsMatch(o: O.Orch, running: set<nat>) {
    && (forall c :: IsRun(o, c) ==> o.calls[c].job in running)
    && (forall c :: IsRun(o, c) ==> o.calls[c].job < |o.jobs| && o.calls[c].envelope == o.jobs[o.calls[c].job].envelope)
    && (forall c, d :: IsRun(o, c) && IsRun(o, d) && o.calls[c].job == o.calls[d].job ==> c == d)
    && (forall k :: k in running ==> HasCall(o, k))
  }

  ghost predicate HasCall(o: O.Orch, job: nat) {
    exists c :: IsRun(o, c) && o.calls[c].job == job
  }

  lemma RunAdded(o: O.Orch, t: O.Orch, running: set<nat>, call: nat)
    requires RunsMatch(o, running) && call !in o.calls && IsRun(t, call)
    requires t.jobs == o.jobs && t.calls == o.calls[call := t.calls[call]]
    requires var run := t.calls[call]; run.job < |o.jobs| && run.job !in running && run.envelope == o.jobs[run.job].envelope
    ensures RunsMatch(t, running + {t.calls[call].job})
  {
    forall c ensures IsRun(t, c) <==> c == call || IsRun(o, c) {}
    assert forall c :: IsRun(o, c) ==> t.calls[c] == o.calls[c];
    assert HasCall(t, t.calls[call].job);
    forall k | k in running ensures HasCall(t, k) {
      var c :| IsRun(o, c) && o.calls[c].job == k;
      assert IsRun(t, c) && t.calls[c].job == k;
    }
  }

  lemma RunJobAdds(w: O.World, o: O.Orch, job: nat, call: nat, start: O.QueuedStart)
    requires job < |o.jobs|
    ensures var t := O.DoRunJob(w, o, job, call, start);
            && t.jobs == o.jobs && t.store == o.store
            && IsRun(t, call) && t.calls == o.calls[call := t.calls[call]]
            && t.calls[call].job == job && t.calls[call].envelope == o.jobs[job].envelope
  {
  }

  lemma RunAddedLog(w: O.World, o: O.Orch, job: nat, call: nat, start: O.QueuedStart)
    requires job < |o.jobs|
    ensures var t := O.DoRunJob(w, o, job, call, start);
            && Resolved(t.log) == Resolved(o.log)
            && forall k: nat :: CallsFor(t.log, k) <= CallsFor(o.log, k) + (if k == job then 1 else 0)
  {
    if start.intentValid {
      var j := o.jobs[job];
      var decision := O.Decide(w, o.executorPolicy, j.envelope, j.capability);
      var evaluated := O.Evaluated(o.executorPolicy, j.envelope, j.capability, decision);
      OneEvent(o.log, evaluated);
      OneEvent(o.log + [evaluated],
               O.Invoked(O.Queued(job), o.executorPolicy, j.envelope, "", j.capability, j.agentId, start.adapterTakes));
    }
  }

  function StartedJobs(starts: seq<Started>): set<nat> {
    if starts == [] then {} else {starts[0].job} + StartedJobs(starts[1..])
  }

  lemma {:induction false} StartedMeansCounted(starts: seq<Started>)
    ensures forall k: nat :: k in StartedJobs(starts) <==> TimesStarted(starts, k) > 0
  {
    if starts != [] {
      StartedMeansCounted(starts[1..]);
    }
  }

  lemma {:induction false} StartsMatch(w: O.World, o: O.Orch, running: set<nat>, starts: seq<Started>)
    requires RunsMatch(o, running) && O.Takes(w, o, StartActs(starts))
    requires forall k: nat :: TimesStarted(starts, k) <= (if k in running then 0 else 1)
    ensures var t := O.After(w, o, StartActs(starts));
            && RunsMatch(t, running + StartedJobs(starts)) && t.jobs == o.jobs && t.store == o.store
            && Resolved(t.log) == Resolved(o.log)
            && forall k: nat :: CallsFor(t.log, k) <= CallsFor(o.log, k) + TimesStarted(starts, k)
    decreases |starts|
  {
    hide RunsMatch, CallsFor, Resolved, O.DoRunJob;
    if starts == [] {
      assert running + {} == running;
    } else {
      var first := starts[0];
      var act := O.Action.RunJob(first.job, first.call, first.start);
      assert StartActs(starts)[0] == act && StartActs(starts)[1..] == StartActs(starts[1..]);
      assert TimesStarted(starts, first.job) == 1 + TimesStarted(starts[1..], first.job);
      var next := O.Step(w, o, act);
      RunJobAdds(w, o, first.job, first.call, first.start);
      RunAdded(o, next, running, first.call);
      RunAddedLog(w, o, first.job, first.call, first.start);
      forall k: nat ensures TimesStarted(starts[1..], k) <= (if k in running + {first.job} then 0 else 1) {
        assert TimesStarted(starts, k) == (if first.job == k then 1 else 0) + TimesStarted(starts[1..], k);
      }
      StartsMatch(w, next, running + {first.job}, starts[1..]);
      assert running + {first.job} + StartedJobs(starts[1..]) == running + StartedJobs(starts);
      forall k: nat ensures CallsFor(O.After(w, o, StartActs(starts)).log, k) <= CallsFor(o.log, k) + TimesStarted(starts, k) {
        assert TimesStarted(starts, k) == (if first.job == k then 1 else 0) + TimesStarted(starts[1..], k);
      }
    }
  }

  lemma RunRemoved(o: O.Orch, running: set<nat>, call: nat)
    requires RunsMatch(o, running) && IsRun(o, call)
    ensures RunsMatch(o.(calls := o.calls - {call}), running - {o.calls[call].job})
  {
    var t := o.(calls := o.calls - {call});
    var job := o.calls[call].job;
    forall c | IsRun(t, c) ensures IsRun(o, c) && c != call && t.calls[c] == o.calls[c] {}
    forall k | k in running - {job} ensures HasCall(t, k) {
      var c :| IsRun(o, c) && o.calls[c].job == k;
      assert IsRun(t, c) && t.calls[c].job == k;
    }
  }

  /** A step that leaves the suspended queued runs alone. */
  lemma RunsStay(o: O.Orch, t: O.Orch, running: set<nat>)
    requires RunsMatch(o, running) && o.jobs <= t.jobs
    requires forall c :: IsRun(t, c) ==> IsRun(o, c)
    requires forall c :: IsRun(o, c) ==> IsRun(t, c) && t.calls[c] == o.calls[c]
    ensures RunsMatch(t, running)
  {
    forall k | k in running ensures HasCall(t, k) {
      var c :| IsRun(o, c) && o.calls[c].job == k;
      assert IsRun(t, c) && t.calls[c].job == k;
    }
  }

  // ---------- the invariant ----------

  ghost predicate Counted(q: Q.State, o: O.Orch) {
    && (forall k: nat :: CallsFor(o.log, k) <= Q.Runs(q.jobs, k))
    && Resolved(o.log) == q.marks.succeeded
  }

  ghost predicate Coupled(cfg: Q.Config, s: Joint) {
    && QI.Inv(cfg, s.queue)
    && |s.orch.jobs| == s.queue.jobs.nextId
    && AllTagged(s.orch.jobs, s.queue)
    && RunsMatch(s.orch, s.queue.jobs.running.Keys)
    && Counted(s.queue, s.orch)
  }

  lemma StartIsCoupled(cfg: Q.Config, policy: O.Policy, executorPolicy: O.Policy)
    requires Q.ValidConfig(cfg)
    ensures Coupled(cfg, Start(policy, executorPolicy))
  {
    QI.InitInv(cfg);
  }

  // ---------- steps of the orchestrator alone ----------

  lemma DispatchIsQuiet(w: O.World, o: O.Orch, call: nat, d: O.DispatchCall)
    requires call !in o.calls
    ensures var t := O.DoDispatch(w, o, call, d).state;
            && Quiet(o.log, t.log)
            && (t.jobs == o.jobs || (d.enqueued && t.jobs == o.jobs + [O.QueuedJob(d.envelope, d.capability, d.agentId)]))
            && (forall c :: IsRun(t, c) ==> IsRun(o, c)) && (forall c :: IsRun(o, c) ==> IsRun(t, c) && t.calls[c] == o.calls[c])
  {
    hide CallsFor, Resolved, O.FirstSave, TaskStore.SaveThrows, TaskStore.Saved, TaskStore.Deleted, O.ById, O.ByKey, O.SameRequest;
    var decision := O.Decide(w, o.policy, d.envelope, d.capability);
    var answer := O.Answered(o.policy, d.envelope, d.capability, d.agentId, decision);
    QuietEvent(o.log, answer);
    var p := O.FirstSave(d, TaskStore.Accepted, "");
    QuietEvent(o.log + [answer], O.Invoked(O.Synchronous, o.policy, d.envelope, TaskStore.KeyOf(p.key), d.capability, d.agentId, d.adapterTakes));
  }

  lemma OtherIsQuiet(w: O.World, o: O.Orch, a: O.Action)
    requires O.Enabled(o, a) && IsOther(o, a)
    ensures var t := O.Step(w, o, a);
            && Quiet(o.log, t.log) && t.jobs == o.jobs
            && (forall c :: IsRun(t, c) ==> IsRun(o, c)) && (forall c :: IsRun(o, c) ==> IsRun(t, c) && t.calls[c] == o.calls[c])
  {
    hide CallsFor, Resolved, TaskStore.UpdateThrows, TaskStore.Updated, O.ApprovalMatches;
    if a.Approve? {
      var matched := O.Matched(a.a.envelope, a.a.capability, a.a.agentId, a.a.approvalReference);
      QuietEvent(o.log, matched);
      QuietEvent(o.log + [matched],
                 O.Invoked(O.Approved, o.policy, a.a.envelope, "", a.a.capability, a.a.agentId, a.a.adapterTakes));
    }
  }

  lemma DeadLetterIsQuiet(o: O.Orch, job: nat, content: string, receipt: string)
    requires job < |o.jobs|
    ensures var t := O.DoDeadLetter(o, job, content, receipt); t == o.(store := t.store)
  {
  }

  /** The end of a queued run: its call goes, and a resolved run leaves its effect in the log. */
  lemma ResumeEnds(o: O.Orch, call: nat, outcome: Option<O.CoreResult>, appends: bool)
    requires IsRun(o, call)
    ensures var r := O.DoResume(o, call, outcome, appends);
            && r.state.jobs == o.jobs && r.state.calls == o.calls - {call}
            && r.reply != O.Suspends
            && (forall k: nat :: CallsFor(r.state.log, k) == CallsFor(o.log, k))
            && Resolved(r.state.log) == Resolved(o.log) + (if r.reply.Returns? then [EffectOf(o.calls[call].envelope)] else [])
  {
    hide CallsFor, Resolved, TaskStore.UpdateThrows, TaskStore.Updated;
    OneEvent(o.log, O.Finished(o.calls[call].job, o.calls[call].envelope));
  }

  // ---------- steps of the queue ----------

  lemma AddJob(cfg: Q.Config, q: Q.State, jobs: seq<O.QueuedJob>, j: O.QueuedJob, tenantId: Option<string>)
    requires tenantId == Some(TenantKey(j.envelope.requester.tenantId))
    requires AllTagged(jobs, q) && |jobs| == q.jobs.nextId && |q.queue| < cfg.maxQueueDepth
    ensures var r := Q.DoEnqueue(cfg, q, j.envelope.taskId, tenantId, j.envelope.idempotencyToken);
            && AllTagged(jobs + [j], r) && r.jobs.nextId == q.jobs.nextId + 1
            && r.jobs.running == q.jobs.running && r.jobs.runs == q.jobs.runs && r.marks == q.marks
  {
  }

  /** The end of a run in the queue: the job leaves, and the pass that follows may start others. */
  lemma QueueRunEnds(cfg: Q.Config, q: Q.State, job: nat, resolved: bool, jobs: seq<O.QueuedJob>)
    requires Q.ValidConfig(cfg) && QI.Inv(cfg, q) && AllTagged(jobs, q) && job in q.jobs.running
    ensures var r := QueueAfterRun(cfg, q, job, resolved);
            && AllTagged(jobs, r) && r.jobs.nextId == q.jobs.nextId
            && r.marks.succeeded == q.marks.succeeded + (if resolved then [Q.Effect(q.jobs.running[job])] else [])
            && (forall k :: k in q.jobs.running && k != job ==> k in r.jobs.running)
            && (forall k: nat :: Q.Runs(r.jobs, k) ==
                  Q.Runs(q.jobs, k) + (if k in r.jobs.running && (k == job || k !in q.jobs.running) then 1 else 0))
  {
    hide QP.Core, Q.FinishJob, Q.DoThrow, QI.Awake, QI.Retries, AllTagged;
    QI.NotWaiting(cfg, q, job);
    var j := q.jobs.running[job];
    if resolved {
      EndedStarts(cfg, q, job, Q.Completed, jobs);
    } else if j.attempt < cfg.maxAttempts {
      RetriedStarts(cfg, q, job, jobs);
    } else {
      EndedStarts(cfg, q, job, Q.DeadLettered, jobs);
      LastThrow(cfg, q, job);
    }
  }

  lemma LastThrow(cfg: Q.Config, q: Q.State, job: nat)
    requires job in q.jobs.running && q.jobs.running[job].id == job && q.jobs.running[job].attempt >= cfg.maxAttempts
    ensures var j := q.jobs.running[job];
            Q.DoThrow(cfg, q, j) == Q.FinishJob(cfg, q.(jobs := Q.EndJob(q.jobs, job, Q.DeadLettered)), Q.Tenant(j), j.taskId)
  {
    hide Q.FinishJob;
  }

  lemma RetryTagged(q: Q.State, job: nat, jobs: seq<O.QueuedJob>)
    requires AllTagged(jobs, q) && job in q.jobs.running && q.jobs.running[job].id == job
    ensures AllTagged(jobs, QI.ClearedForRetry(q, q.jobs.running[job]))
  {
  }

  lemma StartsAfterEnd(before: Q.Jobs, ended: Q.Jobs, after: Q.Jobs, job: nat)
    requires StartedSince(ended, after) && job in before.running
    requires ended.running == before.running - {job} && ended.runs == before.runs
    ensures forall k :: k in before.running && k != job ==> k in after.running
    ensures forall k: nat :: Q.Runs(after, k) ==
              Q.Runs(before, k) + (if k in after.running && (k == job || k !in before.running) then 1 else 0)
  {
    assert forall k: nat :: Q.Runs(ended, k) == Q.Runs(before, k);
  }

  lemma RetriedStarts(cfg: Q.Config, q: Q.State, job: nat, jobs: seq<O.QueuedJob>)
    requires QP.Core(cfg, q) && AllTagged(jobs, q) && job in q.jobs.running && q.jobs.running[job].attempt < cfg.maxAttempts
    ensures var r := Q.DoThrow(cfg, q, q.jobs.running[job]);
            && AllTagged(jobs, r) && r.jobs.nextId == q.jobs.nextId && r.marks.succeeded == q.marks.succeeded
            && (forall k :: k in q.jobs.running && k != job ==> k in r.jobs.running)
            && (forall k: nat :: Q.Runs(r.jobs, k) ==
                  Q.Runs(q.jobs, k) + (if k in r.jobs.running && (k == job || k !in q.jobs.running) then 1 else 0))
  {
    hide QP.Core, Q.MaybeRunJobs, StartedSince, Tagged;
    QI.NotWaiting(cfg, q, job);
    QI.RetryKeepsCore(cfg, q, job);
    RetryTagged(q, job, jobs);
    var cleared := QI.ClearedForRetry(q, q.jobs.running[job]);
    PassStarts(cfg, cleared, jobs);
    StartsAfterEnd(q.jobs, cleared.jobs, Q.MaybeRunJobs(cfg, cleared).jobs, job);
  }

  lemma EndedStarts(cfg: Q.Config, q: Q.State, job: nat, outcome: Q.Outcome, jobs: seq<O.QueuedJob>)
    requires QP.Core(cfg, q) && AllTagged(jobs, q) && job in q.jobs.running
    ensures var j := q.jobs.running[job];
            var r := Q.FinishJob(cfg, q.(jobs := Q.EndJob(q.jobs, job, outcome), marks := QI.MarksAfter(q.marks, j, outcome)),
                                 Q.Tenant(j), j.taskId);
            && AllTagged(jobs, r) && r.jobs.nextId == q.jobs.nextId
            && r.marks.succeeded == QI.MarksAfter(q.marks, j, outcome).succeeded
            && (forall k :: k in q.jobs.running && k != job ==> k in r.jobs.running)
            && (forall k: nat :: Q.Runs(r.jobs, k) ==
                  Q.Runs(q.jobs, k) + (if k in r.jobs.running && (k == job || k !in q.jobs.running) then 1 else 0))
  {
    hide QP.Core, Q.MaybeRunJobs, StartedSince;
    var j := q.jobs.running[job];
    var ended := Q.Release(q.(jobs := Q.EndJob(q.jobs, job, outcome), marks := QI.MarksAfter(q.marks, j, outcome)),
                           Q.Tenant(j), j.taskId);
    QI.EndKeepsCore(cfg, q, job, outcome);
    PassStarts(cfg, ended, jobs);
    StartsAfterEnd(q.jobs, ended.jobs, Q.MaybeRunJobs(cfg, ended).jobs, job);
  }

  lemma TimerTagged(cfg: Q.Config, q: Q.State, job: Q.Job, jobs: seq<O.QueuedJob>)
    requires AllTagged(jobs, q) && job.id in q.jobs.waiting && q.jobs.waiting[job.id] == job && job.id !in q.jobs.running
    ensures var r := Q.DoTimer(cfg, q, job);
            && AllTagged(jobs, r) && r.jobs.nextId == q.jobs.nextId
            && r.jobs.running == q.jobs.running && r.jobs.runs == q.jobs.runs && r.marks == q.marks
  {
    assert q.jobs.running - {job.id} == q.jobs.running;
  }

  // ---------- joint steps ----------

  /** Runs that were started, on both sides. */
  lemma StartsKeepCoupling(w: O.World, before: Q.Jobs, q: Q.State, o: O.Orch, running: set<nat>, starts: seq<Started>)
    requires CanStart(w, before, q.jobs, o, starts)
    requires RunsMatch(o, running) && running <= q.jobs.running.Keys
    requires forall k: nat :: Q.Runs(q.jobs, k) == Q.Runs(before, k) + (if k in q.jobs.running && k !in running then 1 else 0)
    requires (forall k: nat :: CallsFor(o.log, k) <= Q.Runs(before, k)) && Resolved(o.log) == q.marks.succeeded
    ensures var t := O.After(w, o, StartActs(starts));
            RunsMatch(t, q.jobs.running.Keys) && Counted(q, t) && t.jobs == o.jobs
  {
    hide RunsMatch, CallsFor, Resolved, O.After, O.Takes;
    forall k: nat ensures TimesStarted(starts, k) == (if k in q.jobs.running && k !in running then 1 else 0) {
      assert Q.Runs(q.jobs, k) == Q.Runs(before, k) + TimesStarted(starts, k);
    }
    StartsMatch(w, o, running, starts);
    StartedMeansCounted(starts);
    assert running + StartedJobs(starts) == q.jobs.running.Keys;
  }

  lemma PassKeepsCoupling(cfg: Q.Config, w: O.World, s: Joint, starts: seq<Started>)
    requires Q.ValidConfig(cfg) && Coupled(cfg, s) && Enabled(cfg, w, s, Pass(starts))
    ensures Coupled(cfg, Step(cfg, w, s, Pass(starts)))
  {
    hide QP.Counters, QP.Ledger, QP.EffectsOnce, QP.Attempts, QI.Awake, QI.Retries, Q.MaybeRunJobs, RunsMatch, AllTagged,
      CallsFor, Resolved, CanStart;
    QI.StepKeepsInv(cfg, s.queue, Q.Action.MicrotaskFires);
    var due := s.queue.(microtasks := s.queue.microtasks - 1);
    assert QP.Core(cfg, due);
    DueTagged(s.queue, due, s.orch.jobs);
    PassStarts(cfg, due, s.orch.jobs);
    StartsKeepCoupling(w, s.queue.jobs, Q.MaybeRunJobs(cfg, due), s.orch, s.queue.jobs.running.Keys, starts);
  }

  lemma DueTagged(q: Q.State, due: Q.State, jobs: seq<O.QueuedJob>)
    requires AllTagged(jobs, q) && due.queue == q.queue && due.jobs == q.jobs
    ensures AllTagged(jobs, due)
  {
  }

  lemma EndRunKeepsCoupling(cfg: Q.Config, w: O.World, s: Joint, call: nat, outcome: Option<O.CoreResult>, appends: bool,
                            content: string, receipt: string, starts: seq<Started>)
    requires Q.ValidConfig(cfg) && Coupled(cfg, s)
    requires Enabled(cfg, w, s, EndRun(call, outcome, appends, content, receipt, starts))
    ensures Coupled(cfg, Step(cfg, w, s, EndRun(call, outcome, appends, content, receipt, starts)))
  {
    hide QP.Core, QI.Awake, QI.Retries, Q.Step, AllTagged, CallsFor, Resolved, CanStart, O.DoResume, O.DoDeadLetter;
    var job := s.orch.calls[call].job;
    var resumed := O.DoResume(s.orch, call, outcome, appends);
    var r := OrchAfterRun(cfg, s, call, outcome, appends, content, receipt);
    ResumeEnds(s.orch, call, outcome, appends);
    DeadLetterIsQuiet(resumed.state, job, content, receipt);
    var resolved := r.reply.Returns?;
    var qa := if resolved then Q.Action.RunSucceeds(job) else Q.Action.RunThrows(job);
    var q := QueueAfterRun(cfg, s.queue, job, resolved);
    QI.StepKeepsInv(cfg, s.queue, qa);
    QueueRunEnds(cfg, s.queue, job, resolved, s.orch.jobs);
    RunRemoved(s.orch, s.queue.jobs.running.Keys, call);
    var running := s.queue.jobs.running.Keys - {job};
    RunsStay(s.orch.(calls := s.orch.calls - {call}), r.state, running);
    RunningIsTagged(s.orch.jobs, s.queue, cfg, job);
    StartsKeepCoupling(w, s.queue.jobs, q, r.state, running, starts);
  }

  lemma RunningIsTagged(jobs: seq<O.QueuedJob>, q: Q.State, cfg: Q.Config, job: nat)
    requires AllTagged(jobs, q) && QP.Core(cfg, q) && job in q.jobs.running
    ensures job < |jobs| && Q.Effect(q.jobs.running[job]) == EffectOf(jobs[job].envelope)
  {
    QI.NotWaiting(cfg, q, job);
    TaggedEffect(jobs, q.jobs.running[job]);
  }

  lemma DispatchKeepsCoupling(cfg: Q.Config, w: O.World, s: Joint, call: nat, d: O.DispatchCall)
    requires Q.ValidConfig(cfg) && Coupled(cfg, s) && Enabled(cfg, w, s, Dispatch(call, d))
    ensures Coupled(cfg, Step(cfg, w, s, Dispatch(call, d)))
  {
    hide QP.Core, QI.Awake, QI.Retries, AllTagged, RunsMatch, CallsFor, Resolved, O.DoDispatch, Q.DoEnqueue;
    var o := O.DoDispatch(w, s.orch, call, d).state;
    var q := QueueAfterDispatch(cfg, s.queue, s.orch, o, d);
    var tenantId := Some(TenantKey(d.envelope.requester.tenantId));
    DispatchIsQuiet(w, s.orch, call, d);
    RunsStay(s.orch, o, s.queue.jobs.running.Keys);
    if o.jobs != s.orch.jobs {
      AddJob(cfg, s.queue, s.orch.jobs, O.QueuedJob(d.envelope, d.capability, d.agentId), tenantId);
      QI.EnqueueKeepsInv(cfg, s.queue, d.envelope.taskId, tenantId, d.envelope.idempotencyToken);
      assert forall k: nat :: Q.Runs(q.jobs, k) == Q.Runs(s.queue.jobs, k);
    }
  }

  lemma TimerKeepsCoupling(cfg: Q.Config, w: O.World, s: Joint, job: nat, content: string, receipt: string)
    requires Q.ValidConfig(cfg) && Coupled(cfg, s) && Enabled(cfg, w, s, Timer(job, content, receipt))
    ensures Coupled(cfg, Step(cfg, w, s, Timer(job, content, receipt)))
  {
    hide QP.Core, QI.Awake, QI.Retries, AllTagged, RunsMatch, CallsFor, Resolved, O.DoDeadLetter, Q.DoTimer;
    QI.StepKeepsInv(cfg, s.queue, Q.Action.TimerFires(job));
    QI.EndWaitOnly(cfg, s.queue, job);
    TimerTagged(cfg, s.queue, s.queue.jobs.waiting[job], s.orch.jobs);
    DeadLetterIsQuiet(s.orch, job, content, receipt);
    var t := Step(cfg, w, s, Timer(job, content, receipt));
    RunsStay(s.orch, t.orch, s.queue.jobs.running.Keys);
    assert forall k: nat :: Q.Runs(t.queue.jobs, k) == Q.Runs(s.queue.jobs, k);
  }

  lemma OtherKeepsCoupling(cfg: Q.Config, w: O.World, s: Joint, a: Action)
    requires Q.ValidConfig(cfg) && Coupled(cfg, s) && Enabled(cfg, w, s, a) && (a.OtherCall? || a.OtherQueue?)
    ensures Coupled(cfg, Step(cfg, w, s, a))
  {
    hide QI.Inv, AllTagged, RunsMatch, CallsFor, Resolved, O.Step, Q.Step;
    if a.OtherCall? {
      OtherIsQuiet(w, s.orch, a.oa);
      RunsStay(s.orch, O.Step(w, s.orch, a.oa), s.queue.jobs.running.Keys);
    } else {
      QI.StepKeepsInv(cfg, s.queue, a.qa);
      OtherQueueStep(cfg, s.queue, a.qa, s.orch.jobs);
    }
  }

  lemma OtherQueueStep(cfg: Q.Config, q: Q.State, a: Q.Action, jobs: seq<O.QueuedJob>)
    requires AllTagged(jobs, q) && (a.Stop? || a.SetTenantQuota? || a.MarkEffectComplete?)
    ensures var r := Q.Step(cfg, q, a); AllTagged(jobs, r) && r.jobs == q.jobs && r.marks.succeeded == q.marks.succeeded
  {
  }

  lemma StepKeepsCoupling(cfg: Q.Config, w: O.World, s: Joint, a: Action)
    requires Q.ValidConfig(cfg) && Coupled(cfg, s) && Enabled(cfg, w, s, a)
    ensures Coupled(cfg, Step(cfg, w, s, a))
  {
    hide Coupled, Step, Enabled;
    match a
    case Dispatch(call, d) => DispatchKeepsCoupling(cfg, w, s, call, d);
    case OtherCall(_) => OtherKeepsCoupling(cfg, w, s, a);
    case OtherQueue(_) => OtherKeepsCoupling(cfg, w, s, a);
    case Pass(starts) => PassKeepsCoupling(cfg, w, s, starts);
    case EndRun(call, outcome, appends, content, receipt, starts) =>
      EndRunKeepsCoupling(cfg, w, s, call, outcome, appends, content, receipt, starts);
    case Timer(job, content, receipt) => TimerKeepsCoupling(cfg, w, s, job, content, receipt);
  }

  lemma {:induction false} RunKeepsCoupling(cfg: Q.Config, w: O.World, s: Joint, acts: seq<Action>)
    requires Q.ValidConfig(cfg) && Coupled(cfg, s) && Takes(cfg, w, s, acts)
    ensures Coupled(cfg, After(cfg, w, s, acts))
    decreases |acts|
  {
    hide Coupled;
    if acts != [] {
      StepKeepsCoupling(cfg, w, s, acts[0]);
      RunKeepsCoupling(cfg, w, Step(cfg, w, s, acts[0]), acts[1..]);
    }
  }

  // ---------- the joint guarantees ----------

  /** In every run of the whole system, the adapter is called at most `maxAttempts` times for one queued job. */
  lemma AdapterCallsAreBounded(cfg: Q.Config, w: O.World, policy: O.Policy, executorPolicy: O.Policy, acts: seq<Action>, job: nat)
    requires Q.ValidConfig(cfg) && Takes(cfg, w, Start(policy, executorPolicy), acts)
    ensures CallsFor(After(cfg, w, Start(policy, executorPolicy), acts).orch.log, job) <= cfg.maxAttempts
  {
    StartIsCoupled(cfg, policy, executorPolicy);
    RunKeepsCoupling(cfg, w, Start(policy, executorPolicy), acts);
  }

  lemma {:induction false} ResolvedAt(log: seq<O.Event>, i: nat, j: nat) returns (m: nat, n: nat)
    requires i < j < |log| && log[i].Finished? && log[j].Finished?
    ensures m < n < |Resolved(log)|
    ensures Resolved(log)[m] == EffectOf(log[i].envelope) && Resolved(log)[n] == EffectOf(log[j].envelope)
  {
    if i > 0 {
      m, n := ResolvedAt(log[1..], i - 1, j - 1);
      if log[0].Finished? {
        m, n := m + 1, n + 1;
      }
    } else {
      var k := ResolvedOnce(log[1..], j - 1);
      m, n := 0, k + 1;
    }
  }

  lemma {:induction false} ResolvedOnce(log: seq<O.Event>, i: nat) returns (m: nat)
    requires i < |log| && log[i].Finished?
    ensures m < |Resolved(log)| && Resolved(log)[m] == EffectOf(log[i].envelope)
  {
    if i == 0 {
      m := 0;
    } else {
      m := ResolvedOnce(log[1..], i - 1);
      if log[0].Finished? {
        m := m + 1;
      }
    }
  }

  /** In every run of the whole system, of all queued runs with one idempotency token at most one resolves. */
  lemma TokensResolveOnce(cfg: Q.Config, w: O.World, policy: O.Policy, executorPolicy: O.Policy, acts: seq<Action>, i: nat, j: nat)
    requires Q.ValidConfig(cfg) && Takes(cfg, w, Start(policy, executorPolicy), acts)
    requires var log := After(cfg, w, Start(policy, executorPolicy), acts).orch.log;
             i < j < |log| && log[i].Finished? && log[j].Finished?
    ensures var log := After(cfg, w, Start(policy, executorPolicy), acts).orch.log;
            EffectOf(log[i].envelope) != EffectOf(log[j].envelope)
  {
    hide Takes, After;
    StartIsCoupled(cfg, policy, executorPolicy);
    RunKeepsCoupling(cfg, w, Start(policy, executorPolicy), acts);
    var m, n := ResolvedAt(After(cfg, w, Start(policy, executorPolicy), acts).orch.log, i, j);
  }

  /**
    The two halves always fit: in every reachable state the suspended queued runs are exactly the
    jobs that the queue counts as really running, one for each.
   */
  lemma SuspendedMeansRunning(cfg: Q.Config, w: O.World, policy: O.Policy, executorPolicy: O.Policy, acts: seq<Action>, job: nat)
    requires Q.ValidConfig(cfg) && Takes(cfg, w, Start(policy, executorPolicy), acts)
    ensures var s := After(cfg, w, Start(policy, executorPolicy), acts);
            && (job in s.queue.jobs.running <==> HasCall(s.orch, job))
            && (forall c, d :: IsRun(s.orch, c) && IsRun(s.orch, d) && s.orch.calls[c].job == s.orch.calls[d].job ==> c == d)
  {
    StartIsCoupled(cfg, policy, executorPolicy);
    RunKeepsCoupling(cfg, w, Start(policy, executorPolicy), acts);
  }
}
