/**
  The orchestrator object: it owns a task store and a policy and changes them step by step.

  `model` adds the suspended calls, the queue's jobs and the log of events to what the fields
  hold. Each method is one atomic step, and its contract names the step of `OrchestratorModel`.
 */
module Orchestrator {
  import opened Common
  import opened TaskStore
  import opened OrchestratorModel
  import opened OrchestratorProofs

  class OrchestratorRuntime {
    const world: World
    const taskStore: Tasks
    var policy: Policy
    var executorPolicy: Policy
    ghost var model: Orch

    ghost predicate Valid()
      reads this, taskStore
    {
      && model.store == taskStore.Contents()
      && model.policy == policy && model.executorPolicy == executorPolicy
      && Inv(model)
    }

    /** The executor comes with a policy of its own. */
    constructor (world: World, policy: Policy, executorPolicy: Policy)
      ensures Valid() && model == Start(policy, executorPolicy) && this.world == world && fresh(taskStore)
    {
      this.world := world;
      this.policy, this.executorPolicy := policy, executorPolicy;
      taskStore := new Tasks();
      model := Start(policy, executorPolicy);
      new;
      StartIsGood(policy, executorPolicy);
    }

    method SetPolicy(policy: Policy)
      requires Valid()
      modifies this
      ensures Valid() && model == Step(world, old(model), Action.SetPolicy(policy))
    {
      StepIsGood(world, model, Action.SetPolicy(policy));
      this.policy := policy;
      executorPolicy := policy;
      model := model.(policy := policy, executorPolicy := policy);
    }

    /** A dispatch up to its first await. */
    method Dispatch(call: nat, d: DispatchCall) returns (reply: Reply)
      requires Valid() && call !in model.calls
      modifies this, taskStore
      ensures Valid() && Reaction(model, reply) == DoDispatch(world, old(model), call, d)
    {
      hide Inv, SaveThrows, Saved, FromStored, FirstSave, StoreForApproval, StartAsync, StartSync;
      StepIsGood(world, model, Action.Dispatch(call, d));
      ghost var before := model;
      if !d.resolves || d.envelope.taskId == "" {
        return Throws;
      }
      var key := KeyFor(d.envelope);
      if key.Some? {
        var existing := FindByKey(taskStore.Contents(), key.value);
        if existing.Some? {
          if !SameRequest(existing.value, d) {
            return Throws;
          }
          if HasOutcome(existing.value) {
            reply := AnswerFromStored(call, existing.value, d);
            return;
          }
        }
      }
      if d.envelope.taskId in taskStore.tasks {
        var existing := taskStore.tasks[d.envelope.taskId];
        if !SameRequest(existing, d) {
          return Throws;
        }
        if HasOutcome(existing) {
          reply := AnswerFromStored(call, existing, d);
          return;
        }
      }
      if !d.negotiates {
        return Throws;
      }
      var decision := Decide(world, policy, d.envelope, d.capability);
      model := Logged(model, Answered(policy, d.envelope, d.capability, d.agentId, decision));
      if decision == Deny {
        return Throws;
      }
      if decision == RequireApproval {
        reply := SaveForApproval(d);
        return;
      }
      if !d.intentValid {
        return Throws;
      }
      if d.asyncDelivery {
        reply := SaveAndEnqueue(d);
        return;
      }
      reply := SaveAndExecute(call, d);
    }

    /** Fields and model agree; the invariant may be pending inside a step. */
    ghost predicate Matches()
      reads this, taskStore
    {
      model.store == taskStore.Contents() && model.policy == policy && model.executorPolicy == executorPolicy
    }

    method AnswerFromStored(call: nat, r: Record, d: DispatchCall) returns (reply: Reply)
      requires Matches() && HasOutcome(r) && SameRequest(r, d)
      modifies this
      ensures Matches() && Reaction(model, reply) == FromStored(old(model), call, r, d)
      ensures policy == old(policy) && executorPolicy == old(executorPolicy)
    {
      if r.status == Accepted {
        reply := Look(call, r.taskId, 0);
        return;
      }
      reply := Returns(r.result.value, r.receipt.value);
    }

    method SaveForApproval(d: DispatchCall) returns (reply: Reply)
      requires Matches()
      modifies this, taskStore
      ensures Matches() && Reaction(model, reply) == StoreForApproval(old(model), d)
    {
      var p := FirstSave(d, AwaitingApproval, ReferenceFor(d.envelope.taskId));
      if !d.resultValid {
        return Throws;
      }
      var saved := taskStore.Save(p);
      if !saved {
        return Throws;
      }
      model := model.(store := taskStore.Contents());
      reply := if d.receiptAppends then Returns(p.result, p.receipt) else Throws;
    }

    method SaveAndEnqueue(d: DispatchCall) returns (reply: Reply)
      requires Matches()
      modifies this, taskStore
      ensures Matches() && Reaction(model, reply) == StartAsync(old(model), d)
    {
      if !d.hasCapacity {
        return Throws;
      }
      var p := FirstSave(d, Running, "");
      var saved := taskStore.Save(p);
      if !saved {
        return Throws;
      }
      model := model.(store := taskStore.Contents());
      if !d.receiptAppends {
        return Throws;
      }
      if !d.enqueued {
        var found := taskStore.Delete(p.taskId);
        model := model.(store := taskStore.Contents());
        return Throws;
      }
      model := model.(jobs := model.jobs + [QueuedJob(d.envelope, d.capability, d.agentId)]);
      reply := Returns(p.result, p.receipt);
    }

    method SaveAndExecute(call: nat, d: DispatchCall) returns (reply: Reply)
      requires Matches()
      modifies this, taskStore
      ensures Matches() && Reaction(model, reply) == StartSync(old(model), call, d)
    {
      var p := FirstSave(d, Accepted, "");
      var saved := taskStore.Save(p);
      if !saved {
        return Throws;
      }
      model := model.(store := taskStore.Contents(),
                      calls := model.calls[call := SyncCall(d.envelope, AnswerOf(d.adapterTakes))]);
      model := Logged(model, Invoked(Synchronous, policy, d.envelope, KeyOf(p.key), d.capability, d.agentId, d.adapterTakes));
      reply := Suspends;
    }

    /** An approval up to its await. */
    method Approve(call: nat, a: ApproveCall) returns (reply: Reply)
      requires Valid() && call !in model.calls
      modifies this
      ensures Valid() && Reaction(model, reply) == DoApprove(old(model), call, a)
    {
      hide Inv;
      StepIsGood(world, model, Action.Approve(call, a));
      if !a.resolves || a.envelope.taskId == "" || a.requestTaskId != a.envelope.taskId || !a.negotiates {
        return Throws;
      }
      if a.requestTaskId !in taskStore.tasks {
        return Throws;
      }
      var pending := taskStore.tasks[a.requestTaskId];
      if pending.status != AwaitingApproval || pending.capability != a.capability || pending.targetAgent != a.agentId {
        return Throws;
      }
      var expected := StoredReference(pending);
      if expected == "" || expected != a.approvalReference {
        return Throws;
      }
      model := Logged(model, Matched(a.envelope, a.capability, a.agentId, a.approvalReference));
      model := Logged(model, Invoked(Approved, policy, a.envelope, "", a.capability, a.agentId, a.adapterTakes));
      model := model.(calls := model.calls[call := ApprovedCall(a.envelope, AnswerOf(a.adapterTakes))]);
      reply := Suspends;
    }

    /** A suspended dispatch, approval or queued run goes on with the executor's answer. */
    method Resume(call: nat, suspended: Suspended, outcome: Option<CoreResult>, appends: bool) returns (reply: Reply)
      requires Valid() && call in model.calls && model.calls[call] == suspended && !suspended.Waiting?
      modifies this, taskStore
      ensures Valid() && Reaction(model, reply) == DoResume(old(model), call, outcome, appends)
    {
      hide Inv, UpdateThrows;
      StepIsGood(world, model, Action.Resume(call, outcome, appends));
      model := model.(calls := model.calls - {call});
      var answer := if suspended.answer.OnlyAnswer? then suspended.answer.outcome else outcome;
      if answer.None? {
        return Throws;
      }
      var taskId := suspended.envelope.taskId;
      var result, receipt := ResultOf(answer.value, taskId), Receipt(answer.value.receipt, Some(taskId), "");
      var found, ok := taskStore.Update(taskId, OutcomeUpdate(StatusOf(answer.value), result, receipt));
      model := model.(store := taskStore.Contents());
      reply := if (found && !ok) || !appends then Throws else Returns(result, receipt);
      if suspended.QueuedRun? && reply.Returns? {
        model := Logged(model, Finished(suspended.job, suspended.envelope));
      }
    }

    /** A waiting dispatch wakes up. */
    method Poll(call: nat, taskId: string, attempt: nat) returns (reply: Reply)
      requires Valid() && call in model.calls && model.calls[call] == Waiting(taskId, attempt)
      modifies this
      ensures Valid() && Reaction(model, reply) == DoPoll(old(model), call)
    {
      hide Inv;
      StepIsGood(world, model, Action.Poll(call));
      reply := Look(call, taskId, attempt);
    }

    /** One look at the store for an outcome. The first is taken by the dispatch itself. */
    method Look(call: nat, taskId: string, attempt: nat) returns (reply: Reply)
      requires Matches()
      modifies this
      ensures Matches() && Reaction(model, reply) == WaitForStored(old(model), call, taskId, attempt)
      ensures policy == old(policy) && executorPolicy == old(executorPolicy)
    {
      if attempt < 200 {
        if taskId in taskStore.tasks {
          var current := taskStore.tasks[taskId];
          if HasOutcome(current) && current.status != Accepted {
            model := model.(calls := model.calls - {call});
            return Returns(current.result.value, current.receipt.value);
          }
        }
        model := model.(calls := model.calls[call := Waiting(taskId, attempt + 1)]);
        return Suspends;
      }
      model := model.(calls := model.calls - {call});
      reply := Throws;
    }

    /** The executor starts a queued job's run, under the policy of that moment. */
    method RunJob(job: nat, j: QueuedJob, call: nat, start: QueuedStart)
      requires Valid() && job < |model.jobs| && model.jobs[job] == j && call !in model.calls
      modifies this
      ensures Valid() && model == Step(world, old(model), Action.RunJob(job, call, start))
    {
      hide Inv;
      StepIsGood(world, model, Action.RunJob(job, call, start));
      if !start.intentValid {
        model := model.(calls := model.calls[call := QueuedRun(j.envelope, OnlyAnswer(None), job)]);
        return;
      }
      var decision := Decide(world, executorPolicy, j.envelope, j.capability);
      model := Logged(model, Evaluated(executorPolicy, j.envelope, j.capability, decision));
      if decision == Allow {
        model := model.(calls := model.calls[call := QueuedRun(j.envelope, AnswerOf(start.adapterTakes), job)]);
        model := Logged(model, Invoked(Queued(job), executorPolicy, j.envelope, "", j.capability, j.agentId, start.adapterTakes));
      } else {
        var action := if decision == Deny then EcpDenied else EcpApprovalRequired;
        var receipt := CoreReceipt(action, start.content, start.receipt);
        model := model.(calls := model.calls[call := QueuedRun(j.envelope, OnlyAnswer(Some(receipt)), job)]);
      }
    }

    /** The queue gives a job up. */
    method OnDeadLetter(job: nat, j: QueuedJob, content: string, receipt: string) returns (ok: bool)
      requires Valid() && job < |model.jobs| && model.jobs[job] == j
      modifies this, taskStore
      ensures Valid() && model == Step(world, old(model), Action.DeadLetter(job, content, receipt))
    {
      hide Inv, UpdateThrows;
      StepIsGood(world, model, Action.DeadLetter(job, content, receipt));
      var taskId := j.envelope.taskId;
      var found;
      found, ok := taskStore.Update(taskId,
        OutcomeUpdate(Failed, Result(taskId, Failed, "", content), Receipt(receipt, Some(taskId), "")));
      model := model.(store := taskStore.Contents());
    }

    method CancelTask(taskId: string, tenantId: Option<string>, content: string) returns (reply: Reply)
      requires Valid()
      modifies this, taskStore
      ensures Valid() && Reaction(model, reply) == DoCancel(old(model), taskId, tenantId, content)
    {
      hide Inv, UpdateThrows;
      StepIsGood(world, model, Action.CancelTask(taskId, tenantId, content));
      if !CancelFinds(taskStore.Contents(), taskId, tenantId) {
        return Throws;
      }
      if !Cancellable(taskStore.tasks[taskId].status) {
        return Throws;
      }
      var result := Result(taskId, Revoked, "", content);
      var receipt := Receipt("receipt:" + taskId + ":cancel", Some(taskId), "");
      var found, ok := taskStore.Update(taskId, OutcomeUpdate(Revoked, result, receipt));
      model := model.(store := taskStore.Contents());
      reply := if ok then Returns(result, receipt) else Throws;
    }
  }
}
