/**
  What each call comes to for its caller and for the store: the statuses, results and receipts
  that are stored and returned, and exactly when a call is refused.
 */
module Outcomes {
  import opened Common
  import opened TaskStore
  import opened OrchestratorModel
  import opened OrchestratorProofs

  // ---------- dispatch ----------

  /** The request is the stored task's own: same requester, tenant, capability and agent. */
  predicate IsOwn(r: Record, d: DispatchCall) {
    && r.requester.kind == d.envelope.requester.kind && r.requester.id == d.envelope.requester.id
    && TenantKey(r.requester.tenantId) == TenantKey(d.envelope.requester.tenantId)
    && r.capability == d.capability && r.targetAgent == d.agentId
  }

  /** An answer from a stored record: its outcome, or a wait if it is only accepted. */
  ghost predicate AnswersFrom(s: Orch, call: nat, r: Record, x: Reaction) {
    if r.status == Accepted
    then x.reply == Suspends && x.state == s.(calls := s.calls[call := Waiting(r.taskId, 1)])
    else x.state == s && r.result.Some? && r.receipt.Some? && x.reply == Returns(r.result.value, r.receipt.value)
  }

  /**
    A dispatch whose key or else whose task id has a record is answered from that record exactly
    when the request is the record's own; otherwise it throws. Either way nothing else happens.
   */
  lemma KnownDispatchOutcome(w: World, s: Orch, call: nat, d: DispatchCall, key: string)
    requires GoodStore(s.store) && call !in s.calls
    requires key == if d.envelope.idempotencyKey.Some? && !IsBlank(d.envelope.idempotencyKey.value)
                    then d.envelope.idempotencyKey.value else ""
    ensures var x := DoDispatch(w, s, call, d);
            var byKey := if key != "" then FindByKey(s.store, key) else None;
            && (!d.resolves || d.envelope.taskId == "" ==> x == Reaction(s, Throws))
            && (d.resolves && d.envelope.taskId != "" && byKey.Some? ==>
                  if IsOwn(byKey.value, d) then AnswersFrom(s, call, byKey.value, x) else x == Reaction(s, Throws))
            && (d.resolves && d.envelope.taskId != "" && byKey.None? && d.envelope.taskId in s.store.tasks ==>
                  if IsOwn(s.store.tasks[d.envelope.taskId], d) then AnswersFrom(s, call, s.store.tasks[d.envelope.taskId], x)
                  else x == Reaction(s, Throws))
  {
    assert s.calls - {call} == s.calls;
    if d.envelope.taskId in s.store.tasks {
      assert Complete(d.envelope.taskId, s.store.tasks[d.envelope.taskId]);
    }
    if key != "" && FindByKey(s.store, key).Some? {
      assert Complete(s.store.index[key], s.store.tasks[s.store.index[key]]);
    }
    BlankIsEmpty(d.envelope.idempotencyKey);
    hide GoodStore, FindByKey;
  }

  lemma BlankIsEmpty(key: Option<string>)
    ensures key.Some? && !IsBlank(key.value) ==> key.value != ""
  {
  }

  /** The record that a first dispatch stores. */
  function FirstRecord(d: DispatchCall, status: Status, reference: string): Record {
    var id := d.envelope.taskId;
    var key := if d.envelope.idempotencyKey.Some? && !IsBlank(d.envelope.idempotencyKey.value) then d.envelope.idempotencyKey else None;
    Record(id, d.envelope.contextId, d.envelope.requester, key, d.capability, d.agentId,
           status, Some(Result(id, status, reference, d.content)), Some(Receipt(d.receipt, Some(id), "")))
  }

  ghost predicate Stores(s: Store, t: Store, r: Record) {
    t.tasks == s.tasks[r.taskId := r]
  }

  lemma NewIsSaved(s: Orch, d: DispatchCall)
    requires GoodStore(s.store) && IsNew(s, d)
    ensures !SaveThrows(s.store, FirstSave(d, AwaitingApproval, ReferenceFor(d.envelope.taskId)))
    ensures !SaveThrows(s.store, FirstSave(d, Running, "")) && !SaveThrows(s.store, FirstSave(d, Accepted, ""))
  {
    var key := KeyOf(KeyFor(d.envelope));
    assert key == "" || key !in s.store.index;
  }

  /** What a first dispatch comes to when the policy asks for approval: an awaiting record that carries its reference. */
  lemma ApprovalDispatchOutcome(w: World, s: Orch, call: nat, d: DispatchCall)
    requires GoodStore(s.store) && IsNew(s, d) && d.resolves && d.negotiates
    requires w.evaluate(s.policy, w.intentOf(d.envelope, d.capability)) == RequireApproval
    ensures var x := DoDispatch(w, s, call, d);
            var r := FirstRecord(d, AwaitingApproval, "approval:" + d.envelope.taskId);
            && x.state.calls == s.calls && x.state.jobs == s.jobs
            && (if d.resultValid then Stores(s.store, x.state.store, r) else x.state.store == s.store)
            && x.reply == if d.resultValid && d.receiptAppends then Returns(r.result.value, r.receipt.value) else Throws
  {
    NewIsSaved(s, d);
    hide GoodStore, IsNew, SaveThrows, IsBlank;
    NewIsUnknown(s, d);
  }

  lemma NewIsUnknown(s: Orch, d: DispatchCall)
    requires IsNew(s, d)
    ensures d.envelope.taskId != "" && ById(s, d) == None && ByKey(s, d) == None
  {
  }

  /**
    What a first dispatch comes to when the policy allows it: with asynchronous delivery a
    running record and a job, or neither if the queue refuses; otherwise an accepted record and a
    call of the executor.
   */
  lemma AllowedDispatchOutcome(w: World, s: Orch, call: nat, d: DispatchCall)
    requires GoodStore(s.store) && IsNew(s, d) && d.resolves && d.negotiates
    requires w.evaluate(s.policy, w.intentOf(d.envelope, d.capability)) == Allow
    ensures var x := DoDispatch(w, s, call, d);
            if !d.intentValid || (d.asyncDelivery && !d.hasCapacity) then
              x.reply == Throws && x.state.store == s.store && x.state.calls == s.calls && x.state.jobs == s.jobs
            else if d.asyncDelivery then
              var r := FirstRecord(d, Running, "");
              && x.state.calls == s.calls
              && (if d.receiptAppends && !d.enqueued then x.state.store == s.store else Stores(s.store, x.state.store, r))
              && x.state.jobs == (if d.receiptAppends && d.enqueued then s.jobs + [QueuedJob(d.envelope, d.capability, d.agentId)] else s.jobs)
              && x.reply == if d.receiptAppends && d.enqueued then Returns(r.result.value, r.receipt.value) else Throws
            else
              && Stores(s.store, x.state.store, FirstRecord(d, Accepted, "")) && x.state.jobs == s.jobs && x.reply == Suspends
              && x.state.calls == s.calls[call := SyncCall(d.envelope, if d.adapterTakes then AnyAnswer else OnlyAnswer(None))]
              && x.state.log[|x.state.log| - 1..] ==
                   [Invoked(Synchronous, s.policy, d.envelope, KeyOf(FirstRecord(d, Accepted, "").key), d.capability, d.agentId, d.adapterTakes)]
  {
    NewIsSaved(s, d);
    NewIsUnknown(s, d);
    SaveThenDelete(s.store, FirstSave(d, Running, ""));
    hide GoodStore, IsNew, SaveThrows, IsBlank, Deleted;
  }

  /** A dispatch whose negotiation fails throws and leaves everything as it was. */
  lemma RefusedDispatchOutcome(w: World, s: Orch, call: nat, d: DispatchCall)
    requires IsNew(s, d) && !(d.resolves && d.negotiates)
    ensures DoDispatch(w, s, call, d) == Reaction(s, Throws)
  {
  }

  // ---------- waiting ----------

  /** A waiting dispatch ends with the stored outcome once the record is no longer accepted, or after 200 looks by throwing. */
  lemma WaitOutcome(s: Orch, call: nat)
    requires call in s.calls && s.calls[call].Waiting?
    ensures var id, looks := s.calls[call].taskId, s.calls[call].attempt;
            var x := DoPoll(s, call);
            var ready := id in s.store.tasks && s.store.tasks[id].status != Accepted
                         && s.store.tasks[id].result.Some? && s.store.tasks[id].receipt.Some?;
            && x.state.store == s.store && x.state.jobs == s.jobs && x.state.log == s.log
            && (if looks >= 200 then x.reply == Throws && x.state.calls == s.calls - {call}
                else if ready then x.reply == Returns(s.store.tasks[id].result.value, s.store.tasks[id].receipt.value)
                                   && x.state.calls == s.calls - {call}
                else x.reply == Suspends && x.state.calls == s.calls[call := Waiting(id, looks + 1)])
  {
  }

  // ---------- outcomes of executions ----------

  /** What the executor's answer makes of the record: this status, with this result and receipt, or nothing if refused. */
  ghost predicate Settles(s: Orch, call: nat, x: Reaction, r: Record, result: Result, receipt: Receipt, taken: bool, appends: bool) {
    if taken then
      && x.state.store == s.store.(tasks := s.store.tasks[r.taskId :=
           r.(status := result.status, result := Some(result), receipt := Some(receipt))])
      && x.reply == (if appends then Returns(result, receipt) else Throws)
      && x.state.calls == s.calls - {call}
    else
      x.state == s.(calls := s.calls - {call}) && x.reply == Throws
  }

  ghost predicate SameAgain(r: Record, result: Result, receipt: Receipt) {
    r.status == result.status && r.result == Some(result) && r.receipt == Some(receipt)
  }

  /**
    When a suspended call gets an adapter's result, the task is completed if the adapter
    succeeded and failed if not, with the adapter's content and reference; that is refused
    exactly when the task is proposed or already ended otherwise.
   */
  lemma AdapterOutcome(s: Orch, call: nat, ok: bool, reference: string, content: string, receipt: string, appends: bool)
    requires call in s.calls && !s.calls[call].Waiting? && s.calls[call].answer.AnyAnswer?
    requires var id := s.calls[call].envelope.taskId; id in s.store.tasks && s.store.tasks[id].taskId == id
    ensures var id := s.calls[call].envelope.taskId;
            var r := s.store.tasks[id];
            var result := Result(id, if ok then Completed else Failed, reference, content);
            var signed := Receipt(receipt, Some(id), "");
            var taken := r.status == Accepted || r.status == AwaitingApproval || r.status == Running || SameAgain(r, result, signed);
            Settles(s, call, DoResume(s, call, Some(AdapterResult(ok, reference, content, receipt)), appends), r, result, signed, taken, appends)
  {
  }

  /**
    A core receipt completes, denies or defers the task. A denial is refused for a running task,
    and a deferral for all but a task that is proposed or awaits approval.
   */
  lemma ReceiptOutcome(s: Orch, call: nat, action: EcpAction, content: string, receipt: string, appends: bool)
    requires call in s.calls && !s.calls[call].Waiting?
    requires s.calls[call].answer == AnyAnswer || s.calls[call].answer == OnlyAnswer(Some(CoreReceipt(action, content, receipt)))
    requires var id := s.calls[call].envelope.taskId; id in s.store.tasks && s.store.tasks[id].taskId == id
    ensures var id := s.calls[call].envelope.taskId;
            var r := s.store.tasks[id];
            var status := if action == EcpExecuted then Completed else if action == EcpApprovalRequired then AwaitingApproval else Denied;
            var result := Result(id, status, "", content);
            var signed := Receipt(receipt, Some(id), "");
            var taken := SameAgain(r, result, signed)
                         || (action == EcpExecuted && (r.status == Accepted || r.status == AwaitingApproval || r.status == Running))
                         || (action == EcpDenied && (r.status == Accepted || r.status == Proposed || r.status == AwaitingApproval))
                         || (action == EcpApprovalRequired && (r.status == Proposed || r.status == AwaitingApproval));
            Settles(s, call, DoResume(s, call, Some(CoreReceipt(action, content, receipt)), appends), r, result, signed, taken, appends)
  {
  }

  /** A call that is rejected, or can only be, throws and leaves the store as it was. */
  lemma RejectedOutcome(s: Orch, call: nat, outcome: Option<CoreResult>, appends: bool)
    requires call in s.calls && !s.calls[call].Waiting?
    requires s.calls[call].answer == OnlyAnswer(None) || (s.calls[call].answer == AnyAnswer && outcome == None)
    ensures DoResume(s, call, outcome, appends) == Reaction(s.(calls := s.calls - {call}), Throws)
  {
  }

  /** A queued run resolves, and says so in the log, exactly when its call returns. */
  lemma QueuedRunResolvesIff(s: Orch, call: nat, outcome: Option<CoreResult>, appends: bool)
    requires call in s.calls && s.calls[call].QueuedRun?
    ensures var x := DoResume(s, call, outcome, appends);
            x.state.log == if x.reply == Throws then s.log else s.log + [Finished(s.calls[call].job, s.calls[call].envelope)]
  {
  }

  // ---------- approval ----------

  /** An approval executes exactly when the request is in order and the stored record awaits it; otherwise it throws. */
  lemma ApproveOutcome(s: Orch, call: nat, a: ApproveCall)
    ensures var x := DoApprove(s, call, a);
            if && a.resolves && a.negotiates && a.envelope.taskId != "" && a.requestTaskId == a.envelope.taskId
               && a.requestTaskId in s.store.tasks
               && var r := s.store.tasks[a.requestTaskId];
                  && r.status == AwaitingApproval && r.capability == a.capability && r.targetAgent == a.agentId
                  && r.result.Some? && r.result.value.approvalReference == a.approvalReference != ""
            then && x.reply == Suspends && x.state.store == s.store && x.state.jobs == s.jobs
                 && x.state.calls == s.calls[call := ApprovedCall(a.envelope, if a.adapterTakes then AnyAnswer else OnlyAnswer(None))]
            else x == Reaction(s, Throws)
  {
  }

  // ---------- cancellation ----------

  /**
    A task is cancelled exactly when it is stored, belongs to the given tenant if one is given,
    and has not ended: it is revoked, with a receipt of its own. Otherwise nothing happens.
   */
  lemma CancelOutcome(s: Orch, taskId: string, tenantId: Option<string>, content: string)
    requires taskId in s.store.tasks ==> s.store.tasks[taskId].taskId == taskId
    ensures var x := DoCancel(s, taskId, tenantId, content);
            var result := Result(taskId, Revoked, "", content);
            var receipt := Receipt("receipt:" + taskId + ":cancel", Some(taskId), "");
            if && taskId in s.store.tasks
               && (tenantId == None || tenantId == Some("")
                   || TenantKey(s.store.tasks[taskId].requester.tenantId) == TenantKey(tenantId))
               && Rank(s.store.tasks[taskId].status) < 4
            then && x.reply == Returns(result, receipt)
                 && x.state == s.(store := s.store.(tasks := s.store.tasks[taskId :=
                      s.store.tasks[taskId].(status := Revoked, result := Some(result), receipt := Some(receipt))]))
            else x == Reaction(s, Throws)
  {
  }

  // ---------- queued runs and dead letters ----------

  /** A dead letter fails a task that has not ended; one that has is left as it is. */
  lemma DeadLetterOutcome(s: Orch, job: nat, content: string, receipt: string)
    requires job < |s.jobs|
    requires var id := s.jobs[job].envelope.taskId; id in s.store.tasks && s.store.tasks[id].taskId == id
    ensures var id := s.jobs[job].envelope.taskId;
            var r, t := s.store.tasks[id], DoDeadLetter(s, job, content, receipt);
            if r.status == Accepted || r.status == AwaitingApproval || r.status == Running
            then t == s.(store := s.store.(tasks := s.store.tasks[id :=
                   r.(status := Failed, result := Some(Result(id, Failed, "", content)), receipt := Some(Receipt(receipt, Some(id), "")))]))
            else t == s
  {
    var id := s.jobs[job].envelope.taskId;
    if s.store.tasks[id].status == Failed {
      assert s.store.tasks[id := s.store.tasks[id]] == s.store.tasks;
    }
  }

  /**
    A queued run that the executor's policy does not allow never denies or defers its running
    task: the store refuses both, so the run rejects, and the queue tries it again or gives it up.
   */
  lemma DisallowedRunRejects(w: World, s: Orch, job: nat, call: nat, start: QueuedStart, outcome: Option<CoreResult>, appends: bool)
    requires job < |s.jobs| && call !in s.calls && start.intentValid
    requires w.evaluate(s.executorPolicy, w.intentOf(s.jobs[job].envelope, s.jobs[job].capability)) != Allow
    requires var id := s.jobs[job].envelope.taskId;
             id in s.store.tasks && s.store.tasks[id].taskId == id && s.store.tasks[id].status == Running
    ensures var started := DoRunJob(w, s, job, call, start);
            && started.store == s.store
            && call in started.calls
            && started.calls[call] == QueuedRun(s.jobs[job].envelope, OnlyAnswer(Some(CoreReceipt(
                 if w.evaluate(s.executorPolicy, w.intentOf(s.jobs[job].envelope, s.jobs[job].capability)) == Deny
                 then EcpDenied else EcpApprovalRequired, start.content, start.receipt))), job)
            && DoResume(started, call, outcome, appends) == Reaction(started.(calls := started.calls - {call}), Throws)
  {
  }
}
