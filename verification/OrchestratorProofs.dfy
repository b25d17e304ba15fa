/** What every interleaving of the task lifecycle keeps. */
module OrchestratorProofs {
  import opened Common
  import opened TaskStore
  import opened OrchestratorModel

  // ---------- the store ----------

  /** Every record has an outcome that names its own task and status, and no task is ever proposed. */
  ghost predicate Complete(id: string, r: Record) {
    && r.taskId == id && HasOutcome(r)
    && r.result.value.taskId == id && r.result.value.status == r.status
    && r.status != Proposed
  }

  ghost predicate GoodStore(s: Store) {
    && Exact(s)
    && "" !in s.tasks
    && forall id :: id in s.tasks ==> Complete(id, s.tasks[id])
  }

  /** The fields that say whose task it is stay; so does the outcome once it is terminal. */
  ghost predicate Kept(r: Record, now: Record) {
    && now.taskId == r.taskId && now.requester == r.requester && now.key == r.key
    && now.capability == r.capability && now.targetAgent == r.targetAgent
    && (IsTerminal(r.status) ==> now.status == r.status && now.result == r.result && now.receipt == r.receipt)
    && (now.status == AwaitingApproval ==> r.status == AwaitingApproval)
  }

  ghost predicate StoreGrows(s: Store, t: Store) {
    forall id :: id in s.tasks ==> id in t.tasks && Kept(s.tasks[id], t.tasks[id])
  }

  lemma UpdateIsGood(s: Store, taskId: string, status: Status, result: Result, receipt: Receipt)
    requires GoodStore(s) && taskId in s.tasks && status != Proposed && result.taskId == taskId && result.status == status
    requires !UpdateThrows(s.tasks[taskId], OutcomeUpdate(status, result, receipt))
    ensures var t := Updated(s, taskId, OutcomeUpdate(status, result, receipt));
            GoodStore(t) && StoreGrows(s, t) && t.tasks.Keys == s.tasks.Keys
  {
    var u := OutcomeUpdate(status, result, receipt);
    UpdateKeepsExact(s, taskId, u);
    assert Applied(s, UpdateOp(taskId, u)) == Updated(s, taskId, u);
    assert Complete(taskId, s.tasks[taskId]);
    ApprovalIsNeverReached(s.tasks[taskId].status, status);
  }

  /** No stored status other than `proposed`, which is never stored, leads to awaiting approval. */
  lemma ApprovalIsNeverReached(current: Status, next: Status)
    ensures TransitionAllowed(current, next) && next == AwaitingApproval ==> current == Proposed || current == AwaitingApproval
  {
  }

  lemma FirstSaveIsGood(s: Store, p: SaveParams)
    requires GoodStore(s) && p.taskId != "" && p.taskId !in s.tasks && !SaveThrows(s, p)
    requires p.result.taskId == p.taskId && p.result.status != Proposed
    ensures GoodStore(Saved(s, p)) && StoreGrows(s, Saved(s, p))
  {
    SaveKeepsExactIff(s, p);
  }

  /** Taking a record back out right after its first save leaves the store, index included, as it was. */
  lemma SaveThenDelete(s: Store, p: SaveParams)
    requires GoodStore(s) && p.taskId != "" && p.taskId !in s.tasks && !SaveThrows(s, p)
    ensures Deleted(Saved(s, p), p.taskId) == s
  {
    var key := KeyOf(p.key);
    assert key == "" || key !in s.index;
    var t := Deleted(Saved(s, p), p.taskId);
    assert t.tasks == s.tasks;
    assert t.index == s.index;
  }

  // ---------- the log of events ----------

  predicate IsAnswer(e: Event, envelope: Envelope, capability: string, agentId: string, decision: Decision) {
    e.Answered? && e.envelope == envelope && e.capability == capability && e.agentId == agentId && e.decision == decision
  }

  /** Some dispatch of the task, whatever its content, was answered so. */
  ghost predicate AnsweredFor(log: seq<Event>, taskId: string, capability: string, agentId: string, decision: Decision) {
    exists k :: 0 <= k < |log| && log[k].Answered? && log[k].envelope.taskId == taskId
      && IsAnswer(log[k], log[k].envelope, capability, agentId, decision)
  }

  /** A dispatch of this very envelope was answered so. */
  ghost predicate AnsweredExactly(log: seq<Event>, envelope: Envelope, capability: string, agentId: string, decision: Decision) {
    exists k :: 0 <= k < |log| && IsAnswer(log[k], envelope, capability, agentId, decision)
  }

  predicate IsMatch(e: Event, f: Event)
    requires f.Invoked?
  {
    e.Matched? && e.envelope == f.envelope && e.capability == f.capability && e.agentId == f.agentId
  }

  /**
    An execution is allowed by what came before it. On the synchronous and the queued path the
    executed envelope is the answered one; on the approval path only the task id, the capability
    and the agent are.
   */
  ghost predicate Justified(log: seq<Event>, e: Event)
    requires e.Invoked?
  {
    if e.path == Approved then
      exists k :: 0 <= k < |log| && IsMatch(log[k], e)
        && AnsweredFor(log[..k], e.envelope.taskId, e.capability, e.agentId, RequireApproval)
    else AnsweredExactly(log, e.envelope, e.capability, e.agentId, Allow)
  }

  ghost predicate Gated(log: seq<Event>) {
    forall i :: 0 <= i < |log| && log[i].Invoked? ==> Justified(log[..i], log[i])
  }

  predicate SyncInvoked(e: Event) {
    e.Invoked? && e.path == Synchronous
  }

  /** Synchronous executions are of different tasks, and of different keys where they have one. */
  ghost predicate SyncOnce(log: seq<Event>) {
    forall i, j :: 0 <= i < j < |log| && SyncInvoked(log[i]) && SyncInvoked(log[j]) ==>
      log[i].envelope.taskId != log[j].envelope.taskId && (log[i].key != "" ==> log[i].key != log[j].key)
  }

  /** Each synchronous execution has left a record of its task, with its key. */
  ghost predicate SyncStored(log: seq<Event>, s: Store) {
    forall e :: e in log && SyncInvoked(e) ==> e.envelope.taskId in s.tasks && KeyOf(s.tasks[e.envelope.taskId].key) == e.key
  }

  ghost predicate AwaitingAnswered(log: seq<Event>, s: Store) {
    forall id :: id in s.tasks && s.tasks[id].status == AwaitingApproval ==>
      AnsweredFor(log, id, s.tasks[id].capability, s.tasks[id].targetAgent, RequireApproval)
  }

  ghost predicate JobsAnswered(log: seq<Event>, jobs: seq<QueuedJob>) {
    forall k :: 0 <= k < |jobs| ==>
      AnsweredExactly(log, jobs[k].envelope, jobs[k].capability, jobs[k].agentId, Allow)
  }

  ghost predicate Inv(s: Orch) {
    && GoodStore(s.store)
    && Gated(s.log) && SyncOnce(s.log)
    && SyncStored(s.log, s.store)
    && AwaitingAnswered(s.log, s.store)
    && JobsAnswered(s.log, s.jobs)
  }

  lemma AnswersStay(log: seq<Event>, e: Event)
    ensures forall taskId, capability, agentId, decision :: AnsweredFor(log, taskId, capability, agentId, decision) ==>
              AnsweredFor(log + [e], taskId, capability, agentId, decision)
    ensures forall envelope, capability, agentId, decision :: AnsweredExactly(log, envelope, capability, agentId, decision) ==>
              AnsweredExactly(log + [e], envelope, capability, agentId, decision)
  {
    assert forall k :: 0 <= k < |log| ==> (log + [e])[k] == log[k];
  }

  lemma LogAnswer(log: seq<Event>, e: Event)
    requires Gated(log) && SyncOnce(log) && !e.Invoked?
    ensures Gated(log + [e]) && SyncOnce(log + [e])
  {
    forall i | 0 <= i < |log + [e]| && (log + [e])[i].Invoked? ensures Justified((log + [e])[..i], (log + [e])[i]) {
      assert (log + [e])[..i] == log[..i];
    }
  }

  lemma LogInvocation(log: seq<Event>, e: Event)
    requires Gated(log) && SyncOnce(log) && e.Invoked? && Justified(log, e)
    requires SyncInvoked(e) ==> forall f :: f in log && SyncInvoked(f) ==> f.envelope.taskId != e.envelope.taskId && (f.key != "" ==> f.key != e.key)
    ensures Gated(log + [e]) && SyncOnce(log + [e])
  {
    forall i | 0 <= i < |log + [e]| && (log + [e])[i].Invoked? ensures Justified((log + [e])[..i], (log + [e])[i]) {
      assert (log + [e])[..i] == if i < |log| then log[..i] else log;
    }
  }

  lemma LoggedAnswerKeepsInv(s: Orch, e: Event)
    requires Inv(s) && !e.Invoked?
    ensures Inv(Logged(s, e))
  {
    hide AnsweredFor, AnsweredExactly, GoodStore;
    LogAnswer(s.log, e);
    AnswersStay(s.log, e);
  }

  /** A change of store that keeps what it holds keeps the invariant. */
  lemma GrownStoreKeepsInv(s: Orch, t: Store)
    requires Inv(s) && GoodStore(t) && StoreGrows(s.store, t) && AwaitingAnswered(s.log, t)
    ensures Inv(s.(store := t))
  {
  }

  lemma UpdateKeepsInv(s: Orch, taskId: string, status: Status, result: Result, receipt: Receipt)
    requires Inv(s) && taskId in s.store.tasks && status != Proposed && result.taskId == taskId && result.status == status
    requires !UpdateThrows(s.store.tasks[taskId], OutcomeUpdate(status, result, receipt))
    ensures var t := Updated(s.store, taskId, OutcomeUpdate(status, result, receipt));
            Inv(s.(store := t)) && StoreGrows(s.store, t)
  {
    hide GoodStore;
    UpdateIsGood(s.store, taskId, status, result, receipt);
    GrownStoreKeepsInv(s, Updated(s.store, taskId, OutcomeUpdate(status, result, receipt)));
  }

  lemma NothingStored(s: Store)
    ensures StoreGrows(s, s)
  {
  }

  // ---------- steps ----------

  /** Neither the task id nor the key of the dispatch has a record. */
  predicate IsNew(s: Orch, d: DispatchCall) {
    d.envelope.taskId != "" && ById(s, d).None? && ByKey(s, d).None?
  }

  lemma StoredHasOutcome(s: Store, id: string)
    requires GoodStore(s) && id in s.tasks
    ensures HasOutcome(s.tasks[id])
  {
    assert Complete(id, s.tasks[id]);
  }

  predicate WaitsFor(s: Orch, r: Reaction, call: nat, id: string) {
    && id in s.store.tasks && s.store.tasks[id].status == Accepted
    && r.state.calls == s.calls[call := Waiting(id, 1)]
  }

  predicate RepeatsStored(s: Orch, reply: Reply, id: string)
    requires reply.Returns?
  {
    id in s.store.tasks && s.store.tasks[id].result == Some(reply.result) && s.store.tasks[id].receipt == Some(reply.receipt)
  }

  /** A dispatch that finds a record answers from it, waits for it, or fails; it evaluates and executes nothing. */
  lemma KnownDispatchOnlyAnswers(w: World, s: Orch, call: nat, d: DispatchCall)
    requires GoodStore(s.store) && !IsNew(s, d)
    ensures var r := DoDispatch(w, s, call, d);
            && r.state.store == s.store && r.state.log == s.log && r.state.jobs == s.jobs
            && (r.reply.Suspends? ==> exists id :: WaitsFor(s, r, call, id))
            && (r.reply.Returns? ==> exists id :: RepeatsStored(s, r.reply, id))
  {
    if ById(s, d).Some? {
      StoredHasOutcome(s.store, d.envelope.taskId);
      assert Complete(d.envelope.taskId, s.store.tasks[d.envelope.taskId]);
      NamesId(w, s, call, d, d.envelope.taskId);
    }
    if ByKey(s, d).Some? {
      var id := s.store.index[KeyFor(d.envelope).value];
      StoredHasOutcome(s.store, id);
      assert Complete(id, s.store.tasks[id]);
      NamesId(w, s, call, d, id);
    }
  }

  /** The two ways of answering from a record, spelled out for one id. */
  lemma NamesId(w: World, s: Orch, call: nat, d: DispatchCall, id: string)
    requires id in s.store.tasks && Complete(id, s.store.tasks[id])
    ensures var r := FromStored(s, call, s.store.tasks[id], d);
            && (r.reply.Suspends? ==> WaitsFor(s, r, call, id))
            && (r.reply.Returns? ==> RepeatsStored(s, r.reply, id))
  {
  }

  /** Whatever is known of its task, a dispatch that the policy denies stores, queues and executes nothing. */
  lemma DeniedDispatchStoresNothing(w: World, s: Orch, call: nat, d: DispatchCall)
    requires GoodStore(s.store) && Decide(w, s.policy, d.envelope, d.capability) == Deny
    ensures var r := DoDispatch(w, s, call, d);
            && r.state.store == s.store && r.state.jobs == s.jobs
            && (forall e :: e in r.state.log && e.Invoked? ==> e in s.log)
            && (r.reply != Throws ==> ById(s, d).Some? || ByKey(s, d).Some?)
  {
    hide GoodStore;
    if !IsNew(s, d) {
      KnownDispatchOnlyAnswers(w, s, call, d);
    }
  }

  ghost predicate GoodStep(s: Orch, t: Orch) {
    Inv(t) && StoreGrows(s.store, t.store)
  }

  lemma CallsDoNotMatter(s: Orch, calls: map<nat, Suspended>)
    requires Inv(s)
    ensures Inv(s.(calls := calls)) && StoreGrows(s.store, s.store)
  {
  }

  lemma ApprovalStored(s: Orch, d: DispatchCall)
    requires Inv(s) && IsNew(s, d) && AnsweredFor(s.log, d.envelope.taskId, d.capability, d.agentId, RequireApproval)
    ensures GoodStep(s, StoreForApproval(s, d).state)
  {
    hide GoodStore;
    var p := FirstSave(d, AwaitingApproval, ReferenceFor(d.envelope.taskId));
    if !SaveThrows(s.store, p) {
      FirstSaveIsGood(s.store, p);
      GrownStoreKeepsInv(s, Saved(s.store, p));
    }
  }

  lemma AsyncStarted(s: Orch, d: DispatchCall)
    requires Inv(s) && IsNew(s, d) && AnsweredExactly(s.log, d.envelope, d.capability, d.agentId, Allow)
    ensures GoodStep(s, StartAsync(s, d).state)
  {
    hide GoodStore, StoreGrows;
    var p := FirstSave(d, Running, "");
    NothingStored(s.store);
    if d.hasCapacity && !SaveThrows(s.store, p) {
      FirstSaveIsGood(s.store, p);
      GrownStoreKeepsInv(s, Saved(s.store, p));
      SaveThenDelete(s.store, p);
    }
  }

  /** A key without a record is not the key of any earlier synchronous execution. */
  lemma NewKeyNotInvoked(s: Orch, d: DispatchCall, f: Event)
    requires Inv(s) && IsNew(s, d) && f in s.log && SyncInvoked(f)
    ensures f.envelope.taskId != d.envelope.taskId
    ensures f.key != "" ==> f.key != KeyOf(KeyFor(d.envelope))
  {
    var id := f.envelope.taskId;
    assert id in s.store.tasks && KeyOf(s.store.tasks[id].key) == f.key;
    if f.key != "" {
      assert FindByKey(s.store, KeyOf(s.store.tasks[id].key)) == Some(s.store.tasks[id]);
    }
  }

  lemma SyncStarted(s: Orch, call: nat, d: DispatchCall)
    requires Inv(s) && IsNew(s, d) && AnsweredExactly(s.log, d.envelope, d.capability, d.agentId, Allow)
    ensures GoodStep(s, StartSync(s, call, d).state)
  {
    hide GoodStore, Gated, SyncOnce, AnsweredFor, AnsweredExactly;
    var p := FirstSave(d, Accepted, "");
    if !SaveThrows(s.store, p) {
      var e := Invoked(Synchronous, s.policy, d.envelope, KeyOf(p.key), d.capability, d.agentId, d.adapterTakes);
      FirstSaveIsGood(s.store, p);
      forall f | f in s.log && SyncInvoked(f) ensures f.envelope.taskId != e.envelope.taskId && (f.key != "" ==> f.key != e.key) {
        NewKeyNotInvoked(s, d, f);
      }
      LogInvocation(s.log, e);
      AnswersStay(s.log, e);
      assert AwaitingAnswered(s.log, Saved(s.store, p));
    }
  }

  lemma DispatchIsGood(w: World, s: Orch, call: nat, d: DispatchCall)
    requires Inv(s)
    ensures GoodStep(s, DoDispatch(w, s, call, d).state)
  {
    hide StartSync, StartAsync, StoreForApproval, GoodStore, Gated, SyncOnce, SyncStored, AwaitingAnswered, JobsAnswered, StoreGrows;
    NothingStored(s.store);
    if !IsNew(s, d) {
      KnownDispatchOnlyAnswers(w, s, call, d);
      var t := DoDispatch(w, s, call, d).state;
      PolicyAndCallsDoNotMatter(s, t);
    } else {
      var decision := Decide(w, s.policy, d.envelope, d.capability);
      var answer := Answered(s.policy, d.envelope, d.capability, d.agentId, decision);
      var answered := Logged(s, answer);
      LoggedAnswerKeepsInv(s, answer);
      assert IsAnswer(answered.log[|s.log|], d.envelope, d.capability, d.agentId, decision);
      match decision
      case Deny =>
      case RequireApproval => ApprovalStored(answered, d);
      case Allow =>
        AsyncStarted(answered, d);
        SyncStarted(answered, call, d);
    }
  }

  lemma PolicyAndCallsDoNotMatter(s: Orch, t: Orch)
    requires Inv(s) && t.store == s.store && t.log == s.log && t.jobs == s.jobs
    ensures GoodStep(s, t)
  {
  }

  lemma ApproveIsGood(s: Orch, call: nat, a: ApproveCall)
    requires Inv(s)
    ensures GoodStep(s, DoApprove(s, call, a).state)
  {
    hide GoodStore, Gated, SyncOnce, AnsweredFor, AnsweredExactly, ApprovalMatches;
    NothingStored(s.store);
    if a.requestTaskId == a.envelope.taskId && ApprovalMatches(s, a) {
      var matched := Matched(a.envelope, a.capability, a.agentId, a.approvalReference);
      var invoked := Invoked(Approved, s.policy, a.envelope, "", a.capability, a.agentId, a.adapterTakes);
      var log := s.log + [matched];
      LogAnswer(s.log, matched);
      MatchIsAnswered(s, a);
      assert IsMatch(log[|s.log|], invoked) && log[..|s.log|] == s.log;
      LogInvocation(log, invoked);
      AnswersStay(s.log, matched);
      AnswersStay(log, invoked);
    }
  }

  lemma MatchIsAnswered(s: Orch, a: ApproveCall)
    requires AwaitingAnswered(s.log, s.store) && ApprovalMatches(s, a)
    ensures AnsweredFor(s.log, a.requestTaskId, a.capability, a.agentId, RequireApproval)
  {
  }

  lemma FinishIsGood(s: Orch, taskId: string, c: CoreResult)
    requires Inv(s)
    ensures GoodStep(s, Finish(s, taskId, c).state)
  {
    hide GoodStore, Gated, SyncOnce, SyncStored, AwaitingAnswered, JobsAnswered, StoreGrows;
    NothingStored(s.store);
    var result, receipt := ResultOf(c, taskId), Receipt(c.receipt, Some(taskId), "");
    if taskId in s.store.tasks && !UpdateThrows(s.store.tasks[taskId], OutcomeUpdate(StatusOf(c), result, receipt)) {
      UpdateKeepsInv(s, taskId, StatusOf(c), result, receipt);
    }
  }

  lemma ResumeIsGood(s: Orch, call: nat, outcome: Option<CoreResult>, appends: bool)
    requires Inv(s) && call in s.calls && !s.calls[call].Waiting?
    ensures GoodStep(s, DoResume(s, call, outcome, appends).state)
  {
    hide Inv, Finish;
    var suspended := s.calls[call];
    var rest := s.(calls := s.calls - {call});
    var answer := if suspended.answer.OnlyAnswer? then suspended.answer.outcome else outcome;
    CallsDoNotMatter(s, s.calls - {call});
    if answer.Some? {
      var r := Finish(rest, suspended.envelope.taskId, answer.value);
      FinishIsGood(rest, suspended.envelope.taskId, answer.value);
      if suspended.QueuedRun? {
        LoggedAnswerKeepsInv(r.state, Finished(suspended.job, suspended.envelope));
      }
    }
  }

  lemma RunJobIsGood(w: World, s: Orch, job: nat, call: nat, start: QueuedStart)
    requires Inv(s) && job < |s.jobs|
    ensures GoodStep(s, DoRunJob(w, s, job, call, start))
  {
    if start.intentValid {
      hide GoodStore, Gated, SyncOnce, AnsweredFor, AnsweredExactly;
      var j := s.jobs[job];
      var decision := Decide(w, s.executorPolicy, j.envelope, j.capability);
      var evaluated := Logged(s, Evaluated(s.executorPolicy, j.envelope, j.capability, decision));
      LoggedAnswerKeepsInv(s, evaluated.log[|s.log|]);
      var e := Invoked(Queued(job), s.executorPolicy, j.envelope, "", j.capability, j.agentId, start.adapterTakes);
      LogInvocation(evaluated.log, e);
      AnswersStay(evaluated.log, e);
    }
  }

  lemma DeadLetterIsGood(s: Orch, job: nat, content: string, receipt: string)
    requires Inv(s) && job < |s.jobs|
    ensures GoodStep(s, DoDeadLetter(s, job, content, receipt))
  {
    hide GoodStore, Gated, SyncOnce, SyncStored, AwaitingAnswered, JobsAnswered, StoreGrows;
    NothingStored(s.store);
    var taskId := s.jobs[job].envelope.taskId;
    var result, rc := Result(taskId, Failed, "", content), Receipt(receipt, Some(taskId), "");
    if taskId in s.store.tasks && !UpdateThrows(s.store.tasks[taskId], OutcomeUpdate(Failed, result, rc)) {
      UpdateKeepsInv(s, taskId, Failed, result, rc);
    }
  }

  lemma CancelIsGood(s: Orch, taskId: string, tenantId: Option<string>, content: string)
    requires Inv(s)
    ensures GoodStep(s, DoCancel(s, taskId, tenantId, content).state)
  {
    hide GoodStore, Gated, SyncOnce, SyncStored, AwaitingAnswered, JobsAnswered, StoreGrows;
    NothingStored(s.store);
    var result := Result(taskId, Revoked, "", content);
    var receipt := Receipt("receipt:" + taskId + ":cancel", Some(taskId), "");
    if CancelFinds(s.store, taskId, tenantId) && !UpdateThrows(s.store.tasks[taskId], OutcomeUpdate(Revoked, result, receipt)) {
      UpdateKeepsInv(s, taskId, Revoked, result, receipt);
    }
  }

  /** Every step, in whatever order the event loop takes them, keeps the invariant and what is stored. */
  lemma StepIsGood(w: World, s: Orch, a: Action)
    requires Inv(s) && Enabled(s, a)
    ensures GoodStep(s, Step(w, s, a))
  {
    hide Inv;
    match a
    case Dispatch(call, d) => DispatchIsGood(w, s, call, d);
    case Approve(call, req) => ApproveIsGood(s, call, req);
    case Resume(call, outcome, appends) => ResumeIsGood(s, call, outcome, appends);
    case Poll(call) => PolicyAndCallsDoNotMatter(s, Step(w, s, a));
    case RunJob(job, call, start) => RunJobIsGood(w, s, job, call, start);
    case DeadLetter(job, content, receipt) => DeadLetterIsGood(s, job, content, receipt);
    case CancelTask(taskId, tenantId, content) => CancelIsGood(s, taskId, tenantId, content);
    case SetPolicy(policy) => PolicyAndCallsDoNotMatter(s, Step(w, s, a));
  }

  lemma GrowthChains(s: Store, t: Store, u: Store)
    requires StoreGrows(s, t) && StoreGrows(t, u)
    ensures StoreGrows(s, u)
  {
    forall id | id in s.tasks ensures id in u.tasks && Kept(s.tasks[id], u.tasks[id]) {
      assert Kept(s.tasks[id], t.tasks[id]) && Kept(t.tasks[id], u.tasks[id]);
    }
  }

  lemma {:induction false} RunIsGood(w: World, s: Orch, acts: seq<Action>)
    requires Inv(s) && Takes(w, s, acts)
    ensures GoodStep(s, After(w, s, acts))
    decreases |acts|
  {
    hide Inv, StoreGrows;
    if acts == [] {
      NothingStored(s.store);
    } else {
      var next := Step(w, s, acts[0]);
      StepIsGood(w, s, acts[0]);
      RunIsGood(w, next, acts[1..]);
      GrowthChains(s.store, next.store, After(w, next, acts[1..]).store);
    }
  }

  lemma StartIsGood(policy: Policy, executorPolicy: Policy)
    ensures Inv(Start(policy, executorPolicy))
  {
  }

  // ---------- the guarantees ----------

  lemma {:induction false} AfterBoth(w: World, s: Orch, acts: seq<Action>, more: seq<Action>)
    requires Takes(w, s, acts + more)
    ensures Takes(w, s, acts) && Takes(w, After(w, s, acts), more)
    ensures After(w, s, acts + more) == After(w, After(w, s, acts), more)
    decreases |acts|
  {
    if acts == [] {
      assert acts + more == more;
    } else {
      assert (acts + more)[1..] == acts[1..] + more;
      AfterBoth(w, Step(w, s, acts[0]), acts[1..], more);
    }
  }

  /** The same, put together from its two parts. */
  lemma {:induction false} RunGoesOn(w: World, s: Orch, acts: seq<Action>, more: seq<Action>)
    requires Takes(w, s, acts) && Takes(w, After(w, s, acts), more)
    ensures Takes(w, s, acts + more)
    ensures After(w, s, acts + more) == After(w, After(w, s, acts), more)
    decreases |acts|
  {
    if acts == [] {
      assert acts + more == more;
    } else {
      assert (acts + more)[1..] == acts[1..] + more;
      RunGoesOn(w, Step(w, s, acts[0]), acts[1..], more);
    }
  }

  lemma OneStep(w: World, s: Orch, a: Action)
    requires Enabled(s, a)
    ensures Takes(w, s, [a]) && After(w, s, [a]) == Step(w, s, a)
  {
    var t := Step(w, s, a);
    assert [a][1..] == [];
    assert Takes(w, t, []) && After(w, t, []) == t;
  }

  /**
    Once a stored task is completed, failed, denied or revoked, nothing that happens later, in
    any interleaving, changes its status, result or receipt; and no stored task disappears or
    changes its requester, key, capability or agent.
   */
  lemma TerminalRecordsAreFrozen(w: World, policy: Policy, executorPolicy: Policy, acts: seq<Action>, more: seq<Action>, id: string)
    requires Takes(w, Start(policy, executorPolicy), acts + more)
    requires Takes(w, Start(policy, executorPolicy), acts) && id in After(w, Start(policy, executorPolicy), acts).store.tasks
    ensures var r := After(w, Start(policy, executorPolicy), acts).store.tasks[id];
            var later := After(w, Start(policy, executorPolicy), acts + more).store;
            && id in later.tasks
            && later.tasks[id].requester == r.requester && later.tasks[id].key == r.key
            && later.tasks[id].capability == r.capability && later.tasks[id].targetAgent == r.targetAgent
            && (IsTerminal(r.status) ==>
                  later.tasks[id].status == r.status && later.tasks[id].result == r.result && later.tasks[id].receipt == r.receipt)
  {
    hide Inv;
    var s := After(w, Start(policy, executorPolicy), acts);
    StartIsGood(policy, executorPolicy);
    RunIsGood(w, Start(policy, executorPolicy), acts);
    AfterBoth(w, Start(policy, executorPolicy), acts, more);
    RunIsGood(w, s, more);
    assert Kept(s.store.tasks[id], After(w, s, more).store.tasks[id]);
  }

  /**
    Nothing is executed unannounced: every synchronous or queued execution comes after a dispatch
    of that very envelope, capability and agent was answered allow; every approved one after a
    dispatch of the task was answered require_approval and an approval of that very envelope then
    matched the stored record. This holds however the policies are swapped in between.
   */
  lemma PolicyGate(w: World, policy: Policy, executorPolicy: Policy, acts: seq<Action>, i: nat)
    requires Takes(w, Start(policy, executorPolicy), acts)
    requires var log := After(w, Start(policy, executorPolicy), acts).log; i < |log| && log[i].Invoked?
    ensures var log := After(w, Start(policy, executorPolicy), acts).log; Justified(log[..i], log[i])
  {
    StartIsGood(policy, executorPolicy);
    RunIsGood(w, Start(policy, executorPolicy), acts);
  }

  /** The synchronous path calls the executor at most once per task id and at most once per idempotency key. */
  lemma SynchronousAtMostOnce(w: World, policy: Policy, executorPolicy: Policy, acts: seq<Action>, i: nat, j: nat)
    requires Takes(w, Start(policy, executorPolicy), acts)
    requires var log := After(w, Start(policy, executorPolicy), acts).log;
             i < j < |log| && SyncInvoked(log[i]) && SyncInvoked(log[j])
    ensures var log := After(w, Start(policy, executorPolicy), acts).log;
            log[i].envelope.taskId != log[j].envelope.taskId && (log[i].key != "" ==> log[i].key != log[j].key)
  {
    StartIsGood(policy, executorPolicy);
    RunIsGood(w, Start(policy, executorPolicy), acts);
  }

  /** In every reachable state a lookup by key finds a record exactly when a scan of all records does. */
  lemma ReachableLookupEqualsScan(w: World, policy: Policy, executorPolicy: Policy, acts: seq<Action>, key: string, r: Record)
    requires Takes(w, Start(policy, executorPolicy), acts) && key != ""
    ensures var s := After(w, Start(policy, executorPolicy), acts).store;
            && Exact(s)
            && (FindByKey(s, key) == Some(r) <==> r.taskId in s.tasks && s.tasks[r.taskId] == r && KeyOf(r.key) == key)
  {
    StartIsGood(policy, executorPolicy);
    RunIsGood(w, Start(policy, executorPolicy), acts);
    LookupEqualsScan(After(w, Start(policy, executorPolicy), acts).store, key, r);
  }
}
