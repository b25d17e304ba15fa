/**
  The task lifecycle: dispatch, approve, cancel, queued runs and dead letters over one store.

  Each call is split at its awaits. The part before the first await is one atomic step; it may
  leave a suspended call behind, which a later step resumes with whatever the executor answers.
  The queue is taken at its weakest: an accepted job may be run any number of times, at any
  time, and dead-lettered at any time.
 */
module OrchestratorModel {
  import opened Common
  import opened TaskStore

  datatype Policy = Policy(document: string)
  datatype Decision = Allow | Deny | RequireApproval

  datatype Envelope = Envelope(
    taskId: string,
    contextId: Option<string>,
    requester: Identity,
    idempotencyKey: Option<string>,
    idempotencyToken: Option<string>,
    content: string)

  datatype Intent = Intent(text: string)

  /**
    The policy evaluator sees an envelope and a capability only through the intent made from
    them, which drops parts of the envelope. Nothing is assumed of either function.
   */
  datatype World = World(intentOf: (Envelope, string) -> Intent, evaluate: (Policy, Intent) -> Decision)

  function Decide(w: World, policy: Policy, envelope: Envelope, capability: string): Decision {
    w.evaluate(policy, w.intentOf(envelope, capability))
  }

  /**
    A dispatch, and how the code around it answers. `resolves`: the envelope, agent and
    extension checks pass (the envelope schema asks for a non-empty task id). `negotiates`,
    `intentValid`, `resultValid`: those checks pass. `adapterTakes`: the executor, which checks
    the intent again, finds an adapter that takes the input. `receiptAppends`: the receipt store
    takes the receipt. `hasCapacity`, `enqueued`: the queue's two answers.
   */
  datatype DispatchCall = DispatchCall(
    envelope: Envelope,
    capability: string,
    agentId: string,
    asyncDelivery: bool,
    resolves: bool,
    negotiates: bool,
    intentValid: bool,
    adapterTakes: bool,
    resultValid: bool,
    receiptAppends: bool,
    hasCapacity: bool,
    enqueued: bool,
    content: string,
    receipt: string)

  /** `adapterTakes`: the executor finds the intent valid and an adapter that takes the input. */
  datatype ApproveCall = ApproveCall(
    requestTaskId: string,
    envelope: Envelope,
    capability: string,
    agentId: string,
    approvalReference: string,
    resolves: bool,
    negotiates: bool,
    adapterTakes: bool)

  datatype EcpAction = EcpExecuted | EcpApprovalRequired | EcpDenied

  /** What the executor resolves to: an adapter's result, or a core receipt. */
  datatype CoreResult =
    | AdapterResult(ok: bool, approvalReference: string, content: string, receipt: string)
    | CoreReceipt(action: EcpAction, content: string, receipt: string)

  /** How a suspended call goes on: None is a rejected promise. */
  datatype Answer = AnyAnswer | OnlyAnswer(outcome: Option<CoreResult>)

  datatype Suspended =
    | SyncCall(envelope: Envelope, answer: Answer)
    | ApprovedCall(envelope: Envelope, answer: Answer)
    | QueuedRun(envelope: Envelope, answer: Answer, job: nat)
    | Waiting(taskId: string, attempt: nat)

  /** What the queue holds of an asynchronous dispatch. */
  datatype QueuedJob = QueuedJob(envelope: Envelope, capability: string, agentId: string)

  /** A queued execution is of the job with that number. */
  datatype Path = Synchronous | Approved | Queued(job: nat)

  /**
    A dispatch answered by the policy of that moment; a queued run answered by the executor's;
    an approval that matched the stored record; a call of the executor that no policy check stops, with the policy in force: the runtime's,
    or on the queued path the executor's; the end of a queued run whose promise resolves.
    `adapter` says whether the executor's other checks pass, so that the adapter executes.
   */
  datatype Event =
    | Answered(policy: Policy, envelope: Envelope, capability: string, agentId: string, decision: Decision)
    | Evaluated(policy: Policy, envelope: Envelope, capability: string, decision: Decision)
    | Matched(envelope: Envelope, capability: string, agentId: string, reference: string)
    | Invoked(path: Path, policy: Policy, envelope: Envelope, key: string, capability: string, agentId: string, adapter: bool)
    | Finished(job: nat, envelope: Envelope)

  /** The runtime and the executor it was given each hold a policy. */
  datatype Orch = Orch(
    store: Store,
    policy: Policy,
    executorPolicy: Policy,
    calls: map<nat, Suspended>,
    jobs: seq<QueuedJob>,
    log: seq<Event>)

  datatype Reply = Throws | Returns(result: Result, receipt: Receipt) | Suspends

  datatype Reaction = Reaction(state: Orch, reply: Reply)

  function Fails(s: Orch): Reaction {
    Reaction(s, Throws)
  }

  // ---------- dispatch ----------

  /** A blank idempotency key is no key. */
  function KeyFor(e: Envelope): Option<string> {
    if e.idempotencyKey.Some? && !IsBlank(e.idempotencyKey.value) then e.idempotencyKey else None
  }

  function SameRequest(r: Record, d: DispatchCall): bool {
    && r.requester.kind == d.envelope.requester.kind
    && r.requester.id == d.envelope.requester.id
    && TenantKey(r.requester.tenantId) == TenantKey(d.envelope.requester.tenantId)
    && r.capability == d.capability
    && r.targetAgent == d.agentId
  }

  predicate HasOutcome(r: Record) {
    r.result.Some? && r.receipt.Some?
  }

  /** The loop of waitForStoredResult up to its next await: one look at the store, and at most 200 of them. */
  function WaitForStored(s: Orch, call: nat, taskId: string, attempt: nat): Reaction {
    var rest := s.(calls := s.calls - {call});
    if attempt >= 200 then Fails(rest)
    else if taskId in s.store.tasks && HasOutcome(s.store.tasks[taskId]) && s.store.tasks[taskId].status != Accepted then
      Reaction(rest, Returns(s.store.tasks[taskId].result.value, s.store.tasks[taskId].receipt.value))
    else Reaction(s.(calls := s.calls[call := Waiting(taskId, attempt + 1)]), Suspends)
  }

  /** The answer to a request whose record is already stored. */
  function FromStored(s: Orch, call: nat, r: Record, d: DispatchCall): Reaction
    requires HasOutcome(r)
  {
    if !SameRequest(r, d) then Fails(s)
    else if r.status == Accepted then WaitForStored(s, call, r.taskId, 0)
    else Reaction(s, Returns(r.result.value, r.receipt.value))
  }

  function FirstSave(d: DispatchCall, status: Status, reference: string): SaveParams {
    SaveParams(d.envelope.taskId, d.envelope.contextId, d.envelope.requester, KeyFor(d.envelope), d.capability, d.agentId,
               Result(d.envelope.taskId, status, reference, d.content), Receipt(d.receipt, Some(d.envelope.taskId), ""))
  }

  function Logged(s: Orch, e: Event): Orch {
    s.(log := s.log + [e])
  }

  function ByKey(s: Orch, d: DispatchCall): Option<Record> {
    if KeyFor(d.envelope).Some? then FindByKey(s.store, KeyFor(d.envelope).value) else None
  }

  function ById(s: Orch, d: DispatchCall): Option<Record> {
    if d.envelope.taskId in s.store.tasks then Some(s.store.tasks[d.envelope.taskId]) else None
  }

  function DoDispatch(w: World, s: Orch, call: nat, d: DispatchCall): Reaction {
    if !d.resolves || d.envelope.taskId == "" then Fails(s)
    else
      var byKey, byId := ByKey(s, d), ById(s, d);
      if byKey.Some? && !SameRequest(byKey.value, d) then Fails(s)
      else if byKey.Some? && HasOutcome(byKey.value) then FromStored(s, call, byKey.value, d)
      else if byId.Some? && !SameRequest(byId.value, d) then Fails(s)
      else if byId.Some? && HasOutcome(byId.value) then FromStored(s, call, byId.value, d)
      else if !d.negotiates then Fails(s)
      else
        var decision := Decide(w, s.policy, d.envelope, d.capability);
        var answered := Logged(s, Answered(s.policy, d.envelope, d.capability, d.agentId, decision));
        match decision
        case Deny => Fails(answered)
        case RequireApproval => StoreForApproval(answered, d)
        case Allow =>
          if !d.intentValid then Fails(answered)
          else if d.asyncDelivery then StartAsync(answered, d)
          else StartSync(answered, call, d)
  }

  function ReferenceFor(taskId: string): string {
    "approval:" + taskId
  }

  function StoreForApproval(s: Orch, d: DispatchCall): Reaction {
    var p := FirstSave(d, AwaitingApproval, ReferenceFor(d.envelope.taskId));
    if !d.resultValid || SaveThrows(s.store, p) then Fails(s)
    else
      var saved := s.(store := Saved(s.store, p));
      if d.receiptAppends then Reaction(saved, Returns(p.result, p.receipt)) else Fails(saved)
  }

  /** A job that the queue refuses takes its record back out of the store. */
  function StartAsync(s: Orch, d: DispatchCall): Reaction {
    var p := FirstSave(d, Running, "");
    if !d.hasCapacity || SaveThrows(s.store, p) then Fails(s)
    else
      var saved := s.(store := Saved(s.store, p));
      if !d.receiptAppends then Fails(saved)
      else if d.enqueued then
        Reaction(saved.(jobs := saved.jobs + [QueuedJob(d.envelope, d.capability, d.agentId)]),
                 Returns(p.result, p.receipt))
      else Fails(saved.(store := Deleted(saved.store, p.taskId)))
  }

  /** A call that does not reach an adapter can only be rejected. */
  function AnswerOf(adapterTakes: bool): Answer {
    if adapterTakes then AnyAnswer else OnlyAnswer(None)
  }

  function StartSync(s: Orch, call: nat, d: DispatchCall): Reaction {
    var p := FirstSave(d, Accepted, "");
    if SaveThrows(s.store, p) then Fails(s)
    else
      var saved := s.(store := Saved(s.store, p),
                      calls := s.calls[call := SyncCall(d.envelope, AnswerOf(d.adapterTakes))]);
      Reaction(Logged(saved, Invoked(Synchronous, s.policy, d.envelope, KeyOf(p.key), d.capability, d.agentId, d.adapterTakes)), Suspends)
  }

  // ---------- approve ----------

  function StoredReference(r: Record): string {
    if r.result.Some? then r.result.value.approvalReference else ""
  }

  /** The checks that an approval must pass against the stored record. */
  predicate ApprovalMatches(s: Orch, a: ApproveCall) {
    && a.requestTaskId in s.store.tasks
    && var r := s.store.tasks[a.requestTaskId];
    && r.status == AwaitingApproval
    && r.capability == a.capability
    && r.targetAgent == a.agentId
    && StoredReference(r) != "" && StoredReference(r) == a.approvalReference
  }

  function DoApprove(s: Orch, call: nat, a: ApproveCall): Reaction {
    if !a.resolves || a.envelope.taskId == "" || a.requestTaskId != a.envelope.taskId || !a.negotiates then Fails(s)
    else if !ApprovalMatches(s, a) then Fails(s)
    else
      var matched := Logged(s, Matched(a.envelope, a.capability, a.agentId, a.approvalReference));
      var invoked := Logged(matched, Invoked(Approved, s.policy, a.envelope, "", a.capability, a.agentId, a.adapterTakes));
      Reaction(invoked.(calls := s.calls[call := ApprovedCall(a.envelope, AnswerOf(a.adapterTakes))]), Suspends)
  }

  // ---------- resuming ----------

  function StatusOf(c: CoreResult): Status {
    match c
    case AdapterResult(ok, _, _, _) => if ok then Completed else Failed
    case CoreReceipt(action, _, _) =>
      if action == EcpApprovalRequired then AwaitingApproval
      else if action == EcpExecuted then Completed
      else Denied
  }

  function ResultOf(c: CoreResult, taskId: string): Result {
    Result(taskId, StatusOf(c), if c.AdapterResult? then c.approvalReference else "", c.content)
  }

  function OutcomeUpdate(status: Status, result: Result, receipt: Receipt): Updates {
    Updates(None, None, None, None, None, Some(status), Some(result), Some(receipt))
  }

  /** Writes an outcome to the store; an update that throws changes nothing. */
  function Finish(s: Orch, taskId: string, c: CoreResult): Reaction {
    var result, receipt := ResultOf(c, taskId), Receipt(c.receipt, Some(taskId), "");
    var u := OutcomeUpdate(StatusOf(c), result, receipt);
    if taskId in s.store.tasks && UpdateThrows(s.store.tasks[taskId], u) then Fails(s)
    else if taskId in s.store.tasks then Reaction(s.(store := Updated(s.store, taskId, u)), Returns(result, receipt))
    else Reaction(s, Returns(result, receipt))
  }

  /** If the receipt store does not take the receipt, the call throws after it has updated the task. */
  function DoResume(s: Orch, call: nat, outcome: Option<CoreResult>, appends: bool): Reaction
    requires call in s.calls && !s.calls[call].Waiting?
  {
    var suspended := s.calls[call];
    var rest := s.(calls := s.calls - {call});
    var answer := if suspended.answer.OnlyAnswer? then suspended.answer.outcome else outcome;
    if answer.None? then Fails(rest)
    else
      var r := Finish(rest, suspended.envelope.taskId, answer.value);
      if r.reply.Returns? && !appends then Fails(r.state)
      else if r.reply.Returns? && suspended.QueuedRun?
      then Reaction(Logged(r.state, Finished(suspended.job, suspended.envelope)), r.reply)
      else r
  }

  function DoPoll(s: Orch, call: nat): Reaction
    requires call in s.calls && s.calls[call].Waiting?
  {
    WaitForStored(s, call, s.calls[call].taskId, s.calls[call].attempt)
  }

  // ---------- queued runs, dead letters, cancellation ----------

  /** What the executor meets in a queued run, and what its receipt then says. */
  datatype QueuedStart = QueuedStart(intentValid: bool, adapterTakes: bool, content: string, receipt: string)

  /** The executor evaluates its own policy, and answers anything but allow with a core receipt. */
  function DoRunJob(w: World, s: Orch, job: nat, call: nat, start: QueuedStart): Orch
    requires job < |s.jobs|
  {
    var j := s.jobs[job];
    if !start.intentValid then
      s.(calls := s.calls[call := QueuedRun(j.envelope, OnlyAnswer(None), job)])
    else
      var decision := Decide(w, s.executorPolicy, j.envelope, j.capability);
      var evaluated := Logged(s, Evaluated(s.executorPolicy, j.envelope, j.capability, decision));
      if decision == Allow then
        Logged(evaluated.(calls := s.calls[call := QueuedRun(j.envelope, AnswerOf(start.adapterTakes), job)]),
               Invoked(Queued(job), s.executorPolicy, j.envelope, "", j.capability, j.agentId, start.adapterTakes))
      else
        var receipt := CoreReceipt(if decision == Deny then EcpDenied else EcpApprovalRequired, start.content, start.receipt);
        evaluated.(calls := s.calls[call := QueuedRun(j.envelope, OnlyAnswer(Some(receipt)), job)])
  }

  function DoDeadLetter(s: Orch, job: nat, content: string, receipt: string): Orch
    requires job < |s.jobs|
  {
    var taskId := s.jobs[job].envelope.taskId;
    var u := OutcomeUpdate(Failed, Result(taskId, Failed, "", content), Receipt(receipt, Some(taskId), ""));
    if taskId in s.store.tasks && !UpdateThrows(s.store.tasks[taskId], u)
    then s.(store := Updated(s.store, taskId, u)) else s
  }

  predicate Cancellable(status: Status) {
    status == Accepted || status == Proposed || status == AwaitingApproval || status == Running
  }

  /** An empty tenant asks for no tenant check. */
  predicate CancelFinds(store: Store, taskId: string, tenantId: Option<string>) {
    if tenantId.Some? && tenantId.value != "" then GetByTenant(store, taskId, tenantId.value).Some?
    else taskId in store.tasks
  }

  function DoCancel(s: Orch, taskId: string, tenantId: Option<string>, content: string): Reaction {
    if !CancelFinds(s.store, taskId, tenantId) || !Cancellable(s.store.tasks[taskId].status) then Fails(s)
    else
      var result := Result(taskId, Revoked, "", content);
      var receipt := Receipt("receipt:" + taskId + ":cancel", Some(taskId), "");
      var u := OutcomeUpdate(Revoked, result, receipt);
      if UpdateThrows(s.store.tasks[taskId], u) then Fails(s)
      else Reaction(s.(store := Updated(s.store, taskId, u)), Returns(result, receipt))
  }

  // ---------- steps ----------

  datatype Action =
    | Dispatch(call: nat, d: DispatchCall)
    | Approve(call: nat, a: ApproveCall)
    | Resume(call: nat, outcome: Option<CoreResult>, appends: bool)
    | Poll(call: nat)
    | RunJob(job: nat, call: nat, start: QueuedStart)
    | DeadLetter(job: nat, content: string, receipt: string)
    | CancelTask(taskId: string, tenantId: Option<string>, content: string)
    | SetPolicy(policy: Policy)

  /** A new call takes an unused number; a suspended call or a job must be there to go on. */
  predicate Enabled(s: Orch, a: Action) {
    match a
    case Dispatch(call, _) => call !in s.calls
    case Approve(call, _) => call !in s.calls
    case Resume(call, _, _) => call in s.calls && !s.calls[call].Waiting?
    case Poll(call) => call in s.calls && s.calls[call].Waiting?
    case RunJob(job, call, _) => job < |s.jobs| && call !in s.calls
    case DeadLetter(job, _, _) => job < |s.jobs|
    case _ => true
  }

  function Step(w: World, s: Orch, a: Action): Orch
    requires Enabled(s, a)
  {
    match a
    case Dispatch(call, d) => DoDispatch(w, s, call, d).state
    case Approve(call, req) => DoApprove(s, call, req).state
    case Resume(call, outcome, appends) => DoResume(s, call, outcome, appends).state
    case Poll(call) => DoPoll(s, call).state
    case RunJob(job, call, start) => DoRunJob(w, s, job, call, start)
    case DeadLetter(job, content, receipt) => DoDeadLetter(s, job, content, receipt)
    case CancelTask(taskId, tenantId, content) => DoCancel(s, taskId, tenantId, content).state
    case SetPolicy(policy) => s.(policy := policy, executorPolicy := policy)
  }

  function Start(policy: Policy, executorPolicy: Policy): Orch {
    Orch(EMPTY, policy, executorPolicy, map[], [], [])
  }

  predicate Takes(w: World, s: Orch, acts: seq<Action>)
    decreases |acts|
  {
    acts == [] || (Enabled(s, acts[0]) && Takes(w, Step(w, s, acts[0]), acts[1..]))
  }

  function After(w: World, s: Orch, acts: seq<Action>): Orch
    requires Takes(w, s, acts)
    decreases |acts|
  {
    if acts == [] then s else After(w, Step(w, s, acts[0]), acts[1..])
  }
}
