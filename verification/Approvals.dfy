/**
  What approvals do and do not guarantee, and what a revoked task's queued job still does.

  The policy answers an intent at the time of the dispatch. An approval is compared with the
  stored record by task id, capability, agent and reference only, and the policy is not asked
  again. So an approval may execute another intent than the one that was answered, or execute
  it under another policy, and it executes as often as it overlaps.
 */
module Approvals {
  import opened Common
  import opened TaskStore
  import opened OrchestratorModel
  import opened OrchestratorProofs

  // ---------- the log tells the truth about the policy ----------

  type Evaluator = (Policy, Intent) -> Decision

  predicate IsDecision(e: Event) {
    e.Answered? || e.Evaluated?
  }

  /** Every decision in the log is the evaluator's. */
  ghost predicate Agrees(w: World, log: seq<Event>) {
    forall e :: e in log && IsDecision(e) ==> e.decision == Decide(w, e.policy, e.envelope, e.capability)
  }

  /** Nothing runs outside the approval path unless the policy in force allows it. */
  ghost predicate RunsAllowed(w: World, log: seq<Event>) {
    forall e :: e in log && e.Invoked? && e.path != Approved ==> Decide(w, e.policy, e.envelope, e.capability) == Allow
  }

  ghost predicate Truthful(w: World, log: seq<Event>) {
    Agrees(w, log) && RunsAllowed(w, log)
  }

  lemma DispatchStaysTruthful(w: World, s: Orch, call: nat, d: DispatchCall)
    requires Truthful(w, s.log)
    ensures Truthful(w, DoDispatch(w, s, call, d).state.log)
  {
    hide FirstSave, SaveThrows, Saved, Deleted, ById, ByKey, SameRequest;
  }

  lemma StepStaysTruthful(w: World, s: Orch, a: Action)
    requires Truthful(w, s.log) && Enabled(s, a)
    ensures Truthful(w, Step(w, s, a).log)
  {
    hide DoDispatch, UpdateThrows, Updated, ApprovalMatches;
    if a.Dispatch? {
      DispatchStaysTruthful(w, s, a.call, a.d);
    }
  }

  lemma {:induction false} RunStaysTruthful(w: World, s: Orch, acts: seq<Action>)
    requires Truthful(w, s.log) && Takes(w, s, acts)
    ensures Truthful(w, After(w, s, acts).log)
    decreases |acts|
  {
    if acts != [] {
      StepStaysTruthful(w, s, acts[0]);
      RunStaysTruthful(w, Step(w, s, acts[0]), acts[1..]);
    }
  }

  /** In every run, each synchronous or queued execution is of an envelope that the policy then in force allows. */
  lemma ExecutedMeansAllowed(w: World, policy: Policy, executorPolicy: Policy, acts: seq<Action>, e: Event)
    requires Takes(w, Start(policy, executorPolicy), acts)
    requires e in After(w, Start(policy, executorPolicy), acts).log && e.Invoked? && e.path != Approved
    ensures Decide(w, e.policy, e.envelope, e.capability) == Allow
  {
    RunStaysTruthful(w, Start(policy, executorPolicy), acts);
  }

  // ---------- a run depends on the evaluator only through the decisions in its log ----------

  lemma DispatchLogGrows(w: World, s: Orch, call: nat, d: DispatchCall)
    ensures s.log <= DoDispatch(w, s, call, d).state.log
  {
    hide FirstSave, SaveThrows, Saved, Deleted, ById, ByKey, SameRequest;
  }

  lemma StepLogGrows(w: World, s: Orch, a: Action)
    requires Enabled(s, a)
    ensures s.log <= Step(w, s, a).log
  {
    hide DoDispatch, UpdateThrows, Updated, ApprovalMatches;
    if a.Dispatch? {
      DispatchLogGrows(w, s, a.call, a.d);
    }
  }

  lemma {:induction false} RunLogGrows(w: World, s: Orch, acts: seq<Action>)
    requires Takes(w, s, acts)
    ensures s.log <= After(w, s, acts).log
    decreases |acts|
  {
    if acts != [] {
      StepLogGrows(w, s, acts[0]);
      RunLogGrows(w, Step(w, s, acts[0]), acts[1..]);
    }
  }

  lemma SameDispatch(w: World, v: World, s: Orch, call: nat, d: DispatchCall)
    requires v.intentOf == w.intentOf && Agrees(v, DoDispatch(w, s, call, d).state.log)
    ensures DoDispatch(v, s, call, d) == DoDispatch(w, s, call, d)
  {
    hide StoreForApproval, StartAsync, StartSync, ById, ByKey, SameRequest, FromStored;
    var decision := Decide(w, s.policy, d.envelope, d.capability);
    var answer := Answered(s.policy, d.envelope, d.capability, d.agentId, decision);
    var answered := Logged(s, answer);
    assert answered.log[|s.log|] == answer;
    BranchesLog(answered, call, d);
  }

  /** What a dispatch does after its answer only adds to the log. */
  lemma BranchesLog(s: Orch, call: nat, d: DispatchCall)
    ensures s.log <= StoreForApproval(s, d).state.log
    ensures s.log <= StartAsync(s, d).state.log
    ensures s.log <= StartSync(s, call, d).state.log
  {
    hide FirstSave, SaveThrows, Saved, Deleted;
  }

  lemma SameStep(w: World, v: World, s: Orch, a: Action)
    requires v.intentOf == w.intentOf && Enabled(s, a) && Agrees(v, Step(w, s, a).log)
    ensures Step(v, s, a) == Step(w, s, a)
  {
    hide DoDispatch, UpdateThrows, Updated, ApprovalMatches;
    if a.Dispatch? {
      SameDispatch(w, v, s, a.call, a.d);
    } else if a.RunJob? && a.start.intentValid {
      var j := s.jobs[a.job];
      var decision := Decide(w, s.executorPolicy, j.envelope, j.capability);
      assert Step(w, s, a).log[|s.log|] == Evaluated(s.executorPolicy, j.envelope, j.capability, decision);
    }
  }

  /** An evaluator that agrees with the decisions of a run takes the same run. */
  lemma {:induction false} SameRun(w: World, v: World, s: Orch, acts: seq<Action>)
    requires v.intentOf == w.intentOf && Takes(w, s, acts) && Agrees(v, After(w, s, acts).log)
    ensures Takes(v, s, acts) && After(v, s, acts) == After(w, s, acts)
    decreases |acts|
  {
    if acts != [] {
      var next := Step(w, s, acts[0]);
      RunLogGrows(w, next, acts[1..]);
      assert Agrees(v, next.log);
      SameStep(w, v, s, acts[0]);
      SameRun(w, v, next, acts[1..]);
    }
  }

  // ---------- approvals and the policy ----------

  /** A request that gets as far as the stored record. */
  predicate InOrder(a: ApproveCall) {
    a.resolves && a.envelope.taskId != "" && a.requestTaskId == a.envelope.taskId && a.negotiates
  }

  /** In this run, this policy was asked about this intent, and did not deny it. */
  ghost predicate Cleared(w: World, log: seq<Event>, policy: Policy, intent: Intent) {
    exists e :: e in log && IsDecision(e) && e.policy == policy && w.intentOf(e.envelope, e.capability) == intent
      && e.decision != Deny
  }

  /** Under the evaluator `f`, everything in the run from `s` goes the same way. */
  ghost predicate GoesTheSame(w: World, f: Evaluator, s: Orch, acts: seq<Action>)
    requires Takes(w, s, acts)
  {
    Takes(World(w.intentOf, f), s, acts) && After(World(w.intentOf, f), s, acts) == After(w, s, acts)
  }

  /**
    After any run, an approval that matches executes under the policy then in force, and whatever
    that policy is, it is certain not to deny what is executed, exactly when in this run that very
    policy was asked about that very intent and did not deny it. The approval itself asks nothing.
   */
  lemma ApprovalRespectsPolicyIff(w: World, policy: Policy, executorPolicy: Policy, acts: seq<Action>, a: ApproveCall, call: nat)
    requires Takes(w, Start(policy, executorPolicy), acts)
    requires InOrder(a) && ApprovalMatches(After(w, Start(policy, executorPolicy), acts), a)
    ensures var s := After(w, Start(policy, executorPolicy), acts);
            var intent := w.intentOf(a.envelope, a.capability);
            && Invoked(Approved, s.policy, a.envelope, "", a.capability, a.agentId, a.adapterTakes)
                 in DoApprove(s, call, a).state.log
            && ((forall f: Evaluator :: GoesTheSame(w, f, Start(policy, executorPolicy), acts) ==> f(s.policy, intent) != Deny)
                  <==> Cleared(w, s.log, s.policy, intent))
  {
    hide Takes, After, ApprovalMatches;
    var start := Start(policy, executorPolicy);
    var s := After(w, start, acts);
    var intent := w.intentOf(a.envelope, a.capability);
    RunStaysTruthful(w, start, acts);
    var log := DoApprove(s, call, a).state.log;
    assert log[|s.log| + 1] == Invoked(Approved, s.policy, a.envelope, "", a.capability, a.agentId, a.adapterTakes);
    if Cleared(w, s.log, s.policy, intent) {
      forall f: Evaluator | GoesTheSame(w, f, start, acts) ensures f(s.policy, intent) != Deny {
        RunStaysTruthful(World(w.intentOf, f), start, acts);
      }
    } else {
      var f := DenyingOnly(w, s.policy, intent);
      DenyingAgrees(w, s.log, s.policy, intent);
      SameRun(w, World(w.intentOf, f), start, acts);
      assert GoesTheSame(w, f, start, acts) && f(s.policy, intent) == Deny;
    }
  }

  /** The evaluator of `w`, except that this policy denies this intent. */
  function DenyingOnly(w: World, policy: Policy, intent: Intent): Evaluator {
    (p: Policy, i: Intent) => if p == policy && i == intent then Deny else w.evaluate(p, i)
  }

  lemma DenyingAgrees(w: World, log: seq<Event>, policy: Policy, intent: Intent)
    requires Agrees(w, log) && !Cleared(w, log, policy, intent)
    ensures Agrees(World(w.intentOf, DenyingOnly(w, policy, intent)), log)
  {
  }

  // ---------- one dispatch, any policy swaps, and its approval ----------

  /** A dispatch whose own checks pass. */
  predicate ChecksPass(d: DispatchCall) {
    d.resolves && d.envelope.taskId != "" && d.negotiates && d.resultValid
  }

  predicate Asks(w: World, policy: Policy, d: DispatchCall) {
    Decide(w, policy, d.envelope, d.capability) == RequireApproval
  }

  /** An approval of the dispatch's task with the reference it was given, for the envelope `e`. */
  function ApprovalOf(d: DispatchCall, e: Envelope): ApproveCall {
    ApproveCall(d.envelope.taskId, e, d.capability, d.agentId, ReferenceFor(d.envelope.taskId), true, true, true)
  }

  function Swaps(policies: seq<Policy>): seq<Action> {
    if policies == [] then [] else [Action.SetPolicy(policies[0])] + Swaps(policies[1..])
  }

  function LastOf(policies: seq<Policy>, first: Policy): Policy {
    if policies == [] then first else policies[|policies| - 1]
  }

  lemma {:induction false} SwapsOnlySwap(w: World, s: Orch, policies: seq<Policy>)
    ensures Takes(w, s, Swaps(policies))
    ensures After(w, s, Swaps(policies)) ==
            s.(policy := LastOf(policies, s.policy), executorPolicy := LastOf(policies, s.executorPolicy))
    decreases |policies|
  {
    if policies == [] {
      assert s == s.(policy := s.policy, executorPolicy := s.executorPolicy);
    } else {
      hide Step, Takes, After;
      var first := Action.SetPolicy(policies[0]);
      var next := s.(policy := policies[0], executorPolicy := policies[0]);
      SwapStep(w, s, policies[0]);
      OneStep(w, s, first);
      SwapsOnlySwap(w, next, policies[1..]);
      RunGoesOn(w, s, [first], Swaps(policies[1..]));
    }
  }

  lemma SwapStep(w: World, s: Orch, policy: Policy)
    ensures Enabled(s, Action.SetPolicy(policy))
    ensures Step(w, s, Action.SetPolicy(policy)) == s.(policy := policy, executorPolicy := policy)
  {
  }

  function DispatchThenApprove(d: DispatchCall, policies: seq<Policy>, e: Envelope): seq<Action> {
    [Action.Dispatch(0, d)] + Swaps(policies) + [Action.Approve(1, ApprovalOf(d, e))]
  }

  lemma DispatchAwaits(w: World, policy: Policy, executorPolicy: Policy, d: DispatchCall)
    requires ChecksPass(d) && Asks(w, policy, d)
    ensures var s := DoDispatch(w, Start(policy, executorPolicy), 0, d).state;
            && s.log == [Answered(policy, d.envelope, d.capability, d.agentId, RequireApproval)]
            && s.calls == map[] && s.policy == policy
            && (forall e: Envelope :: ApprovalMatches(s, ApprovalOf(d, e)))
  {
  }

  lemma ApprovalExecutes(w: World, policy: Policy, executorPolicy: Policy, d: DispatchCall, policies: seq<Policy>, e: Envelope)
    requires ChecksPass(d) && Asks(w, policy, d) && e.taskId == d.envelope.taskId
    ensures var start, acts := Start(policy, executorPolicy), DispatchThenApprove(d, policies, e);
            && Takes(w, start, acts)
            && ApprovalMatches(After(w, start, acts), ApprovalOf(d, e))
            && After(w, start, acts).calls.Keys == {1} && After(w, start, acts).policy == LastOf(policies, policy)
            && After(w, start, acts).log == [
                 Answered(policy, d.envelope, d.capability, d.agentId, RequireApproval),
                 Matched(e, d.capability, d.agentId, ReferenceFor(d.envelope.taskId)),
                 Invoked(Approved, LastOf(policies, policy), e, "", d.capability, d.agentId, true)]
  {
    hide DoDispatch, ReferenceFor, Takes, After;
    var start, dispatch := Start(policy, executorPolicy), Action.Dispatch(0, d);
    var approve := Action.Approve(1, ApprovalOf(d, e));
    DispatchAwaits(w, policy, executorPolicy, d);
    var s := Step(w, start, dispatch);
    OneStep(w, start, dispatch);
    SwapsOnlySwap(w, s, policies);
    RunGoesOn(w, start, [dispatch], Swaps(policies));
    var swapped := After(w, s, Swaps(policies));
    OneStep(w, swapped, approve);
    RunGoesOn(w, start, [dispatch] + Swaps(policies), [approve]);
  }

  /** The adapter executes nothing that the policy in force denies. */
  ghost predicate NothingDenied(w: World, log: seq<Event>) {
    forall e :: e in log && e.Invoked? && e.adapter ==> Decide(w, e.policy, e.envelope, e.capability) != Deny
  }

  /** The run takes place and executes nothing denied, if the evaluator asks for approval at all. */
  ghost predicate SafeUnder(intentOf: (Envelope, string) -> Intent, f: Evaluator, policy: Policy, executorPolicy: Policy,
                            d: DispatchCall, policies: seq<Policy>, e: Envelope) {
    var w, start, acts := World(intentOf, f), Start(policy, executorPolicy), DispatchThenApprove(d, policies, e);
    Asks(w, policy, d) ==> Takes(w, start, acts) && NothingDenied(w, After(w, start, acts).log)
  }

  /**
    For one dispatch that is answered require_approval, any swaps of the policy, and an approval
    of it: under every evaluator nothing denied is executed, exactly when the approval's envelope
    makes the same intent and the policy in force is the one that answered.
   */
  lemma ApprovedDispatchIsSafeIff(intentOf: (Envelope, string) -> Intent, policy: Policy, executorPolicy: Policy,
                                  d: DispatchCall, policies: seq<Policy>, e: Envelope)
    requires ChecksPass(d) && e.taskId == d.envelope.taskId
    ensures (forall f: Evaluator :: SafeUnder(intentOf, f, policy, executorPolicy, d, policies, e)) <==>
            intentOf(e, d.capability) == intentOf(d.envelope, d.capability) && LastOf(policies, policy) == policy
  {
    hide Takes, After, DispatchThenApprove, ReferenceFor;
    var asked, last := intentOf(d.envelope, d.capability), LastOf(policies, policy);
    var start, acts := Start(policy, executorPolicy), DispatchThenApprove(d, policies, e);
    if intentOf(e, d.capability) == asked && last == policy {
      forall f: Evaluator ensures SafeUnder(intentOf, f, policy, executorPolicy, d, policies, e) {
        if Asks(World(intentOf, f), policy, d) {
          ApprovalExecutes(World(intentOf, f), policy, executorPolicy, d, policies, e);
        }
      }
    } else {
      var f: Evaluator := (p: Policy, i: Intent) => if p == policy && i == asked then RequireApproval else Deny;
      var w := World(intentOf, f);
      ApprovalExecutes(w, policy, executorPolicy, d, policies, e);
      var log := After(w, start, acts).log;
      assert log[2] in log && log[2].adapter && Decide(w, last, e, d.capability) == Deny;
      assert !SafeUnder(intentOf, f, policy, executorPolicy, d, policies, e);
    }
  }

  // ---------- tasks that are dispatched and approved alike ----------

  /** Whoever dispatches or approves a task does so with envelopes of one view, given by `viewOf`. */
  ghost predicate OneViewEach<T(!new)>(view: Envelope -> T, viewOf: string -> T, acts: seq<Action>) {
    forall i :: 0 <= i < |acts| ==> ShowsOwnView(view, viewOf, acts[i])
  }

  ghost predicate ShowsOwnView<T(!new)>(view: Envelope -> T, viewOf: string -> T, a: Action) {
    match a
    case Dispatch(_, d) => view(d.envelope) == viewOf(d.envelope.taskId)
    case Approve(_, req) => view(req.envelope) == viewOf(req.envelope.taskId)
    case _ => true
  }

  ghost predicate ViewsFrom<T(!new)>(view: Envelope -> T, viewOf: string -> T, s: Orch) {
    && (forall e :: e in s.log && (e.Answered? || e.Invoked?) ==> view(e.envelope) == viewOf(e.envelope.taskId))
    && (forall j :: j in s.jobs ==> view(j.envelope) == viewOf(j.envelope.taskId))
  }

  lemma DispatchKeepsViews<T(!new)>(view: Envelope -> T, viewOf: string -> T, w: World, s: Orch, call: nat, d: DispatchCall)
    requires ViewsFrom(view, viewOf, s) && view(d.envelope) == viewOf(d.envelope.taskId)
    ensures ViewsFrom(view, viewOf, DoDispatch(w, s, call, d).state)
  {
    hide FirstSave, SaveThrows, Saved, Deleted, ById, ByKey, SameRequest;
  }

  lemma StepKeepsViews<T(!new)>(view: Envelope -> T, viewOf: string -> T, w: World, s: Orch, a: Action)
    requires ViewsFrom(view, viewOf, s) && Enabled(s, a) && ShowsOwnView(view, viewOf, a)
    ensures ViewsFrom(view, viewOf, Step(w, s, a))
  {
    hide DoDispatch, UpdateThrows, Updated, ApprovalMatches;
    if a.Dispatch? {
      DispatchKeepsViews(view, viewOf, w, s, a.call, a.d);
    }
  }

  lemma {:induction false} RunKeepsViews<T(!new)>(view: Envelope -> T, viewOf: string -> T, w: World, s: Orch, acts: seq<Action>)
    requires ViewsFrom(view, viewOf, s) && Takes(w, s, acts) && OneViewEach(view, viewOf, acts)
    ensures ViewsFrom(view, viewOf, After(w, s, acts))
    decreases |acts|
  {
    if acts != [] {
      StepKeepsViews(view, viewOf, w, s, acts[0]);
      RunKeepsViews(view, viewOf, w, Step(w, s, acts[0]), acts[1..]);
    }
  }

  /** A dispatch of the same task, in the same view, for the same capability and agent was answered require_approval. */
  ghost predicate AnsweredAlike<T(!new)>(view: Envelope -> T, log: seq<Event>, e: Event)
    requires e.Invoked?
  {
    exists k :: 0 <= k < |log| && log[k].Answered? && log[k].envelope.taskId == e.envelope.taskId
      && view(log[k].envelope) == view(e.envelope)
      && log[k].capability == e.capability && log[k].agentId == e.agentId && log[k].decision == RequireApproval
  }

  /** If each task keeps one view throughout, every approved execution is of an envelope whose view was answered require_approval. */
  lemma ApprovedViewWasAnswered<T(!new)>(view: Envelope -> T, viewOf: string -> T, w: World, policy: Policy,
                                         executorPolicy: Policy, acts: seq<Action>, i: nat)
    requires Takes(w, Start(policy, executorPolicy), acts) && OneViewEach(view, viewOf, acts)
    requires var log := After(w, Start(policy, executorPolicy), acts).log;
             i < |log| && log[i].Invoked? && log[i].path == Approved
    ensures var log := After(w, Start(policy, executorPolicy), acts).log;
            AnsweredAlike(view, log[..i], log[i])
  {
    hide After, Takes;
    var s := After(w, Start(policy, executorPolicy), acts);
    PolicyGate(w, policy, executorPolicy, acts, i);
    RunKeepsViews(view, viewOf, w, Start(policy, executorPolicy), acts);
    SameViewAnswered(view, viewOf, s.log[..i], s.log[i]);
  }

  lemma SameViewAnswered<T(!new)>(view: Envelope -> T, viewOf: string -> T, log: seq<Event>, e: Event)
    requires e.Invoked? && e.path == Approved && Justified(log, e) && view(e.envelope) == viewOf(e.envelope.taskId)
    requires forall f :: f in log && f.Answered? ==> view(f.envelope) == viewOf(f.envelope.taskId)
    ensures AnsweredAlike(view, log, e)
  {
    var k :| 0 <= k < |log| && IsMatch(log[k], e)
      && AnsweredFor(log[..k], e.envelope.taskId, e.capability, e.agentId, RequireApproval);
    var before := log[..k];
    var m :| 0 <= m < |before| && before[m].Answered? && before[m].envelope.taskId == e.envelope.taskId
      && IsAnswer(before[m], before[m].envelope, e.capability, e.agentId, RequireApproval);
    assert log[m] == before[m] && log[m] in log;
  }

  // ---------- how often an approval executes ----------

  /**
    After an approval has matched, and after anything else, a further request for the task calls
    the executor exactly when the record still awaits approval under the request's reference, and
    the request names the capability and agent of the first; the adapter then executes exactly
    when it takes the request.
   */
  lemma ApprovalRepeatsIff(w: World, policy: Policy, executorPolicy: Policy, acts: seq<Action>, more: seq<Action>,
                           a: ApproveCall, b: ApproveCall, call: nat)
    requires Takes(w, Start(policy, executorPolicy), acts + more) && Takes(w, Start(policy, executorPolicy), acts)
    requires ApprovalMatches(After(w, Start(policy, executorPolicy), acts), a)
    requires InOrder(b) && b.requestTaskId == a.requestTaskId
    ensures var s := After(w, Start(policy, executorPolicy), acts + more);
            var r := DoApprove(s, call, b);
            && a.requestTaskId in s.store.tasks
            && (r.reply == Suspends <==>
                  && b.capability == a.capability && b.agentId == a.agentId
                  && s.store.tasks[a.requestTaskId].status == AwaitingApproval
                  && StoredReference(s.store.tasks[a.requestTaskId]) == b.approvalReference != "")
    ensures var s := After(w, Start(policy, executorPolicy), acts + more);
            var r := DoApprove(s, call, b);
            var executed := Invoked(Approved, s.policy, b.envelope, "", b.capability, b.agentId, b.adapterTakes);
            r.reply == Suspends ==> r.state.log != [] && r.state.log[|r.state.log| - 1] == executed
  {
    hide Inv;
    var s := After(w, Start(policy, executorPolicy), acts);
    StartIsGood(policy, executorPolicy);
    RunIsGood(w, Start(policy, executorPolicy), acts);
    AfterBoth(w, Start(policy, executorPolicy), acts, more);
    RunIsGood(w, s, more);
    assert Kept(s.store.tasks[a.requestTaskId], After(w, s, more).store.tasks[a.requestTaskId]);
  }

  /** Once a stored task no longer awaits approval, no approval of it ever matches again. */
  lemma ApprovalClosesForGood(w: World, policy: Policy, executorPolicy: Policy, acts: seq<Action>, more: seq<Action>, a: ApproveCall)
    requires Takes(w, Start(policy, executorPolicy), acts + more) && Takes(w, Start(policy, executorPolicy), acts)
    requires var tasks := After(w, Start(policy, executorPolicy), acts).store.tasks;
             a.requestTaskId in tasks && tasks[a.requestTaskId].status != AwaitingApproval
    ensures !ApprovalMatches(After(w, Start(policy, executorPolicy), acts + more), a)
  {
    hide Inv;
    var s := After(w, Start(policy, executorPolicy), acts);
    StartIsGood(policy, executorPolicy);
    RunIsGood(w, Start(policy, executorPolicy), acts);
    AfterBoth(w, Start(policy, executorPolicy), acts, more);
    RunIsGood(w, s, more);
    assert Kept(s.store.tasks[a.requestTaskId], After(w, s, more).store.tasks[a.requestTaskId]);
  }

  /**
    Two overlapping approvals of a task both execute: whatever is dispatched and answered
    require_approval on an empty store can be approved twice before the first outcome arrives.
    The adapter executes both times if it takes the intent.
   */
  lemma OverlappingApprovalsBothRun(w: World, policy: Policy, executorPolicy: Policy, d: DispatchCall)
    requires ChecksPass(d) && Asks(w, policy, d)
    ensures var acts := DispatchThenApprove(d, [], d.envelope) + [Action.Approve(2, ApprovalOf(d, d.envelope))];
            && Takes(w, Start(policy, executorPolicy), acts)
            && var log := After(w, Start(policy, executorPolicy), acts).log;
               |log| == 5 && log[2] == log[4] == Invoked(Approved, policy, d.envelope, "", d.capability, d.agentId, true)
  {
    hide DoDispatch, ReferenceFor, Takes, After, DispatchThenApprove;
    var start, acts := Start(policy, executorPolicy), DispatchThenApprove(d, [], d.envelope);
    var again := Action.Approve(2, ApprovalOf(d, d.envelope));
    ApprovalExecutes(w, policy, executorPolicy, d, [], d.envelope);
    OneStep(w, After(w, start, acts), again);
    RunGoesOn(w, start, acts, [again]);
  }

  // ---------- a revoked task's queued job ----------

  lemma StepKeepsJobs(w: World, s: Orch, a: Action)
    requires Enabled(s, a)
    ensures s.jobs <= Step(w, s, a).jobs
  {
  }

  lemma {:induction false} RunKeepsJobs(w: World, s: Orch, acts: seq<Action>)
    requires Takes(w, s, acts)
    ensures s.jobs <= After(w, s, acts).jobs
    decreases |acts|
  {
    if acts != [] {
      StepKeepsJobs(w, s, acts[0]);
      RunKeepsJobs(w, Step(w, s, acts[0]), acts[1..]);
    }
  }

  /**
    Revoking a task, or ending it otherwise, does not stop its queued job: after anything else the
    record is as it was, yet a run of the job still calls the adapter exactly when the executor's
    policy of that moment allows the intent and the adapter takes it. The run does not look at
    the store; only its outcome is then refused.
   */
  lemma RevokedJobRunsIff(w: World, policy: Policy, executorPolicy: Policy, acts: seq<Action>, more: seq<Action>,
                          k: nat, call: nat, start: QueuedStart)
    requires Takes(w, Start(policy, executorPolicy), acts + more) && Takes(w, Start(policy, executorPolicy), acts)
    requires var s := After(w, Start(policy, executorPolicy), acts);
             && k < |s.jobs| && s.jobs[k].envelope.taskId in s.store.tasks
             && IsTerminal(s.store.tasks[s.jobs[k].envelope.taskId].status)
    ensures var s := After(w, Start(policy, executorPolicy), acts);
            var later := After(w, Start(policy, executorPolicy), acts + more);
            var j := s.jobs[k];
            && k < |later.jobs| && later.jobs[k] == j
            && j.envelope.taskId in later.store.tasks
            && later.store.tasks[j.envelope.taskId].status == s.store.tasks[j.envelope.taskId].status
            && var log := DoRunJob(w, later, k, call, start).log;
               (exists e :: e in log[|later.log|..] && e.Invoked? && e.adapter) <==>
                 start.intentValid && start.adapterTakes
                 && Decide(w, later.executorPolicy, j.envelope, j.capability) == Allow
  {
    hide Inv;
    var s := After(w, Start(policy, executorPolicy), acts);
    StartIsGood(policy, executorPolicy);
    RunIsGood(w, Start(policy, executorPolicy), acts);
    AfterBoth(w, Start(policy, executorPolicy), acts, more);
    RunIsGood(w, s, more);
    RunKeepsJobs(w, s, more);
    var later := After(w, s, more);
    assert Kept(s.store.tasks[s.jobs[k].envelope.taskId], later.store.tasks[s.jobs[k].envelope.taskId]);
    WhatARunAdds(w, later, k, call, start);
  }

  lemma WhatARunAdds(w: World, s: Orch, k: nat, call: nat, start: QueuedStart)
    requires k < |s.jobs|
    ensures var log := DoRunJob(w, s, k, call, start).log;
            && s.log <= log
            && ((exists e :: e in log[|s.log|..] && e.Invoked? && e.adapter) <==>
                  start.intentValid && start.adapterTakes
                  && Decide(w, s.executorPolicy, s.jobs[k].envelope, s.jobs[k].capability) == Allow)
  {
    var log := DoRunJob(w, s, k, call, start).log;
    var added := log[|s.log|..];
    if start.intentValid && Decide(w, s.executorPolicy, s.jobs[k].envelope, s.jobs[k].capability) == Allow {
      assert added[1] in added && added[1].Invoked?;
    }
  }

  predicate Queues(d: DispatchCall) {
    && d.resolves && d.envelope.taskId != "" && d.negotiates && d.intentValid
    && d.asyncDelivery && d.hasCapacity && d.receiptAppends && d.enqueued
  }

  /** Such a state is reached by every asynchronous dispatch that is allowed, queued and then cancelled. */
  lemma CancelledJobStaysQueued(w: World, policy: Policy, executorPolicy: Policy, d: DispatchCall, content: string)
    requires Queues(d) && Decide(w, policy, d.envelope, d.capability) == Allow
    ensures var acts := [Action.Dispatch(0, d), Action.CancelTask(d.envelope.taskId, None, content)];
            && Takes(w, Start(policy, executorPolicy), acts)
            && var s := After(w, Start(policy, executorPolicy), acts);
            && s.jobs == [QueuedJob(d.envelope, d.capability, d.agentId)]
            && d.envelope.taskId in s.store.tasks && s.store.tasks[d.envelope.taskId].status == Revoked
  {
    hide DoDispatch, DoCancel, Takes, After;
    var start, dispatch := Start(policy, executorPolicy), Action.Dispatch(0, d);
    var cancel := Action.CancelTask(d.envelope.taskId, None, content);
    QueuedAndRunning(w, policy, executorPolicy, d);
    var s := Step(w, start, dispatch);
    CancelRevokes(s, d.envelope.taskId, content);
    OneStep(w, start, dispatch);
    OneStep(w, s, cancel);
    RunGoesOn(w, start, [dispatch], [cancel]);
    assert [dispatch] + [cancel] == [dispatch, cancel];
  }

  lemma CancelRevokes(s: Orch, taskId: string, content: string)
    requires taskId in s.store.tasks && s.store.tasks[taskId].status == Running && s.store.tasks[taskId].taskId == taskId
    ensures var t := DoCancel(s, taskId, None, content).state;
            && taskId in t.store.tasks && t.store.tasks[taskId].status == Revoked
            && t == s.(store := t.store)
  {
  }

  lemma QueuedAndRunning(w: World, policy: Policy, executorPolicy: Policy, d: DispatchCall)
    requires Queues(d) && Decide(w, policy, d.envelope, d.capability) == Allow
    ensures var s := DoDispatch(w, Start(policy, executorPolicy), 0, d).state;
            && s.jobs == [QueuedJob(d.envelope, d.capability, d.agentId)]
            && d.envelope.taskId in s.store.tasks
            && s.store.tasks[d.envelope.taskId].status == Running
            && s.store.tasks[d.envelope.taskId].taskId == d.envelope.taskId
  {
  }
}
