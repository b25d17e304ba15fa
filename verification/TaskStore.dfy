/** The task store: records by id, an index from idempotency keys to ids, and the transition table. */
module TaskStore {
  import opened Common

  datatype Status = Accepted | Proposed | AwaitingApproval | Denied | Running | Completed | Failed | Revoked

  datatype Identity = Identity(kind: string, id: string, tenantId: Option<string>)

  /** `approvalReference` is the one in the structured output, "" if there is none; `content` is the rest. */
  datatype Result = Result(taskId: string, status: Status, approvalReference: string, content: string)

  datatype Receipt = Receipt(receiptId: string, taskId: Option<string>, content: string)

  datatype Record = Record(
    taskId: string,
    contextId: Option<string>,
    requester: Identity,
    key: Option<string>,
    capability: string,
    targetAgent: string,
    status: Status,
    result: Option<Result>,
    receipt: Option<Receipt>)

  datatype SaveParams = SaveParams(
    taskId: string,
    contextId: Option<string>,
    requester: Identity,
    key: Option<string>,
    capability: string,
    targetAgent: string,
    result: Result,
    receipt: Receipt)

  /** The fields an update gives; None leaves a field as it is. */
  datatype Updates = Updates(
    contextId: Option<string>,
    requester: Option<Identity>,
    key: Option<string>,
    capability: Option<string>,
    targetAgent: Option<string>,
    status: Option<Status>,
    result: Option<Result>,
    receipt: Option<Receipt>)

  datatype Store = Store(tasks: map<string, Record>, index: map<string, string>)

  const EMPTY := Store(map[], map[])

  // ---------- transitions ----------

  predicate IsTerminal(s: Status) {
    s == Completed || s == Failed || s == Denied || s == Revoked
  }

  function Successors(s: Status): set<Status> {
    match s
    case Accepted => {Proposed, Running, Completed, Failed, Denied, Revoked}
    case Proposed => {AwaitingApproval, Running, Denied, Revoked}
    case AwaitingApproval => {Running, Completed, Failed, Denied, Revoked}
    case Running => {Completed, Failed, Revoked}
    case _ => {}
  }

  /** assertValidTransition does not throw. */
  predicate TransitionAllowed(current: Status, next: Status) {
    current == next || (!IsTerminal(current) && next in Successors(current))
  }

  // ---------- operations ----------

  function KeyOf(key: Option<string>): string {
    if key.Some? then key.value else ""
  }

  predicate SaveThrows(s: Store, p: SaveParams) {
    || (p.taskId in s.tasks && !TransitionAllowed(s.tasks[p.taskId].status, p.result.status))
    || (KeyOf(p.key) != "" && KeyOf(p.key) in s.index
        && s.index[KeyOf(p.key)] != "" && s.index[KeyOf(p.key)] != p.taskId)
  }

  function Saved(s: Store, p: SaveParams): Store {
    var record := Record(p.taskId, p.contextId, p.requester, p.key, p.capability, p.targetAgent,
                         p.result.status, Some(p.result), Some(p.receipt));
    Store(s.tasks[p.taskId := record],
          if KeyOf(p.key) != "" then s.index[KeyOf(p.key) := p.taskId] else s.index)
  }

  function NextStatus(r: Record, u: Updates): Status {
    if u.status.Some? then u.status.value else r.status
  }

  /** validateTransition throws. */
  predicate UpdateThrows(r: Record, u: Updates) {
    var next := NextStatus(r, u);
    || (u.key.Some? && u.key != r.key)
    || (u.requester.Some? && u.requester.value != r.requester)
    || (u.capability.Some? && u.capability.value != r.capability)
    || (u.targetAgent.Some? && u.targetAgent.value != r.targetAgent)
    || (u.result.Some? && (u.result.value.taskId != r.taskId || u.result.value.status != next))
    || (u.receipt.Some? && u.receipt.value.taskId != Some(r.taskId))
    || (if r.status == next then
          IsTerminal(r.status) && ((u.result.Some? && u.result != r.result) || (u.receipt.Some? && u.receipt != r.receipt))
        else
          !TransitionAllowed(r.status, next) || u.result.None? || u.receipt.None?)
  }

  function UpdatedRecord(r: Record, u: Updates): Record {
    r.(contextId := if u.contextId.Some? then u.contextId else r.contextId,
       status := NextStatus(r, u),
       result := if u.result.Some? then u.result else r.result,
       receipt := if u.receipt.Some? then u.receipt else r.receipt)
  }

  function Updated(s: Store, taskId: string, u: Updates): Store
    requires taskId in s.tasks
  {
    s.(tasks := s.tasks[taskId := UpdatedRecord(s.tasks[taskId], u)])
  }

  function Deleted(s: Store, taskId: string): Store
    requires taskId in s.tasks
  {
    var key := KeyOf(s.tasks[taskId].key);
    Store(s.tasks - {taskId}, if key != "" then s.index - {key} else s.index)
  }

  /** An index entry for the empty task id counts as no entry. */
  function FindByKey(s: Store, key: string): Option<Record> {
    if key in s.index && s.index[key] != "" && s.index[key] in s.tasks then Some(s.tasks[s.index[key]]) else None
  }

  function GetByTenant(s: Store, taskId: string, tenantId: string): Option<Record> {
    if taskId in s.tasks && TenantKey(s.tasks[taskId].requester.tenantId) == TenantKey(Some(tenantId))
    then Some(s.tasks[taskId]) else None
  }

  // ---------- the store object ----------

  class Tasks {
    var tasks: map<string, Record>
    var idempotencyIndex: map<string, string>

    function Contents(): Store
      reads this
    {
      Store(tasks, idempotencyIndex)
    }

    constructor ()
      ensures Contents() == EMPTY
    {
      tasks, idempotencyIndex := map[], map[];
    }

    /** `ok` is false when the source throws; then nothing has changed. */
    method Save(p: SaveParams) returns (ok: bool)
      modifies this
      ensures ok == !SaveThrows(old(Contents()), p)
      ensures Contents() == if ok then Saved(old(Contents()), p) else old(Contents())
    {
      if p.taskId in tasks {
        if !TransitionAllowed(tasks[p.taskId].status, p.result.status) {
          return false;
        }
      }
      if KeyOf(p.key) != "" && KeyOf(p.key) in idempotencyIndex {
        var existingTaskId := idempotencyIndex[KeyOf(p.key)];
        if existingTaskId != "" && existingTaskId != p.taskId {
          return false;
        }
      }
      var record := Record(p.taskId, p.contextId, p.requester, p.key, p.capability, p.targetAgent,
                           p.result.status, Some(p.result), Some(p.receipt));
      tasks := tasks[record.taskId := record];
      if KeyOf(record.key) != "" {
        idempotencyIndex := idempotencyIndex[KeyOf(record.key) := record.taskId];
      }
      ok := true;
    }

    /** `found` is false for an unknown id, `ok` false when the source throws. */
    method Update(taskId: string, u: Updates) returns (found: bool, ok: bool)
      modifies this
      ensures found == (taskId in old(tasks))
      ensures ok == (found && !UpdateThrows(old(tasks)[taskId], u))
      ensures Contents() == if ok then Updated(old(Contents()), taskId, u) else old(Contents())
    {
      if taskId !in tasks {
        return false, false;
      }
      var existing := tasks[taskId];
      if UpdateThrows(existing, u) {
        return true, false;
      }
      tasks := tasks[taskId := UpdatedRecord(existing, u)];
      found, ok := true, true;
    }

    method Delete(taskId: string) returns (found: bool)
      modifies this
      ensures found == (taskId in old(tasks))
      ensures Contents() == if found then Deleted(old(Contents()), taskId) else old(Contents())
    {
      if taskId !in tasks {
        return false;
      }
      var key := KeyOf(tasks[taskId].key);
      tasks := tasks - {taskId};
      if key != "" {
        idempotencyIndex := idempotencyIndex - {key};
      }
      found := true;
    }
  }

  // ---------- runs of operations ----------

  datatype Op = SaveOp(p: SaveParams) | UpdateOp(taskId: string, u: Updates) | DeleteOp(id: string)

  /** A call that throws, or finds no record, changes nothing. */
  function Applied(s: Store, op: Op): Store {
    match op
    case SaveOp(p) => if SaveThrows(s, p) then s else Saved(s, p)
    case UpdateOp(taskId, u) => if taskId in s.tasks && !UpdateThrows(s.tasks[taskId], u) then Updated(s, taskId, u) else s
    case DeleteOp(id) => if id in s.tasks then Deleted(s, id) else s
  }

  function AppliedAll(s: Store, ops: seq<Op>): Store
    decreases |ops|
  {
    if ops == [] then s else AppliedAll(Applied(s, ops[0]), ops[1..])
  }

  // ---------- what is accepted, and what is then read back ----------

  /** How far along a status is; the terminal ones are the end. */
  function Rank(s: Status): nat {
    match s
    case Accepted => 0
    case Proposed => 1
    case AwaitingApproval => 2
    case Running => 3
    case _ => 4
  }

  /** The steps forward that the table leaves out. */
  predicate LeftOut(current: Status, next: Status) {
    || (current == Accepted && next == AwaitingApproval)
    || (current == Proposed && (next == Completed || next == Failed))
    || (current == Running && next == Denied)
  }

  /** Transitions only go forward, so they never cycle; and all steps forward are allowed but four. */
  lemma TransitionsGoForward(current: Status, next: Status)
    ensures TransitionAllowed(current, next) <==>
            current == next || (Rank(current) < Rank(next) && !LeftOut(current, next))
  {
  }

  /** A save is refused exactly for a forbidden transition, or a key that leads to another task. */
  lemma SaveRefusedIff(s: Store, p: SaveParams)
    requires Exact(s)
    ensures SaveThrows(s, p) <==>
            || (p.taskId in s.tasks && s.tasks[p.taskId].status != p.result.status
                && !(Rank(s.tasks[p.taskId].status) < Rank(p.result.status) && !LeftOut(s.tasks[p.taskId].status, p.result.status)))
            || (p.key.Some? && p.key.value != "" && exists id :: id in s.tasks && id != p.taskId && KeyOf(s.tasks[id].key) == p.key.value)
  {
    if p.key.Some? && p.key.value != "" && p.key.value in s.index {
      assert s.index[p.key.value] in s.tasks;
    }
    forall id | id in s.tasks && p.key.Some? && p.key.value != "" && KeyOf(s.tasks[id].key) == p.key.value
      ensures p.key.value in s.index && s.index[p.key.value] == id && id != ""
    {
      assert FindByKey(s, KeyOf(s.tasks[id].key)) == Some(s.tasks[id]);
    }
  }

  /** What was saved is read back by id, and by key, and every other task is as it was. */
  lemma SavedIsReadBack(s: Store, p: SaveParams, other: string)
    ensures var t := Saved(s, p);
            var r := Record(p.taskId, p.contextId, p.requester, p.key, p.capability, p.targetAgent,
                            p.result.status, Some(p.result), Some(p.receipt));
            && p.taskId in t.tasks && t.tasks[p.taskId] == r
            && (p.taskId != "" && p.key.Some? && p.key.value != "" ==> FindByKey(t, p.key.value) == Some(r))
            && (other != p.taskId ==> (other in t.tasks <==> other in s.tasks) && (other in t.tasks ==> t.tasks[other] == s.tasks[other]))
  {
  }

  /** The fields that say whose task it is, or belong to another task or status, must not be given otherwise. */
  predicate Consistent(r: Record, u: Updates) {
    && (u.key == None || u.key == r.key)
    && (u.requester == None || u.requester == Some(r.requester))
    && (u.capability == None || u.capability == Some(r.capability))
    && (u.targetAgent == None || u.targetAgent == Some(r.targetAgent))
    && (u.result.Some? ==> u.result.value.taskId == r.taskId && u.result.value.status == (if u.status.Some? then u.status.value else r.status))
    && (u.receipt.Some? ==> u.receipt.value.taskId == Some(r.taskId))
  }

  /**
    An update is accepted exactly when it is consistent and either keeps the status, and the
    outcome too if that is terminal, or takes an allowed step forward with a result and a receipt.
   */
  lemma UpdateAcceptedIff(r: Record, u: Updates)
    ensures var next := if u.status.Some? then u.status.value else r.status;
            !UpdateThrows(r, u) <==>
              && Consistent(r, u)
              && (if next == r.status
                  then Rank(next) == 4 ==> (u.result == None || u.result == r.result) && (u.receipt == None || u.receipt == r.receipt)
                  else Rank(r.status) < Rank(next) && !LeftOut(r.status, next) && u.result.Some? && u.receipt.Some?)
  {
  }

  /** An update changes the fields it gives among context, status, result and receipt, and nothing else. */
  lemma UpdateIsReadBack(s: Store, taskId: string, u: Updates, other: string)
    requires taskId in s.tasks
    ensures var r, t := s.tasks[taskId], Updated(s, taskId, u);
            && t.index == s.index && t.tasks.Keys == s.tasks.Keys
            && t.tasks[taskId] == Record(r.taskId, if u.contextId == None then r.contextId else u.contextId, r.requester, r.key,
                                         r.capability, r.targetAgent, if u.status.Some? then u.status.value else r.status,
                                         if u.result == None then r.result else u.result,
                                         if u.receipt == None then r.receipt else u.receipt)
            && (other in s.tasks && other != taskId ==> t.tasks[other] == s.tasks[other])
  {
  }

  // ---------- terminal records ----------

  /** The record's status, result and receipt are those of `r`. */
  predicate SameOutcome(r: Record, s: Store) {
    && r.taskId in s.tasks
    && var now := s.tasks[r.taskId];
    && now.status == r.status && now.result == r.result && now.receipt == r.receipt
  }

  /** No update, whatever it carries, changes the outcome of a terminal record. */
  lemma UpdatesFreezeTerminal(s: Store, taskId: string, u: Updates, r: Record)
    requires r.taskId in s.tasks && s.tasks[r.taskId] == r && IsTerminal(r.status)
    ensures SameOutcome(r, Applied(s, UpdateOp(taskId, u)))
  {
  }

  /**
    A save can change it: the transition check lets a terminal status be saved again, with another
    result. So a terminal record survives every operation except a save or a delete of its own id.
   */
  lemma OtherOperationsFreezeTerminal(s: Store, op: Op, r: Record)
    requires r.taskId in s.tasks && s.tasks[r.taskId] == r && IsTerminal(r.status)
    requires op.SaveOp? ==> op.p.taskId != r.taskId
    requires op.DeleteOp? ==> op.id != r.taskId
    ensures SameOutcome(r, Applied(s, op))
  {
  }

  /**
    A save of a terminal record's own id leaves its outcome alone exactly when the save throws
    or brings the stored result and receipt again.
   */
  lemma SaveFreezesTerminalIff(s: Store, p: SaveParams, r: Record)
    requires r.taskId in s.tasks && s.tasks[r.taskId] == r && IsTerminal(r.status) && p.taskId == r.taskId
    ensures SameOutcome(r, Applied(s, SaveOp(p))) <==>
            SaveThrows(s, p) || (r.result == Some(p.result) && r.receipt == Some(p.receipt))
  {
    if !SaveThrows(s, p) {
      assert p.result.status == r.status;
    }
  }

  /** A record completed with one result is completed again with another. */
  lemma SaveOverwritesTerminal(who: Identity)
    ensures var first := SaveParams("t", None, who, None, "c", "a", Result("t", Completed, "", "1"), Receipt("r1", Some("t"), ""));
            var second := first.(result := Result("t", Completed, "", "2"), receipt := Receipt("r2", Some("t"), ""));
            var s := Applied(EMPTY, SaveOp(first));
            && IsTerminal(s.tasks["t"].status)
            && !SameOutcome(s.tasks["t"], Applied(s, SaveOp(second)))
  {
  }

  // ---------- the idempotency index ----------

  ghost predicate OwnIds(s: Store) {
    forall id :: id in s.tasks ==> s.tasks[id].taskId == id
  }

  /** Looking up a stored task's key gives that task; so no two stored tasks share a key. */
  ghost predicate Agreement(s: Store) {
    && OwnIds(s)
    && forall id :: id in s.tasks && KeyOf(s.tasks[id].key) != "" ==> FindByKey(s, KeyOf(s.tasks[id].key)) == Some(s.tasks[id])
  }

  lemma AgreementMeansUniqueKeys(s: Store, id: string, other: string)
    requires Agreement(s) && id in s.tasks && other in s.tasks
    requires KeyOf(s.tasks[id].key) != "" && s.tasks[id].key == s.tasks[other].key
    ensures id == other
  {
    assert FindByKey(s, KeyOf(s.tasks[id].key)) == Some(s.tasks[id]);
  }

  /** A successful save keeps the agreement exactly when it does not put a key on the empty task id. */
  lemma SaveKeepsAgreementIff(s: Store, p: SaveParams)
    requires Agreement(s) && !SaveThrows(s, p)
    ensures Agreement(Saved(s, p)) <==> (p.taskId != "" || KeyOf(p.key) == "")
  {
    var t := Saved(s, p);
    if p.taskId != "" || KeyOf(p.key) == "" {
      forall id | id in t.tasks && KeyOf(t.tasks[id].key) != ""
        ensures FindByKey(t, KeyOf(t.tasks[id].key)) == Some(t.tasks[id])
      {
        if id != p.taskId {
          assert FindByKey(s, KeyOf(s.tasks[id].key)) == Some(s.tasks[id]);
        }
      }
    } else {
      assert p.taskId in t.tasks && FindByKey(t, KeyOf(p.key)) == None;
    }
  }

  lemma UpdateKeepsAgreement(s: Store, taskId: string, u: Updates)
    requires Agreement(s)
    ensures Agreement(Applied(s, UpdateOp(taskId, u)))
  {
    var t := Applied(s, UpdateOp(taskId, u));
    forall id | id in t.tasks && KeyOf(t.tasks[id].key) != ""
      ensures FindByKey(t, KeyOf(t.tasks[id].key)) == Some(t.tasks[id])
    {
      assert FindByKey(s, KeyOf(s.tasks[id].key)) == Some(s.tasks[id]);
    }
  }

  lemma DeleteKeepsAgreement(s: Store, taskId: string)
    requires Agreement(s)
    ensures Agreement(Applied(s, DeleteOp(taskId)))
  {
    var t := Applied(s, DeleteOp(taskId));
    forall id | id in t.tasks && KeyOf(t.tasks[id].key) != ""
      ensures FindByKey(t, KeyOf(t.tasks[id].key)) == Some(t.tasks[id])
    {
      assert FindByKey(s, KeyOf(s.tasks[id].key)) == Some(s.tasks[id]);
    }
  }

  /** Over any run of saves, updates and deletes in which no key is put on the empty task id. */
  lemma {:induction false} RunsKeepAgreement(s: Store, ops: seq<Op>)
    requires Agreement(s)
    requires forall i :: 0 <= i < |ops| && ops[i].SaveOp? ==> ops[i].p.taskId != "" || KeyOf(ops[i].p.key) == ""
    ensures Agreement(AppliedAll(s, ops))
    decreases |ops|
  {
    if ops != [] {
      match ops[0] {
        case SaveOp(p) => if !SaveThrows(s, p) { SaveKeepsAgreementIff(s, p); }
        case UpdateOp(taskId, u) => UpdateKeepsAgreement(s, taskId, u);
        case DeleteOp(id) => DeleteKeepsAgreement(s, id);
      }
      RunsKeepAgreement(Applied(s, ops[0]), ops[1..]);
    }
  }

  /** The index lists the keys of the stored tasks and nothing else. */
  ghost predicate Exact(s: Store) {
    && Agreement(s)
    && forall key :: key in s.index ==> key != "" && s.index[key] in s.tasks && KeyOf(s.tasks[s.index[key]].key) == key
  }

  /** With an exact index, a lookup finds a record exactly when a scan of all records does. */
  lemma LookupEqualsScan(s: Store, key: string, r: Record)
    requires Exact(s) && key != ""
    ensures FindByKey(s, key) == Some(r) <==> r.taskId in s.tasks && s.tasks[r.taskId] == r && KeyOf(r.key) == key
  {
    if r.taskId in s.tasks && s.tasks[r.taskId] == r && KeyOf(r.key) == key {
      assert FindByKey(s, KeyOf(s.tasks[r.taskId].key)) == Some(s.tasks[r.taskId]);
    }
  }

  /** A save gives the task a first key or its old one, and puts no key on the empty id. */
  predicate KeepsKey(s: Store, p: SaveParams) {
    && (p.taskId != "" || KeyOf(p.key) == "")
    && (p.taskId in s.tasks && KeyOf(s.tasks[p.taskId].key) != "" ==> KeyOf(s.tasks[p.taskId].key) == KeyOf(p.key))
  }

  /** A successful save keeps the index exact exactly when it keeps the task's key. */
  lemma SaveKeepsExactIff(s: Store, p: SaveParams)
    requires Exact(s) && !SaveThrows(s, p)
    ensures Exact(Saved(s, p)) <==> KeepsKey(s, p)
  {
    var t := Saved(s, p);
    SaveKeepsAgreementIff(s, p);
    if p.taskId in s.tasks && KeyOf(s.tasks[p.taskId].key) != "" && KeyOf(s.tasks[p.taskId].key) != KeyOf(p.key) {
      var stale := KeyOf(s.tasks[p.taskId].key);
      assert FindByKey(s, KeyOf(s.tasks[p.taskId].key)) == Some(s.tasks[p.taskId]);
      assert stale in t.index && t.index[stale] == p.taskId && KeyOf(t.tasks[p.taskId].key) != stale;
    }
  }

  /** Every task id is always saved under one key, given by `keyFor`, and the empty id under none. */
  ghost predicate OneKeyEach(keyFor: string -> string, ops: seq<Op>) {
    forall i :: 0 <= i < |ops| && ops[i].SaveOp? ==>
      KeyOf(ops[i].p.key) == keyFor(ops[i].p.taskId) && (ops[i].p.taskId != "" || KeyOf(ops[i].p.key) == "")
  }

  ghost predicate KeysFrom(keyFor: string -> string, s: Store) {
    forall id :: id in s.tasks ==> KeyOf(s.tasks[id].key) == keyFor(id)
  }

  /** Then the index stays exact over any run of saves, updates and deletes. */
  lemma {:induction false} RunsKeepExact(keyFor: string -> string, s: Store, ops: seq<Op>)
    requires Exact(s) && KeysFrom(keyFor, s) && OneKeyEach(keyFor, ops)
    ensures Exact(AppliedAll(s, ops))
    decreases |ops|
  {
    if ops != [] {
      match ops[0] {
        case SaveOp(p) => if !SaveThrows(s, p) { SaveKeepsExactIff(s, p); }
        case UpdateOp(taskId, u) => UpdateKeepsExact(s, taskId, u);
        case DeleteOp(id) => DeleteKeepsExact(s, id);
      }
      assert ops[0].SaveOp? ==> KeyOf(ops[0].p.key) == keyFor(ops[0].p.taskId);
      RunsKeepExact(keyFor, Applied(s, ops[0]), ops[1..]);
    }
  }

  /** So in every such run from the empty store a lookup finds a record exactly when a scan does. */
  lemma LookupEqualsScanInRuns(keyFor: string -> string, ops: seq<Op>, key: string, r: Record)
    requires OneKeyEach(keyFor, ops) && key != ""
    ensures var s := AppliedAll(EMPTY, ops);
            FindByKey(s, key) == Some(r) <==> r.taskId in s.tasks && s.tasks[r.taskId] == r && KeyOf(r.key) == key
  {
    RunsKeepExact(keyFor, EMPTY, ops);
    LookupEqualsScan(AppliedAll(EMPTY, ops), key, r);
  }

  lemma DeleteKeepsExact(s: Store, taskId: string)
    requires Exact(s)
    ensures Exact(Applied(s, DeleteOp(taskId)))
  {
    DeleteKeepsAgreement(s, taskId);
  }

  lemma UpdateKeepsExact(s: Store, taskId: string, u: Updates)
    requires Exact(s)
    ensures Exact(Applied(s, UpdateOp(taskId, u)))
  {
    UpdateKeepsAgreement(s, taskId, u);
  }
}
