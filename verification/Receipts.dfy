/** The append-only receipt store: a map by id and the order in which the ids arrived. */
module Receipts {
  import opened Common

  /** `json` is the receipt's JSON text, by which two receipts with one id are compared. */
  datatype Receipt = Receipt(id: string, tenantId: Option<string>, json: string)

  datatype Log = Log(receipts: map<string, Receipt>, order: seq<string>)

  /** A second receipt with a known id is a conflict unless its text is the same. */
  predicate Conflicts(log: Log, r: Receipt) {
    r.id in log.receipts && log.receipts[r.id].json != r.json
  }

  function Appended(log: Log, r: Receipt): Log {
    if r.id in log.receipts then log else Log(log.receipts[r.id := r], log.order + [r.id])
  }

  /** An absent or empty tenant asks for all tenants. */
  predicate Visible(r: Receipt, tenantId: Option<string>) {
    tenantId.Some? && tenantId.value != "" ==> TenantKey(r.tenantId) == TenantKey(tenantId)
  }

  /** The receipts named by `ids`, in that order; an id without a receipt is left out. */
  function Lookup(receipts: map<string, Receipt>, ids: seq<string>): seq<Receipt> {
    if ids == [] then []
    else (if ids[0] in receipts then [receipts[ids[0]]] else []) + Lookup(receipts, ids[1..])
  }

  function Filter(records: seq<Receipt>, tenantId: Option<string>): seq<Receipt> {
    if records == [] then []
    else (if Visible(records[0], tenantId) then [records[0]] else []) + Filter(records[1..], tenantId)
  }

  function List(log: Log, tenantId: Option<string>): seq<Receipt> {
    Filter(Lookup(log.receipts, log.order), tenantId)
  }

  function Get(log: Log, id: string, tenantId: Option<string>): Option<Receipt> {
    if id in log.receipts && Visible(log.receipts[id], tenantId) then Some(log.receipts[id]) else None
  }

  // ---------- the store object ----------

  ghost predicate Agrees(log: Log) {
    && (forall i, j :: 0 <= i < j < |log.order| ==> log.order[i] != log.order[j])
    && (forall id :: id in log.order <==> id in log.receipts)
    && (forall id :: id in log.receipts ==> log.receipts[id].id == id)
  }

  class ReceiptStore {
    var receipts: map<string, Receipt>
    var order: seq<string>

    function Contents(): Log
      reads this
    {
      Log(receipts, order)
    }

    ghost predicate Valid()
      reads this
    {
      Agrees(Contents())
    }

    constructor ()
      ensures Valid() && Contents() == Log(map[], [])
    {
      receipts, order := map[], [];
    }

    /** `ok` is false when the source throws a conflict. */
    method Append(r: Receipt) returns (ok: bool)
      requires Valid()
      modifies this
      ensures Valid() && ok == !Conflicts(old(Contents()), r)
      ensures Contents() == if ok then Appended(old(Contents()), r) else old(Contents())
      ensures ok ==> r.id in receipts && receipts[r.id].json == r.json
    {
      if r.id in receipts {
        return receipts[r.id].json == r.json;
      }
      AppendKeepsAgreement(Contents(), r);
      receipts := receipts[r.id := r];
      order := order + [r.id];
      ok := true;
    }
  }

  lemma AppendKeepsAgreement(log: Log, r: Receipt)
    requires Agrees(log)
    ensures Agrees(Appended(log, r))
  {
  }

  // ---------- appending only adds at the end ----------

  /** `later` is `earlier` with receipts added at the end and none changed. */
  ghost predicate Extends(earlier: Log, later: Log) {
    && earlier.order <= later.order
    && (forall id :: id in earlier.receipts ==> id in later.receipts && later.receipts[id] == earlier.receipts[id])
  }

  function AppendAll(log: Log, rs: seq<Receipt>): Log
    decreases |rs|
  {
    if rs == [] then log
    else AppendAll(if Conflicts(log, rs[0]) then log else Appended(log, rs[0]), rs[1..])
  }

  /** Whatever is appended, conflicts included, nothing earlier moves or changes. */
  lemma {:induction false} AppendsExtend(log: Log, rs: seq<Receipt>)
    requires Agrees(log)
    ensures Agrees(AppendAll(log, rs)) && Extends(log, AppendAll(log, rs))
    decreases |rs|
  {
    if rs != [] {
      AppendKeepsAgreement(log, rs[0]);
      AppendsExtend(if Conflicts(log, rs[0]) then log else Appended(log, rs[0]), rs[1..]);
    }
  }

  lemma {:induction false} LookupConcat(receipts: map<string, Receipt>, a: seq<string>, b: seq<string>)
    ensures Lookup(receipts, a + b) == Lookup(receipts, a) + Lookup(receipts, b)
  {
    if a == [] {
      assert a + b == b;
    } else {
      assert (a + b)[1..] == a[1..] + b;
      LookupConcat(receipts, a[1..], b);
    }
  }

  lemma {:induction false} FilterConcat(a: seq<Receipt>, b: seq<Receipt>, tenantId: Option<string>)
    ensures Filter(a + b, tenantId) == Filter(a, tenantId) + Filter(b, tenantId)
  {
    if a == [] {
      assert a + b == b;
    } else {
      assert (a + b)[1..] == a[1..] + b;
      FilterConcat(a[1..], b, tenantId);
    }
  }

  lemma {:induction false} LookupInLater(early: map<string, Receipt>, late: map<string, Receipt>, ids: seq<string>)
    requires forall id :: id in ids ==> id in early
    requires forall id :: id in early ==> id in late && late[id] == early[id]
    ensures Lookup(early, ids) == Lookup(late, ids)
  {
    if ids != [] {
      assert ids[0] in ids;
      LookupInLater(early, late, ids[1..]);
    }
  }

  /** Every earlier list is a prefix of every later one, for every tenant. */
  lemma ListGrowsAtTheEnd(earlier: Log, later: Log, tenantId: Option<string>)
    requires Agrees(earlier) && Extends(earlier, later)
    ensures List(earlier, tenantId) <= List(later, tenantId)
  {
    var added := later.order[|earlier.order|..];
    assert later.order == earlier.order + added;
    LookupInLater(earlier.receipts, later.receipts, earlier.order);
    LookupConcat(later.receipts, earlier.order, added);
    FilterConcat(Lookup(later.receipts, earlier.order), Lookup(later.receipts, added), tenantId);
  }

  // ---------- lists and lookups agree ----------

  ghost predicate UniqueIds(rs: seq<Receipt>) {
    forall i, j :: 0 <= i < j < |rs| ==> rs[i].id != rs[j].id
  }

  lemma {:induction false} LookupIsFaithful(receipts: map<string, Receipt>, ids: seq<string>)
    requires forall i, j :: 0 <= i < j < |ids| ==> ids[i] != ids[j]
    requires forall id :: id in receipts ==> receipts[id].id == id
    ensures UniqueIds(Lookup(receipts, ids))
    ensures forall r :: r in Lookup(receipts, ids) <==> r.id in ids && r.id in receipts && receipts[r.id] == r
  {
    if ids != [] {
      LookupIsFaithful(receipts, ids[1..]);
      assert ids == [ids[0]] + ids[1..];
      var rest := Lookup(receipts, ids[1..]);
      forall k | 0 <= k < |rest| ensures rest[k].id != ids[0] {
        assert rest[k] in rest;
      }
    }
  }

  lemma {:induction false} FilterIsFaithful(rs: seq<Receipt>, tenantId: Option<string>)
    requires UniqueIds(rs)
    ensures UniqueIds(Filter(rs, tenantId))
    ensures forall r :: r in Filter(rs, tenantId) <==> r in rs && Visible(r, tenantId)
  {
    if rs != [] {
      FilterIsFaithful(rs[1..], tenantId);
      assert rs == [rs[0]] + rs[1..];
      var rest := Filter(rs[1..], tenantId);
      forall k | 0 <= k < |rest| ensures rest[k].id != rs[0].id {
        assert rest[k] in rest;
        var m :| 0 <= m < |rs[1..]| && rs[1..][m] == rest[k];
        assert rs[m + 1] == rest[k];
      }
    }
  }

  lemma ListIsFaithful(log: Log, tenantId: Option<string>)
    requires Agrees(log)
    ensures UniqueIds(List(log, tenantId))
    ensures forall r :: r in List(log, tenantId) <==> r.id in log.receipts && log.receipts[r.id] == r && Visible(r, tenantId)
  {
    LookupIsFaithful(log.receipts, log.order);
    FilterIsFaithful(Lookup(log.receipts, log.order), tenantId);
  }

  /** A tenant can fetch a receipt by id exactly when it is in the tenant's list. */
  lemma GetAgreesWithList(log: Log, r: Receipt, tenantId: Option<string>)
    requires Agrees(log)
    ensures Get(log, r.id, tenantId) == Some(r) <==> r in List(log, tenantId)
  {
    ListIsFaithful(log, tenantId);
  }

  predicate IsNamed(tenantId: Option<string>) {
    tenantId.Some? && exists i :: 0 <= i < |tenantId.value| && !IsWhiteSpace(tenantId.value[i])
  }

  /**
    A tenant's list holds a stored receipt exactly when it is the tenant's own. Receipts that
    name no tenant are the tenant "default"'s, and so is a list asked for by a blank name; a
    list asked for by no name, or an empty one, holds every receipt.
   */
  lemma OwnReceiptsAreListed(log: Log, r: Receipt, tenantId: Option<string>)
    requires Agrees(log) && r.id in log.receipts && log.receipts[r.id] == r
    ensures var owner := if IsNamed(r.tenantId) then r.tenantId.value else "default";
            r in List(log, tenantId) <==>
              tenantId == None || tenantId == Some("") || owner == (if IsNamed(tenantId) then tenantId.value else "default")
  {
    ListIsFaithful(log, tenantId);
  }

  /** Appending the same receipt again is accepted and changes nothing; another text under its id is refused. */
  lemma AppendAgain(log: Log, r: Receipt, other: Receipt)
    requires Agrees(log) && !Conflicts(log, r) && other.id == r.id
    ensures var t := Appended(log, r);
            && (Conflicts(t, other) <==> other.json != t.receipts[r.id].json)
            && t.receipts[r.id].json == r.json && Appended(t, r) == t
  {
  }

  /** No receipt is visible under two different tenants. */
  lemma TenantsAreApart(log: Log, r: Receipt, tenant: string, other: string)
    requires Agrees(log) && tenant != "" && other != "" && TenantKey(Some(tenant)) != TenantKey(Some(other))
    ensures !(r in List(log, Some(tenant)) && r in List(log, Some(other)))
  {
    ListIsFaithful(log, Some(tenant));
    ListIsFaithful(log, Some(other));
  }
}
