/** Reading the receipt log page by page, by cursor, while it grows. */
module ReceiptPaging {
  import opened Common
  import opened Receipts

  datatype Page = Page(receipts: seq<Receipt>, nextCursor: Option<string>)

  function Limit(requested: Option<int>): (n: nat)
    ensures 1 <= n <= 500
    ensures requested.None? ==> n == 100
    ensures requested.Some? ==> n == requested.value || (n == 1 && requested.value < 1) || (n == 500 && requested.value > 500)
  {
    Max(1, Min(500, if requested.Some? then requested.value else 100))
  }

  /** Array.prototype.findIndex by receipt id. */
  function IndexOf(rs: seq<Receipt>, id: string): (i: int)
    ensures -1 <= i < |rs|
    ensures i >= 0 ==> rs[i].id == id
    ensures forall k :: 0 <= k < (if i < 0 then |rs| else i) ==> rs[k].id != id
  {
    if rs == [] then -1
    else if rs[0].id == id then 0
    else
      var i := IndexOf(rs[1..], id);
      if i < 0 then -1 else i + 1
  }

  /** Array.prototype.slice with in-order bounds. */
  function Slice<T>(s: seq<T>, start: nat, end: nat): seq<T>
    requires start <= end
  {
    s[Min(start, |s|)..Min(end, |s|)]
  }

  /** No cursor, an empty one, or one that names no receipt starts at the beginning. */
  function StartIndex(all: seq<Receipt>, cursor: Option<string>): nat {
    if cursor.Some? && cursor.value != "" then Max(0, IndexOf(all, cursor.value) + 1) else 0
  }

  function PageOf(all: seq<Receipt>, cursor: Option<string>, requested: Option<int>): Page {
    var start := StartIndex(all, cursor);
    var end := start + Limit(requested);
    Page(Slice(all, start, end), if end < |all| then Some(all[end - 1].id) else None)
  }

  /** A cursor's receipt, if it is in the list: the page starts right after it, else at the beginning. */
  ghost predicate StartsAfter(all: seq<Receipt>, cursor: Option<string>, start: nat) {
    if cursor.Some? && cursor.value != "" && exists i :: 0 <= i < |all| && all[i].id == cursor.value
    then 0 < start <= |all| && all[start - 1].id == cursor.value
    else start == 0
  }

  /** A page is the next receipts after the cursor, as many as the limit, or all that are left; then there is no next cursor. */
  lemma PageMeans(all: seq<Receipt>, cursor: Option<string>, requested: Option<int>)
    requires UniqueIds(all)
    ensures var page, n := PageOf(all, cursor, requested), Limit(requested);
            exists start: nat :: StartsAfter(all, cursor, start) && start <= |all|
              && |page.receipts| == (if start + n < |all| then n else |all| - start)
              && (forall k :: 0 <= k < |page.receipts| ==> page.receipts[k] == all[start + k])
              && page.nextCursor == if start + n < |all| then Some(page.receipts[n - 1].id) else None
  {
    var start := StartIndex(all, cursor);
    assert StartsAfter(all, cursor, start);
  }

  // ---------- one step of a walk ----------

  lemma FoundAt(rs: seq<Receipt>, i: nat)
    requires UniqueIds(rs) && i < |rs|
    ensures IndexOf(rs, rs[i].id) == i
  {
  }

  /**
    Following a page's cursor on a grown log resumes right after that page exactly when the
    cursor is not the empty string; the empty id sends the reader back to the beginning.
   */
  lemma CursorResumesIff(earlier: Log, later: Log, tenantId: Option<string>, cursor: Option<string>, requested: Option<int>)
    requires Agrees(earlier) && Agrees(later) && Extends(earlier, later)
    requires PageOf(List(earlier, tenantId), cursor, requested).nextCursor.Some?
    ensures var all := List(earlier, tenantId);
            var next := PageOf(all, cursor, requested).nextCursor;
            (StartIndex(List(later, tenantId), next) == StartIndex(all, cursor) + Limit(requested)) <==> next.value != ""
  {
    hide List, Agrees, Extends, UniqueIds;
    var all, grown := List(earlier, tenantId), List(later, tenantId);
    var end := StartIndex(all, cursor) + Limit(requested);
    ListGrowsAtTheEnd(earlier, later, tenantId);
    ListIsFaithful(later, tenantId);
    assert grown[end - 1] == all[end - 1];
    FoundAt(grown, end - 1);
  }

  /** A new receipt appears at the end of the list. */
  lemma ListAfterAppend(log: Log, r: Receipt)
    requires Agrees(log) && r.id !in log.receipts
    ensures Agrees(Appended(log, r)) && Extends(log, Appended(log, r))
    ensures List(Appended(log, r), None) == List(log, None) + [r]
  {
    var later := Appended(log, r);
    LookupInLater(log.receipts, later.receipts, log.order);
    LookupConcat(later.receipts, log.order, [r.id]);
    assert Lookup(later.receipts, [r.id]) == [r];
    FilterConcat(Lookup(log.receipts, log.order), [r], None);
    assert Filter([r], None) == [r];
  }

  /** Two receipts, the first with the empty id, read one at a time: the cursor leads back to the first. */
  lemma EmptyIdRestarts(first: Receipt, second: Receipt)
    requires first.id == "" && second.id != ""
    ensures var log := Appended(Appended(Log(map[], []), first), second);
            var page := PageOf(List(log, None), None, Some(1));
            && Agrees(log)
            && page == Page([first], Some(""))
            && PageOf(List(log, None), page.nextCursor, Some(1)) == page
  {
    ListAfterAppend(Log(map[], []), first);
    ListAfterAppend(Appended(Log(map[], []), first), second);
  }

  // ---------- a whole walk ----------

  /** One request: the log at that moment, the limit asked for, and the page that came back. */
  datatype Visit = Visit(log: Log, limit: Option<int>, page: Page)

  predicate NoEmptyId(rs: seq<Receipt>) {
    forall i :: 0 <= i < |rs| ==> rs[i].id != ""
  }

  /** Each page is read from a log grown since the page before, at its own limit, from that page's cursor; the reader's list has no empty id. */
  ghost predicate IsWalk(tenantId: Option<string>, walk: seq<Visit>) {
    && walk != []
    && var last := walk[|walk| - 1];
    && Agrees(last.log) && NoEmptyId(List(last.log, tenantId))
    && if |walk| == 1 then last.page == PageOf(List(last.log, tenantId), None, last.limit)
       else
         var previous := walk[|walk| - 2];
         && IsWalk(tenantId, walk[..|walk| - 1])
         && Extends(previous.log, last.log)
         && previous.page.nextCursor.Some?
         && last.page == PageOf(List(last.log, tenantId), previous.page.nextCursor, last.limit)
  }

  function Read(walk: seq<Visit>): seq<Receipt> {
    if walk == [] then [] else Read(walk[..|walk| - 1]) + walk[|walk| - 1].page.receipts
  }

  /** Where a walk stands: what it has read is a prefix of the list, and ends at the cursor. */
  ghost predicate StandsAt(all: seq<Receipt>, seen: seq<Receipt>, next: Option<string>, pageCount: nat) {
    && seen <= all
    && (next.Some? ==> 0 < |seen| < |all| && next.value == all[|seen| - 1].id)
    && (next.None? ==> seen == all)
    && pageCount <= Max(1, |seen|)
  }

  lemma FirstPageStands(all: seq<Receipt>, requested: Option<int>)
    ensures var page := PageOf(all, None, requested); StandsAt(all, page.receipts, page.nextCursor, 1)
  {
  }

  lemma NextPageStands(all: seq<Receipt>, grown: seq<Receipt>, seen: seq<Receipt>, next: Option<string>, pageCount: nat,
                       requested: Option<int>)
    requires UniqueIds(grown) && all <= grown && NoEmptyId(grown)
    requires StandsAt(all, seen, next, pageCount) && next.Some?
    ensures var page := PageOf(grown, next, requested);
            StandsAt(grown, seen + page.receipts, page.nextCursor, pageCount + 1)
  {
    assert grown[|seen| - 1] == all[|seen| - 1];
    FoundAt(grown, |seen| - 1);
    assert StartIndex(grown, next) == |seen|;
    var end := Min(|seen| + Limit(requested), |grown|);
    assert seen == grown[..|seen|];
    assert seen + grown[|seen|..end] == grown[..end];
  }

  lemma {:induction false} WalkStands(tenantId: Option<string>, walk: seq<Visit>)
    requires IsWalk(tenantId, walk)
    ensures var last := walk[|walk| - 1];
            StandsAt(List(last.log, tenantId), Read(walk), last.page.nextCursor, |walk|)
    decreases |walk|
  {
    hide Agrees, Extends, StandsAt, List, PageOf;
    var last := walk[|walk| - 1];
    var before := walk[..|walk| - 1];
    assert Read(walk) == Read(before) + last.page.receipts;
    if |walk| == 1 {
      assert Read(before) == [];
      assert Read(walk) == last.page.receipts;
      FirstPageStands(List(last.log, tenantId), last.limit);
    } else {
      var previous := walk[|walk| - 2];
      WalkStands(tenantId, before);
      assert before[|before| - 1] == previous;
      WalkLogAgrees(tenantId, before);
      ListGrowsAtTheEnd(previous.log, last.log, tenantId);
      ListIsFaithful(last.log, tenantId);
      NextPageStands(List(previous.log, tenantId), List(last.log, tenantId), Read(before),
                     previous.page.nextCursor, |before|, last.limit);
    }
  }

  lemma WalkLogAgrees(tenantId: Option<string>, walk: seq<Visit>)
    requires IsWalk(tenantId, walk)
    ensures Agrees(walk[|walk| - 1].log)
  {
  }

  /**
    A walk that reaches a page without a cursor has read, in order and exactly once, every
    receipt the tenant's list holds at that page, in no more pages than there are receipts.
   */
  lemma WalkReadsEverythingOnce(tenantId: Option<string>, walk: seq<Visit>)
    requires IsWalk(tenantId, walk) && walk[|walk| - 1].page.nextCursor.None?
    ensures Read(walk) == List(walk[|walk| - 1].log, tenantId)
    ensures UniqueIds(Read(walk))
    ensures |walk| <= Max(1, |Read(walk)|)
  {
    WalkStands(tenantId, walk);
    ListIsFaithful(walk[|walk| - 1].log, tenantId);
  }

  lemma WalkGoesOn(tenantId: Option<string>, start: Visit, next: Visit)
    requires Agrees(start.log) && NoEmptyId(List(start.log, tenantId)) && start.page == PageOf(List(start.log, tenantId), None, start.limit)
    requires Agrees(next.log) && NoEmptyId(List(next.log, tenantId)) && Extends(start.log, next.log) && start.page.nextCursor.Some?
    requires next.page == PageOf(List(next.log, tenantId), start.page.nextCursor, next.limit)
    ensures IsWalk(tenantId, [start, next])
  {
    hide Agrees, Extends, PageOf, List;
    assert [start, next][..1] == [start];
    assert IsWalk(tenantId, [start]);
  }

  lemma SecondOfThree(first: Receipt, second: Receipt, third: Receipt)
    requires first.id != second.id && first.id != "" && third.id != first.id
    ensures PageOf([first, second], None, Some(1)) == Page([first], Some(first.id))
    ensures PageOf([first, second, third], Some(first.id), Some(5)) == Page([second, third], None)
  {
    assert IndexOf([first, second, third], first.id) == 0;
  }

  /** A walk over a log that grows: two receipts when the first page is read, three at the second. */
  lemma TwoPageWalk(first: Receipt, second: Receipt, third: Receipt)
    requires first.id != "" && second.id != "" && third.id != ""
    requires first.id != second.id && third.id != first.id && third.id != second.id
    ensures var log := Appended(Appended(Log(map[], []), first), second);
            IsWalk(None, [Visit(log, Some(1), Page([first], Some(first.id))),
                          Visit(Appended(log, third), Some(5), Page([second, third], None))])
  {
    hide Agrees, Extends, PageOf, List, IsWalk;
    var one := Appended(Log(map[], []), first);
    var log := Appended(one, second);
    EmptyAgrees();
    ListAfterAppend(Log(map[], []), first);
    ListAfterAppend(one, second);
    ListAfterAppend(log, third);
    SecondOfThree(first, second, third);
    assert List(log, None) == [first, second] && List(Appended(log, third), None) == [first, second, third];
    WalkGoesOn(None, Visit(log, Some(1), Page([first], Some(first.id))),
               Visit(Appended(log, third), Some(5), Page([second, third], None)));
  }

  lemma EmptyAgrees()
    ensures Agrees(Log(map[], [])) && List(Log(map[], []), None) == []
  {
  }
}
