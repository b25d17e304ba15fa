/**
  Version comparison and selection.

  `number` is the source language's conversion of a component to a number; nothing is assumed
  of it. The order is only an order between versions none of whose components is NaN.
 */
module Versions {
  import opened Common
  import Splitting

  datatype Num = NaN | Val(r: real)
  datatype Mode = BackwardCompatible | ForwardCompatible | BreakingChange

  function Components(number: string -> Num, parts: seq<string>): (r: seq<Num>)
    ensures |r| == |parts|
    ensures forall i :: 0 <= i < |parts| ==> r[i] == number(parts[i])
  {
    if parts == [] then [] else [number(parts[0])] + Components(number, parts[1..])
  }

  function Parse(number: string -> Num, version: string): (r: seq<Num>)
    ensures r != []
  {
    Components(number, Splitting.Split(version, "."))
  }

  /** A missing component counts as zero. */
  function Part(parts: seq<Num>, i: nat): Num {
    if i < |parts| then parts[i] else Val(0.0)
  }

  /** Comparison with NaN is false. */
  predicate Above(a: Num, b: Num) {
    a.Val? && b.Val? && a.r > b.r
  }

  function CompareFrom(a: seq<Num>, b: seq<Num>, i: nat, n: nat): int
    requires i <= n
    decreases n - i
  {
    if i == n then 0
    else if Above(Part(a, i), Part(b, i)) then 1
    else if Above(Part(b, i), Part(a, i)) then -1
    else CompareFrom(a, b, i + 1, n)
  }

  function Compare(number: string -> Num, a: string, b: string): int {
    var partsA, partsB := Parse(number, a), Parse(number, b);
    CompareFrom(partsA, partsB, 0, Max(|partsA|, |partsB|))
  }

  predicate SameMajor(number: string -> Num, a: string, b: string) {
    Parse(number, a)[0].Val? && Parse(number, a)[0] == Parse(number, b)[0]
  }

  predicate Compatible(number: string -> Num, client: string, server: string, mode: Mode) {
    match mode
    case BackwardCompatible => SameMajor(number, client, server) && Compare(number, client, server) >= 0
    case ForwardCompatible => SameMajor(number, client, server) && Compare(number, client, server) <= 0
    case BreakingChange => client == server
  }

  /** The library sort with the comparator that puts greater versions first; it is stable. */
  function InsertDescending(number: string -> Num, v: string, vs: seq<string>): seq<string> {
    if vs == [] || Compare(number, vs[0], v) <= 0 then [v] + vs
    else [vs[0]] + InsertDescending(number, v, vs[1..])
  }

  function SortDescending(number: string -> Num, vs: seq<string>): seq<string> {
    if vs == [] then [] else InsertDescending(number, vs[0], SortDescending(number, vs[1..]))
  }

  // ---------- the order ----------

  predicate NoNaN(parts: seq<Num>) {
    forall i :: 0 <= i < |parts| ==> parts[i].Val?
  }

  predicate Numeric(number: string -> Num, version: string) {
    NoNaN(Parse(number, version))
  }

  /** Zero padding: comparing further than both versions reach changes nothing. */
  lemma {:induction false} CompareFurther(a: seq<Num>, b: seq<Num>, i: nat, n: nat, m: nat)
    requires i <= n <= m && |a| <= n && |b| <= n
    ensures CompareFrom(a, b, i, n) == CompareFrom(a, b, i, m)
    decreases m - i
  {
    if i < m && i < n {
      CompareFurther(a, b, i + 1, n, m);
    } else if i < m {
      CompareFurther(a, b, i + 1, i + 1, m);
    }
  }

  lemma {:induction false} CompareFlips(a: seq<Num>, b: seq<Num>, i: nat, n: nat)
    requires i <= n
    ensures CompareFrom(b, a, i, n) == -CompareFrom(a, b, i, n)
    decreases n - i
  {
    if i < n {
      CompareFlips(a, b, i + 1, n);
    }
  }

  lemma {:induction false} CompareChains(a: seq<Num>, b: seq<Num>, c: seq<Num>, i: nat, n: nat)
    requires i <= n && NoNaN(a) && NoNaN(b) && NoNaN(c)
    requires CompareFrom(a, b, i, n) <= 0 && CompareFrom(b, c, i, n) <= 0
    ensures CompareFrom(a, c, i, n) <= 0
    decreases n - i
  {
    if i < n && Part(a, i) == Part(b, i) == Part(c, i) {
      CompareChains(a, b, c, i + 1, n);
    }
  }

  /** Without NaN, comparison is a total preorder: either way round, and transitive. */
  lemma CompareIsAPreorder(number: string -> Num, a: string, b: string, c: string)
    requires Numeric(number, a) && Numeric(number, b) && Numeric(number, c)
    ensures Compare(number, b, a) == -Compare(number, a, b)
    ensures Compare(number, a, b) <= 0 && Compare(number, b, c) <= 0 ==> Compare(number, a, c) <= 0
  {
    var pa, pb, pc := Parse(number, a), Parse(number, b), Parse(number, c);
    var n := Max(Max(|pa|, |pb|), |pc|);
    CompareFlips(pa, pb, 0, Max(|pa|, |pb|));
    CompareFurther(pa, pb, 0, Max(|pa|, |pb|), n);
    CompareFurther(pb, pc, 0, Max(|pb|, |pc|), n);
    CompareFurther(pa, pc, 0, Max(|pa|, |pc|), n);
    if CompareFrom(pa, pb, 0, n) <= 0 && CompareFrom(pb, pc, 0, n) <= 0 {
      CompareChains(pa, pb, pc, 0, n);
    }
  }

  /** What comparison means: the first differing component decides, with zeros after the shorter version. */
  lemma {:induction false} FirstDifferenceDecides(a: seq<Num>, b: seq<Num>, i: nat, n: nat, k: nat)
    requires NoNaN(a) && NoNaN(b) && i <= k < n
    requires forall j: nat :: i <= j < k ==> Part(a, j) == Part(b, j)
    requires Part(a, k) != Part(b, k)
    ensures CompareFrom(a, b, i, n) == if Above(Part(a, k), Part(b, k)) then 1 else -1
    decreases k - i
  {
    if i < k {
      assert Part(a, i) == Part(b, i);
      FirstDifferenceDecides(a, b, i + 1, n, k);
    }
  }

  /** At the first component where they differ, `a` has the greater number; a missing component is zero. */
  ghost predicate Newer(a: seq<Num>, b: seq<Num>) {
    exists k: nat :: NewerAt(a, b, k)
  }

  function NumberAt(parts: seq<Num>, i: nat): real {
    if i < |parts| && parts[i].Val? then parts[i].r else 0.0
  }

  predicate NewerAt(a: seq<Num>, b: seq<Num>, k: nat) {
    NumberAt(a, k) > NumberAt(b, k) && forall j: nat :: j < k ==> NumberAt(a, j) == NumberAt(b, j)
  }

  lemma {:induction false} CompareFromMeans(a: seq<Num>, b: seq<Num>, i: nat, n: nat)
    requires NoNaN(a) && NoNaN(b) && i <= n && |a| <= n && |b| <= n
    requires forall j: nat :: j < i ==> NumberAt(a, j) == NumberAt(b, j)
    ensures CompareFrom(a, b, i, n) == 1 <==> Newer(a, b)
    ensures CompareFrom(a, b, i, n) == -1 <==> Newer(b, a)
    decreases n - i
  {
    if i == n {
      forall k: nat ensures NumberAt(a, k) == NumberAt(b, k) {}
    } else if NumberAt(a, i) == NumberAt(b, i) {
      CompareFromMeans(a, b, i + 1, n);
    } else if NumberAt(a, i) > NumberAt(b, i) {
      assert NewerAt(a, b, i);
      forall k: nat ensures !NewerAt(b, a, k) {}
    } else {
      assert NewerAt(b, a, i);
      forall k: nat ensures !NewerAt(a, b, k) {}
    }
  }

  /** What comparison means for versions of numbers: which of the two is newer. */
  lemma CompareMeans(number: string -> Num, a: string, b: string)
    requires Numeric(number, a) && Numeric(number, b)
    ensures Compare(number, a, b) == 1 <==> Newer(Parse(number, a), Parse(number, b))
    ensures Compare(number, a, b) == -1 <==> Newer(Parse(number, b), Parse(number, a))
  {
    var pa, pb := Parse(number, a), Parse(number, b);
    CompareFromMeans(pa, pb, 0, Max(|pa|, |pb|));
  }

  /**
    What the modes mean for versions of numbers: the same major version and, backward, a server
    that is not newer than the client; forward, a client that is not newer than the server.
   */
  lemma CompatibleMeans(number: string -> Num, client: string, server: string)
    requires Numeric(number, client) && Numeric(number, server)
    ensures var c, s := Parse(number, client), Parse(number, server);
            && (Compatible(number, client, server, BackwardCompatible) <==> c[0].r == s[0].r && !Newer(s, c))
            && (Compatible(number, client, server, ForwardCompatible) <==> c[0].r == s[0].r && !Newer(c, s))
            && (Compatible(number, client, server, BreakingChange) <==> client == server)
  {
    CompareMeans(number, client, server);
    CompareRange(Parse(number, client), Parse(number, server), 0, Max(|Parse(number, client)|, |Parse(number, server)|));
    hide CompareFrom, Newer;
  }

  lemma {:induction false} CompareRange(a: seq<Num>, b: seq<Num>, i: nat, n: nat)
    requires i <= n
    ensures -1 <= CompareFrom(a, b, i, n) <= 1
    decreases n - i
  {
    if i < n {
      CompareRange(a, b, i + 1, n);
    }
  }

  /** A version's components are what its parts between dots convert to. */
  lemma ParsesParts(number: string -> Num, parts: seq<string>)
    requires parts != [] && forall i :: 0 <= i < |parts| ==> '.' !in parts[i]
    ensures var r := Parse(number, Splitting.Join(parts, "."));
            |r| == |parts| && forall i :: 0 <= i < |parts| ==> r[i] == number(parts[i])
  {
    Splitting.SplitOfJoin(parts, '.');
  }

  /** A version that is not below another has a major that is not below it either. */
  lemma MajorFollowsOrder(number: string -> Num, a: string, b: string)
    requires Numeric(number, a) && Numeric(number, b) && Compare(number, a, b) >= 0
    ensures Parse(number, a)[0].r >= Parse(number, b)[0].r
  {
  }

  lemma GreaterMajorIsGreater(number: string -> Num, a: string, b: string)
    requires Numeric(number, a) && Numeric(number, b) && Parse(number, a)[0].r > Parse(number, b)[0].r
    ensures Compare(number, a, b) == 1
  {
  }

  /** A component that is not a number compares equal to every other, so the order is lost. */
  lemma NaNBreaksTransitivity(number: string -> Num, two: string, odd: string, one: string)
    requires Parse(number, two) == [Val(2.0)] && Parse(number, odd) == [NaN] && Parse(number, one) == [Val(1.0)]
    ensures Compare(number, two, odd) <= 0 && Compare(number, odd, one) <= 0 && Compare(number, two, one) > 0
  {
    assert CompareFrom([Val(2.0)], [NaN], 0, 1) == CompareFrom([Val(2.0)], [NaN], 1, 1) == 0;
    assert CompareFrom([NaN], [Val(1.0)], 0, 1) == CompareFrom([NaN], [Val(1.0)], 1, 1) == 0;
  }

  function CompareParts(a: seq<Num>, b: seq<Num>): int {
    CompareFrom(a, b, 0, Max(|a|, |b|))
  }

  /** `parts` with a number for each NaN. */
  function Filled(parts: seq<Num>, r: real): seq<Num> {
    seq(|parts|, i requires 0 <= i < |parts| => if parts[i].NaN? then Val(r) else parts[i])
  }

  lemma {:induction false} FilledIsEqual(parts: seq<Num>, r: real, i: nat)
    requires i <= |parts|
    ensures CompareFrom(Filled(parts, r), parts, i, |parts|) == 0 == CompareFrom(parts, Filled(parts, r), i, |parts|)
    decreases |parts| - i
  {
    if i < |parts| {
      FilledIsEqual(parts, r, i + 1);
    }
  }

  lemma {:induction false} FillingsDiffer(parts: seq<Num>, i: nat)
    requires exists k :: i <= k < |parts| && parts[k].NaN?
    ensures i <= |parts| && CompareFrom(Filled(parts, 2.0), Filled(parts, 1.0), i, |parts|) == 1
    decreases |parts| - i
  {
    if !parts[i].NaN? {
      FillingsDiffer(parts, i + 1);
    }
  }

  /** Versions of numbers are ordered transitively through a version exactly when it is one of numbers too. */
  lemma ChainsThroughIff(b: seq<Num>)
    ensures (forall a, c :: NoNaN(a) && NoNaN(c) && CompareParts(a, b) <= 0 && CompareParts(b, c) <= 0 ==> CompareParts(a, c) <= 0)
            <==> NoNaN(b)
  {
    if NoNaN(b) {
      forall a, c | NoNaN(a) && NoNaN(c) && CompareParts(a, b) <= 0 && CompareParts(b, c) <= 0
        ensures CompareParts(a, c) <= 0
      {
        var n := Max(Max(|a|, |b|), |c|);
        CompareFurther(a, b, 0, Max(|a|, |b|), n);
        CompareFurther(b, c, 0, Max(|b|, |c|), n);
        CompareFurther(a, c, 0, Max(|a|, |c|), n);
        CompareChains(a, b, c, 0, n);
      }
    } else {
      var a, c := Filled(b, 2.0), Filled(b, 1.0);
      FilledIsEqual(b, 2.0, 0);
      FilledIsEqual(b, 1.0, 0);
      FillingsDiffer(b, 0);
      assert NoNaN(a) && NoNaN(c) && CompareParts(a, b) == 0 && CompareParts(b, c) == 0 && CompareParts(a, c) == 1;
    }
  }

  // ---------- sorting ----------

  ghost predicate Descending(number: string -> Num, vs: seq<string>) {
    forall i, j :: 0 <= i < j < |vs| ==> Compare(number, vs[j], vs[i]) <= 0
  }

  ghost predicate AllNumeric(number: string -> Num, vs: seq<string>) {
    forall v :: v in vs ==> Numeric(number, v)
  }

  lemma {:induction false} InsertKeepsMembers(number: string -> Num, v: string, vs: seq<string>)
    ensures forall x :: x in InsertDescending(number, v, vs) <==> x == v || x in vs
  {
    if vs == [] || Compare(number, vs[0], v) <= 0 {
    } else {
      InsertKeepsMembers(number, v, vs[1..]);
      assert vs == [vs[0]] + vs[1..];
    }
  }

  lemma {:induction false} SortKeepsMembers(number: string -> Num, vs: seq<string>)
    ensures forall x :: x in SortDescending(number, vs) <==> x in vs
  {
    if vs != [] {
      SortKeepsMembers(number, vs[1..]);
      InsertKeepsMembers(number, vs[0], SortDescending(number, vs[1..]));
      assert vs == [vs[0]] + vs[1..];
    }
  }

  lemma {:induction false} InsertKeepsOrder(number: string -> Num, v: string, vs: seq<string>)
    requires Descending(number, vs) && AllNumeric(number, vs) && Numeric(number, v)
    ensures Descending(number, InsertDescending(number, v, vs))
  {
    var r := InsertDescending(number, v, vs);
    if vs == [] {
    } else if Compare(number, vs[0], v) <= 0 {
      forall j | 0 < j < |r| ensures Compare(number, r[j], v) <= 0 {
        assert vs[j - 1] in vs && vs[0] in vs;
        CompareIsAPreorder(number, vs[j - 1], vs[0], v);
        if j == 1 { CompareIsAPreorder(number, v, v, v); }
      }
    } else {
      var rest := vs[1..];
      InsertKeepsOrder(number, v, rest);
      InsertKeepsMembers(number, v, rest);
      assert vs[0] in vs;
      CompareIsAPreorder(number, vs[0], v, v);
      forall j | 0 < j < |r| ensures Compare(number, r[j], r[0]) <= 0 {
        assert r[j] in InsertDescending(number, v, rest);
        if r[j] != v {
          var k :| 0 <= k < |rest| && rest[k] == r[j];
          assert vs[k + 1] == r[j];
        }
      }
    }
  }

  lemma {:induction false} SortIsDescending(number: string -> Num, vs: seq<string>)
    requires AllNumeric(number, vs)
    ensures Descending(number, SortDescending(number, vs))
  {
    if vs != [] {
      var rest := vs[1..];
      assert vs == [vs[0]] + rest && vs[0] in vs;
      assert forall v :: v in rest ==> v in vs;
      SortIsDescending(number, rest);
      SortKeepsMembers(number, rest);
      InsertKeepsOrder(number, vs[0], SortDescending(number, rest));
    }
  }

  // ---------- selection ----------

  method CompareVersions(number: string -> Num, a: string, b: string) returns (c: int)
    ensures c == Compare(number, a, b) && -1 <= c <= 1
  {
    var partsA, partsB := Parse(number, a), Parse(number, b);
    var maxLen := Max(|partsA|, |partsB|);
    for i := 0 to maxLen
      invariant Compare(number, a, b) == CompareFrom(partsA, partsB, i, maxLen)
    {
      if Above(Part(partsA, i), Part(partsB, i)) {
        return 1;
      }
      if Above(Part(partsB, i), Part(partsA, i)) {
        return -1;
      }
    }
    c := 0;
  }

  ghost predicate SomePair(number: string -> Num, clients: seq<string>, servers: seq<string>, mode: Mode) {
    exists client, server :: client in clients && server in servers && Compatible(number, client, server, mode)
  }

  /** `best` is not below the server version of any compatible pair. */
  ghost predicate Best(number: string -> Num, clients: seq<string>, servers: seq<string>, mode: Mode, best: string) {
    forall client, server :: client in clients && server in servers && Compatible(number, client, server, mode) ==>
      Compare(number, server, best) <= 0
  }

  /** The nested search finds a compatible server version if there is one, and a greatest one over all pairs. */
  method SelectVersion(number: string -> Num, clients: seq<string>, servers: seq<string>, mode: Mode)
    returns (selected: Option<string>)
    requires mode != BreakingChange
    ensures selected.None? <==> !SomePair(number, clients, servers, mode)
    ensures selected.Some? ==> selected.value in servers
    ensures selected.Some? ==> exists client :: client in clients && Compatible(number, client, selected.value, mode)
    ensures selected.Some? && AllNumeric(number, clients) && AllNumeric(number, servers) ==>
              Best(number, clients, servers, mode, selected.value)
  {
    hide Compare, Compatible, SortDescending, Numeric, Descending;
    var sortedClients := SortDescending(number, clients);
    var sortedServers := SortDescending(number, servers);
    SortKeepsMembers(number, clients);
    SortKeepsMembers(number, servers);
    for i := 0 to |sortedClients|
      invariant forall k, l :: 0 <= k < i && 0 <= l < |sortedServers| ==>
                  !Compatible(number, sortedClients[k], sortedServers[l], mode)
    {
      for j := 0 to |sortedServers|
        invariant forall l :: 0 <= l < j ==> !Compatible(number, sortedClients[i], sortedServers[l], mode)
      {
        if Compatible(number, sortedClients[i], sortedServers[j], mode) {
          assert sortedClients[i] in sortedClients && sortedServers[j] in sortedServers;
          if AllNumeric(number, clients) && AllNumeric(number, servers) {
            SortIsDescending(number, clients);
            SortIsDescending(number, servers);
            FirstPairIsBest(number, sortedClients, sortedServers, mode, i, j);
          }
          return Some(sortedServers[j]);
        }
      }
    }
    selected := None;
  }

  /** The greedy choice is globally best: a later client can only reach lower majors, or the same servers. */
  lemma FirstPairIsBest(number: string -> Num, clients: seq<string>, servers: seq<string>, mode: Mode, i: nat, j: nat)
    requires mode != BreakingChange
    requires AllNumeric(number, clients) && AllNumeric(number, servers)
    requires Descending(number, clients) && Descending(number, servers)
    requires i < |clients| && j < |servers| && Compatible(number, clients[i], servers[j], mode)
    requires forall k, l :: 0 <= k < i && 0 <= l < |servers| ==> !Compatible(number, clients[k], servers[l], mode)
    requires forall l :: 0 <= l < j ==> !Compatible(number, clients[i], servers[l], mode)
    ensures Best(number, clients, servers, mode, servers[j])
  {
    forall client, server | client in clients && server in servers && Compatible(number, client, server, mode)
      ensures Compare(number, server, servers[j]) <= 0
    {
      var k :| 0 <= k < |clients| && clients[k] == client;
      var l :| 0 <= l < |servers| && servers[l] == server;
      PairIsNotBetter(number, clients, servers, mode, i, j, k, l);
    }
  }

  lemma PairIsNotBetter(number: string -> Num, clients: seq<string>, servers: seq<string>, mode: Mode,
                        i: nat, j: nat, k: nat, l: nat)
    requires mode != BreakingChange
    requires AllNumeric(number, clients) && AllNumeric(number, servers)
    requires Descending(number, clients) && Descending(number, servers)
    requires i < |clients| && j < |servers| && Compatible(number, clients[i], servers[j], mode)
    requires forall l :: 0 <= l < j ==> !Compatible(number, clients[i], servers[l], mode)
    requires i <= k < |clients| && l < |servers| && Compatible(number, clients[k], servers[l], mode)
    ensures Compare(number, servers[l], servers[j]) <= 0
  {
    var c, s, d, t := clients[i], servers[j], clients[k], servers[l];
    assert c in clients && d in clients && s in servers && t in servers;
    CompareIsAPreorder(number, t, s, s);
    CompareIsAPreorder(number, d, c, c);
    CompareIsAPreorder(number, c, c, c);
    CompareIsAPreorder(number, s, s, s);
    assert Compare(number, d, c) <= 0;
    if j <= l {
      assert l == j || Compare(number, t, s) <= 0;
    } else {
      assert !Compatible(number, c, t, mode);
      MajorFollowsOrder(number, c, d);
      if Parse(number, c)[0] != Parse(number, d)[0] {
        GreaterMajorIsGreater(number, s, t);
      } else if mode == BackwardCompatible {
        CompareIsAPreorder(number, t, d, c);
        CompareIsAPreorder(number, d, t, t);
        CompareIsAPreorder(number, c, t, t);
      } else {
        CompareIsAPreorder(number, c, t, t);
        CompareIsAPreorder(number, t, c, s);
      }
    }
  }
}
