/**
  One-time use of delegation tokens.

  The map of seen uses forgets an entry once the token has expired, because the expiry check
  then rejects the token anyway. The two look at the clock separately, and that matters. The map
  knows a use by the text of its signature, but verification compares decoded bytes; that
  matters too.
 */
module TokenReplay {
  import opened Common
  import opened Jcs
  import JcsProofs
  import opened JsonReader
  import Signing
  import Splitting

  /** `payload` is the object the signature covers; the expiry is one of its fields. */
  datatype Token = Token(signature: Text, payload: Json)

  /** The signature check, and Date.parse with NaN as None. */
  datatype Rules = Rules(verify: Token -> bool, parseDate: Text -> Option<int>)

  /** "constraints" and "expires_at" */
  const CONSTRAINTS: Text := [99, 111, 110, 115, 116, 114, 97, 105, 110, 116, 115]
  const EXPIRES_AT: Text := [101, 120, 112, 105, 114, 101, 115, 95, 97, 116]

  function Find(members: seq<Member>, key: Text): Option<Json> {
    if members == [] then None
    else if members[0].key == key then Some(members[0].value)
    else Find(members[1..], key)
  }

  function Field(v: Json, key: Text): Option<Json> {
    if v.Obj? then Find(v.members, key) else None
  }

  function ExpiresAt(rules: Rules, token: Token): Option<int> {
    var constraints := Field(token.payload, CONSTRAINTS);
    var expiry := if constraints.Some? then Field(constraints.value, EXPIRES_AT) else None;
    if expiry.Some? && expiry.value.Str? then rules.parseDate(expiry.value.s) else None
  }

  /**
    One call of assertAuthorized. `wellFormed`: the schema and subject checks pass. `bound`: the
    capability, scope, requester and tenant checks that come after the replay check pass.
    `now` and `cleanupNow` are the two readings of the clock, in that order.
   */
  datatype Call = Call(token: Token, taskId: Text, wellFormed: bool, bound: bool, now: int, cleanupNow: int)

  datatype Outcome = Authorized | RejectedAfterUse | Replay | Expired | Refused

  function ReplayKey(call: Call): Text {
    call.token.signature + [COLON] + call.taskId
  }

  function Cleaned(seen: map<Text, int>, now: int): map<Text, int> {
    map key | key in seen && seen[key] > now :: seen[key]
  }

  datatype Checked = Checked(seen: map<Text, int>, outcome: Outcome)

  /** The use is recorded before the binding checks, so a call that fails those has still used the pair. */
  function Check(rules: Rules, seen: map<Text, int>, call: Call): Checked {
    var expiresAt := ExpiresAt(rules, call.token);
    if !call.wellFormed || !rules.verify(call.token) then Checked(seen, Refused)
    else if expiresAt.None? || expiresAt.value <= call.now then Checked(seen, Expired)
    else
      var kept := Cleaned(seen, call.cleanupNow);
      if ReplayKey(call) in kept then Checked(kept, Replay)
      else Checked(kept[ReplayKey(call) := expiresAt.value], if call.bound then Authorized else RejectedAfterUse)
  }

  /** The shared static map and the code that reads and writes it. */
  class SeenTokenUses {
    var seen: map<Text, int>

    constructor ()
      ensures seen == map[]
    {
      seen := map[];
    }

    method Cleanup(now: int)
      modifies this
      ensures seen == Cleaned(old(seen), now)
    {
      var unseen := seen.Keys;
      ghost var before := seen;
      while unseen != {}
        invariant unseen <= before.Keys
        invariant seen == map key | key in before && (key in unseen || before[key] > now) :: before[key]
        decreases unseen
      {
        var tokenUse :| tokenUse in unseen;
        if seen[tokenUse] <= now {
          seen := seen - {tokenUse};
        }
        unseen := unseen - {tokenUse};
      }
    }

    method AssertAuthorized(rules: Rules, call: Call) returns (outcome: Outcome)
      modifies this
      ensures Checked(seen, outcome) == Check(rules, old(seen), call)
    {
      if !call.wellFormed || !rules.verify(call.token) {
        return Refused;
      }
      var expiresAt := ExpiresAt(rules, call.token);
      if expiresAt.None? || expiresAt.value <= call.now {
        return Expired;
      }
      Cleanup(call.cleanupNow);
      if ReplayKey(call) in seen {
        return Replay;
      }
      seen := seen[ReplayKey(call) := expiresAt.value];
      outcome := if call.bound then Authorized else RejectedAfterUse;
    }
  }

  // ---------- runs ----------

  /** The map after the first `n` calls. */
  function SeenAfter(rules: Rules, calls: seq<Call>, n: nat): map<Text, int>
    requires n <= |calls|
  {
    if n == 0 then map[] else Check(rules, SeenAfter(rules, calls, n - 1), calls[n - 1]).seen
  }

  function OutcomeAt(rules: Rules, calls: seq<Call>, i: nat): Outcome
    requires i < |calls|
  {
    Check(rules, SeenAfter(rules, calls, i), calls[i]).outcome
  }

  /** The call got past the replay check. */
  predicate PassesAt(rules: Rules, calls: seq<Call>, i: nat)
    requires i < |calls|
  {
    OutcomeAt(rules, calls, i) == Authorized || OutcomeAt(rules, calls, i) == RejectedAfterUse
  }

  predicate SamePair(a: Call, b: Call) {
    a.token.signature == b.token.signature && a.taskId == b.taskId
  }

  ghost predicate ClockRises(calls: seq<Call>) {
    && (forall i :: 0 <= i < |calls| ==> calls[i].now <= calls[i].cleanupNow)
    && (forall i, j :: 0 <= i < j < |calls| ==> calls[i].cleanupNow <= calls[j].now)
  }

  /** The token expires between the call's two clock readings. */
  predicate Straddles(rules: Rules, call: Call) {
    var expiresAt := ExpiresAt(rules, call.token);
    expiresAt.Some? && call.now < expiresAt.value <= call.cleanupNow
  }

  // ---------- the signature binds the expiry ----------

  ghost predicate Binding(rules: Rules) {
    forall t, u :: rules.verify(t) && rules.verify(u) && t.signature == u.signature ==>
      ExpiresAt(rules, t) == ExpiresAt(rules, u)
  }

  lemma {:induction false} FindsMember(members: seq<Member>, key: Text)
    ensures Find(members, key).Some? <==> HasKey(members, key)
    ensures Find(members, key).Some? ==>
              exists i :: 0 <= i < |members| && members[i].key == key && members[i].value == Find(members, key).value
  {
    if members != [] {
      FindsMember(members[1..], key);
      if members[0].key == key {
        assert members[0].value == Find(members, key).value;
      } else {
        assert forall i :: 0 < i < |members| ==> members[i] == members[1..][i - 1];
        if Find(members[1..], key).Some? {
          var i :| 0 <= i < |members[1..]| && members[1..][i].key == key && members[1..][i].value == Find(members[1..], key).value;
          assert members[i + 1].key == key;
        }
        if HasKey(members, key) {
          var i :| 0 <= i < |members| && members[i].key == key;
          assert members[1..][i - 1].key == key;
        }
      }
    }
  }

  lemma EqualValuesEqualFields(v: Json, w: Json, key: Text)
    requires JsonEqual(v, w)
    ensures Field(v, key).Some? <==> Field(w, key).Some?
    ensures Field(v, key).Some? ==> JsonEqual(Field(v, key).value, Field(w, key).value)
  {
    if v.Obj? {
      FindsMember(v.members, key);
      FindsMember(w.members, key);
    }
  }

  /** The signature check of a delegation token: its payload under the token scope. */
  function TokenCheck(c: Signing.Crypto, keys: seq<Signing.Key>): Token -> bool {
    (t: Token) => WellFormed(t.payload) && Signing.Verify(c, keys, t.signature, t.payload, Some("delegation_token"))
  }

  /** A token verifies exactly when its signature is one of its payload, under a key for delegation tokens. */
  lemma TokenVerifiesIff(c: Signing.Crypto, keys: seq<Signing.Key>, t: Token)
    ensures TokenCheck(c, keys)(t) <==>
            && WellFormed(t.payload)
            && exists input, signature :: t.signature == Signing.Compact(input, signature)
                 && Signing.VerifiesAs(c, keys, input, signature, Serialize(t.payload), Some("delegation_token"))
  {
    Signing.VerifiesIff(c, keys, t.signature, Serialize(t.payload), Some("delegation_token"));
  }

  /** Two tokens that verify with the same signature expire at the same time. */
  lemma VerifiedTokensBind(c: Signing.Crypto, keys: seq<Signing.Key>, parseDate: Text -> Option<int>)
    requires Signing.Sound(c)
    ensures Binding(Rules(TokenCheck(c, keys), parseDate))
  {
    var rules := Rules(TokenCheck(c, keys), parseDate);
    forall t, u | rules.verify(t) && rules.verify(u) && t.signature == u.signature
      ensures ExpiresAt(rules, t) == ExpiresAt(rules, u)
    {
      var scope := Some("delegation_token");
      Signing.SignatureBindsPayload(c, keys, keys, t.signature, t.payload, u.payload, scope, scope);
      SameGrantSameExpiry(rules, t, u);
    }
  }

  // ---------- what the map remembers ----------

  /** Call `i` passed; its entry is still there, or its token has expired at every later time. */
  ghost predicate Remembered(rules: Rules, calls: seq<Call>, i: nat, n: nat)
    requires i < n <= |calls| && ExpiresAt(rules, calls[i].token).Some?
  {
    var key, seen, expiry := ReplayKey(calls[i]), SeenAfter(rules, calls, n), ExpiresAt(rules, calls[i].token).value;
    (key in seen && seen[key] == expiry) || expiry <= calls[n - 1].cleanupNow
  }

  lemma {:induction false} PassIsRemembered(rules: Rules, calls: seq<Call>, i: nat, n: nat)
    requires i < n <= |calls| && ClockRises(calls) && PassesAt(rules, calls, i)
    ensures ExpiresAt(rules, calls[i].token).Some? && Remembered(rules, calls, i, n)
    decreases n
  {
    if n > i + 1 {
      PassIsRemembered(rules, calls, i, n - 1);
      assert calls[n - 2].cleanupNow <= calls[n - 1].now <= calls[n - 1].cleanupNow;
    }
  }

  // ---------- exactly which calls pass ----------

  /** The call gets as far as the replay check. */
  predicate Presentable(rules: Rules, call: Call) {
    call.wellFormed && rules.verify(call.token) && ExpiresAfter(rules, call.token, call.now)
  }

  predicate ExpiresAfter(rules: Rules, token: Token, time: int) {
    var expiresAt := ExpiresAt(rules, token);
    expiresAt.Some? && expiresAt.value > time
  }

  /** An earlier call that passed under the same key has a token that is still valid when call `j` cleans up. */
  ghost predicate Blocks(rules: Rules, calls: seq<Call>, k: nat, j: nat)
    requires k < j < |calls|
  {
    PassesAt(rules, calls, k) && ReplayKey(calls[k]) == ReplayKey(calls[j])
      && ExpiresAfter(rules, calls[k].token, calls[j].cleanupNow)
  }

  ghost predicate LeftBy(rules: Rules, calls: seq<Call>, n: nat, key: Text, expiry: int) {
    exists k: nat :: k < n <= |calls| && PassesAt(rules, calls, k) && ReplayKey(calls[k]) == key
      && ExpiresAt(rules, calls[k].token) == Some(expiry)
  }

  /** Every entry was left by an earlier call that passed. */
  lemma {:induction false} EntriesHaveAuthors(rules: Rules, calls: seq<Call>, n: nat, key: Text)
    requires n <= |calls| && key in SeenAfter(rules, calls, n)
    ensures LeftBy(rules, calls, n, key, SeenAfter(rules, calls, n)[key])
  {
    var before := SeenAfter(rules, calls, n - 1);
    if key in before && SeenAfter(rules, calls, n)[key] == before[key] {
      EntriesHaveAuthors(rules, calls, n - 1, key);
      var k: nat :| k < n - 1 <= |calls| && PassesAt(rules, calls, k) && ReplayKey(calls[k]) == key
        && ExpiresAt(rules, calls[k].token) == Some(before[key]);
      assert LeftBy(rules, calls, n, key, before[key]);
    } else {
      assert PassesAt(rules, calls, n - 1) && ReplayKey(calls[n - 1]) == key;
    }
  }

  /**
    In any run, a call passes the replay check exactly when it gets there and no earlier use under
    the same key is still valid: none that is spelled the same and has not expired.
   */
  lemma PassesIff(rules: Rules, calls: seq<Call>, j: nat)
    requires j < |calls| && ClockRises(calls)
    ensures PassesAt(rules, calls, j) <==>
            Presentable(rules, calls[j]) && forall k: nat :: k < j ==> !Blocks(rules, calls, k, j)
  {
    hide PassesAt, Presentable, Blocked, Blocks;
    BlockedIff(rules, calls, j);
    PassesUnlessBlocked(rules, calls, j);
  }

  /** The call finds its key in the map after cleaning up. */
  predicate Blocked(rules: Rules, calls: seq<Call>, j: nat)
    requires j < |calls|
  {
    var seen, key := SeenAfter(rules, calls, j), ReplayKey(calls[j]);
    key in seen && seen[key] > calls[j].cleanupNow
  }

  lemma PassesUnlessBlocked(rules: Rules, calls: seq<Call>, j: nat)
    requires j < |calls|
    ensures PassesAt(rules, calls, j) <==> Presentable(rules, calls[j]) && !Blocked(rules, calls, j)
  {
  }

  lemma BlockedIff(rules: Rules, calls: seq<Call>, j: nat)
    requires j < |calls| && ClockRises(calls)
    ensures Blocked(rules, calls, j) <==> exists k: nat :: k < j && Blocks(rules, calls, k, j)
  {
    hide PassesAt, SeenAfter, ExpiresAt;
    if k: nat :| k < j && Blocks(rules, calls, k, j) {
      PassIsRemembered(rules, calls, k, j);
      assert calls[j - 1].cleanupNow <= calls[j].now;
    }
    if Blocked(rules, calls, j) {
      var seen, key := SeenAfter(rules, calls, j), ReplayKey(calls[j]);
      EntriesHaveAuthors(rules, calls, j, key);
      var k: nat :| k < j && PassesAt(rules, calls, k) && ReplayKey(calls[k]) == key
        && ExpiresAt(rules, calls[k].token) == Some(seen[key]);
      assert Blocks(rules, calls, k, j);
    }
  }

  /** An earlier use under the same key is still valid when call `j` cleans up. */
  ghost predicate UsedBefore(rules: Rules, calls: seq<Call>, j: nat)
    requires j < |calls|
  {
    exists k: nat :: k < j && Blocks(rules, calls, k, j)
  }

  /**
    What each call of a run comes to. A call is authorized exactly when it is well-formed, its
    token verifies and has not expired, no earlier use under its key is still valid, and its
    capability, scope, requester and tenant are the token's; each other outcome names the first
    of these to fail.
   */
  lemma OutcomesIff(rules: Rules, calls: seq<Call>, j: nat)
    requires j < |calls| && ClockRises(calls)
    ensures var call, outcome := calls[j], OutcomeAt(rules, calls, j);
            var genuine := call.wellFormed && rules.verify(call.token);
            var valid := genuine && ExpiresAfter(rules, call.token, call.now);
            var used := UsedBefore(rules, calls, j);
            && (outcome == Refused <==> !genuine)
            && (outcome == Expired <==> genuine && !valid)
            && (outcome == Replay <==> valid && used)
            && (outcome == RejectedAfterUse <==> valid && !used && !call.bound)
            && (outcome == Authorized <==> valid && !used && call.bound)
  {
    hide Blocks, SeenAfter;
    BlockedIff(rules, calls, j);
  }

  // ---------- keys ----------

  /** Different pairs of signature and task have different keys, if no signature contains a colon. */
  lemma KeysNamePairs(a: Call, b: Call)
    requires COLON !in a.token.signature && COLON !in b.token.signature
    ensures ReplayKey(a) == ReplayKey(b) <==> SamePair(a, b)
  {
    if ReplayKey(a) == ReplayKey(b) {
      var key, m, n := ReplayKey(a), |a.token.signature|, |b.token.signature|;
      assert key[m] == COLON && key[n] == COLON;
      assert forall i :: 0 <= i < m ==> key[i] == a.token.signature[i] && a.token.signature[i] in a.token.signature;
      assert forall i :: 0 <= i < n ==> key[i] == b.token.signature[i] && b.token.signature[i] in b.token.signature;
      assert m == n;
      assert a.token.signature == key[..m] && a.taskId == key[m + 1..] && b.taskId == key[m + 1..];
    }
  }

  /** One token serves any number of tasks: using it for one does not use it for another. */
  lemma OtherTaskPasses(rules: Rules, token: Token, taskId: Text, other: Text, time: int)
    requires rules.verify(token) && ExpiresAfter(rules, token, time) && taskId != other
    ensures var calls := [Call(token, taskId, true, true, time, time), Call(token, other, true, true, time, time)];
            OutcomeAt(rules, calls, 0) == Authorized && OutcomeAt(rules, calls, 1) == Authorized
  {
    var calls := [Call(token, taskId, true, true, time, time), Call(token, other, true, true, time, time)];
    assert SeenAfter(rules, calls, 0) == map[];
    assert SeenAfter(rules, calls, 1).Keys == {ReplayKey(calls[0])};
    var n := |token.signature| + 1;
    assert ReplayKey(calls[0])[n..] == taskId && ReplayKey(calls[1])[n..] == other;
  }

  lemma FieldNames()
    ensures Spells(CONSTRAINTS, "constraints") && Spells(EXPIRES_AT, "expires_at")
  {
    var a, b := "constraints", "expires_at";
    assert a[0] == 'c' && a[1] == 'o' && a[2] == 'n' && a[3] == 's' && a[4] == 't' && a[5] == 'r';
    assert a[6] == 'a' && a[7] == 'i' && a[8] == 'n' && a[9] == 't' && a[10] == 's' && |a| == 11;
    assert b[0] == 'e' && b[1] == 'x' && b[2] == 'p' && b[3] == 'i' && b[4] == 'r' && b[5] == 'e';
    assert b[6] == 's' && b[7] == '_' && b[8] == 'a' && b[9] == 't' && |b| == 10;
  }

  // ---------- the same signature twice ----------

  /**
    A pair of signature and task id that has passed passes again exactly when its token is in
    order and expires between the two clock readings.
   */
  lemma SecondPassIff(rules: Rules, calls: seq<Call>, i: nat, j: nat)
    requires i < j < |calls| && ClockRises(calls) && Binding(rules)
    requires SamePair(calls[i], calls[j]) && PassesAt(rules, calls, i)
    ensures PassesAt(rules, calls, j) <==>
            calls[j].wellFormed && rules.verify(calls[j].token) && Straddles(rules, calls[j])
  {
    hide PassesAt;
    PassesIff(rules, calls, i);
    PassesIff(rules, calls, j);
    if rules.verify(calls[j].token) {
      assert ExpiresAt(rules, calls[i].token) == ExpiresAt(rules, calls[j].token);
      if Straddles(rules, calls[j]) {
        forall k: nat | k < j ensures !Blocks(rules, calls, k, j) {
          NoOtherBlocks(rules, calls, i, k, j);
        }
      } else {
        assert Presentable(rules, calls[j]) ==> Blocks(rules, calls, i, j);
      }
    }
  }

  /** A use under the key of call `i` was over before call `i`, or came when the token of call `i` had expired. */
  lemma NoOtherBlocks(rules: Rules, calls: seq<Call>, i: nat, k: nat, j: nat)
    requires i < j < |calls| && k < j && ClockRises(calls) && PassesAt(rules, calls, i)
    requires ReplayKey(calls[i]) == ReplayKey(calls[j])
    requires ExpiresAt(rules, calls[i].token) == ExpiresAt(rules, calls[j].token) && Straddles(rules, calls[j])
    ensures !Blocks(rules, calls, k, j)
  {
    hide PassesAt;
    PassesIff(rules, calls, i);
    PassesIff(rules, calls, k);
    assert calls[i].cleanupNow <= calls[j].now && calls[k].cleanupNow <= calls[j].now;
    assert k < i ==> !Blocks(rules, calls, k, i);
    assert i < k && PassesAt(rules, calls, k) ==> !Blocks(rules, calls, i, k);
  }

  ghost predicate NoneStraddles(rules: Rules, calls: seq<Call>) {
    forall k :: 0 <= k < |calls| ==> !Straddles(rules, calls[k])
  }

  /** If no call straddles its token's expiry, each pair of signature and task id passes at most once in any run. */
  lemma EachPairPassesOnce(rules: Rules, calls: seq<Call>, i: nat, j: nat)
    requires i < j < |calls| && ClockRises(calls) && Binding(rules) && NoneStraddles(rules, calls)
    requires SamePair(calls[i], calls[j])
    ensures !(PassesAt(rules, calls, i) && PassesAt(rules, calls, j))
  {
    if PassesAt(rules, calls, i) && PassesAt(rules, calls, j) {
      SecondPassIff(rules, calls, i, j);
    }
  }

  /** Any token that verifies and expires is let through twice if the second call reads the clock just before and at its expiry. */
  lemma StraddlingCallReplays(rules: Rules, token: Token, taskId: Text, expiry: int)
    requires rules.verify(token) && ExpiresAt(rules, token) == Some(expiry)
    ensures var calls := [Call(token, taskId, true, true, expiry - 2, expiry - 2),
                          Call(token, taskId, true, true, expiry - 1, expiry)];
            OutcomeAt(rules, calls, 0) == Authorized && OutcomeAt(rules, calls, 1) == Authorized
  {
    var calls := [Call(token, taskId, true, true, expiry - 2, expiry - 2),
                  Call(token, taskId, true, true, expiry - 1, expiry)];
    assert SeenAfter(rules, calls, 0) == map[];
    assert SeenAfter(rules, calls, 1) == map[ReplayKey(calls[0]) := expiry];
    assert Cleaned(SeenAfter(rules, calls, 1), expiry) == map[];
  }

  // ---------- the same token in another spelling ----------

  /** The encoded header: with the payload, all that a signature is computed from. */
  function EncodedHeader(signature: Text): Text {
    Splitting.Split(signature, [Signing.DOT])[0]
  }

  /** The same header over the same JSON value: the same grant, however its signature is spelled. */
  ghost predicate SameGrant(t: Token, u: Token) {
    JsonEqual(t.payload, u.payload) && EncodedHeader(t.signature) == EncodedHeader(u.signature)
  }

  ghost predicate SameUse(a: Call, b: Call) {
    a.taskId == b.taskId && SameGrant(a.token, b.token)
  }

  /** No grant that expires verifies with two spellings of its signature. */
  ghost predicate OneSpelling(rules: Rules) {
    forall t, u :: rules.verify(t) && rules.verify(u) && SameGrant(t, u) && ExpiresAt(rules, t).Some? ==>
      t.signature == u.signature
  }

  /** In no run in which no call straddles does a grant pass twice for one task. */
  ghost predicate GrantsPassOnce(rules: Rules) {
    forall calls: seq<Call>, i: nat, j: nat ::
      i < j < |calls| && ClockRises(calls) && NoneStraddles(rules, calls)
      && SameUse(calls[i], calls[j]) ==>
        !(PassesAt(rules, calls, i) && PassesAt(rules, calls, j))
  }

  lemma SameGrantSameExpiry(rules: Rules, t: Token, u: Token)
    requires SameGrant(t, u) || JsonEqual(t.payload, u.payload)
    ensures ExpiresAt(rules, t) == ExpiresAt(rules, u)
  {
    EqualValuesEqualFields(t.payload, u.payload, CONSTRAINTS);
    if Field(t.payload, CONSTRAINTS).Some? {
      EqualValuesEqualFields(Field(t.payload, CONSTRAINTS).value, Field(u.payload, CONSTRAINTS).value, EXPIRES_AT);
    }
  }

  /** One-time use holds for grants, over all runs, exactly when each has one spelling that verifies. */
  lemma GrantsPassOnceIff(rules: Rules)
    ensures GrantsPassOnce(rules) <==> OneSpelling(rules)
  {
    hide PassesAt, OneSpelling, SameGrant, ClockRises, NoneStraddles;
    if OneSpelling(rules) {
      forall calls: seq<Call>, i: nat, j: nat |
        i < j < |calls| && ClockRises(calls) && NoneStraddles(rules, calls) && SameUse(calls[i], calls[j])
        ensures !(PassesAt(rules, calls, i) && PassesAt(rules, calls, j))
      {
        OneSpellingPassesOnce(rules, calls, i, j);
      }
    } else {
      TwoSpellingsBreakIt(rules);
    }
  }

  lemma TwoSpellingsBreakIt(rules: Rules)
    requires !OneSpelling(rules)
    ensures !GrantsPassOnce(rules)
  {
    hide SameGrant, ClockRises, NoneStraddles, OutcomeAt;
    var t, u :| rules.verify(t) && rules.verify(u) && SameGrant(t, u) && ExpiresAt(rules, t).Some?
      && t.signature != u.signature;
    var time := ExpiresAt(rules, t).value - 1;
    SameGrantSameExpiry(rules, t, u);
    TwoSpellingsPass(rules, t, u, [], time);
    var calls := [Call(t, [], true, true, time, time), Call(u, [], true, true, time, time)];
    assert SameUse(calls[0], calls[1]) && PassesAt(rules, calls, 0) && PassesAt(rules, calls, 1);
  }

  lemma OneSpellingPassesOnce(rules: Rules, calls: seq<Call>, i: nat, j: nat)
    requires OneSpelling(rules) && i < j < |calls| && ClockRises(calls) && NoneStraddles(rules, calls)
    requires SameUse(calls[i], calls[j])
    ensures !(PassesAt(rules, calls, i) && PassesAt(rules, calls, j))
  {
    hide PassesAt;
    PassesIff(rules, calls, i);
    PassesIff(rules, calls, j);
    SameGrantSameExpiry(rules, calls[i].token, calls[j].token);
    assert !Straddles(rules, calls[j]);
    if PassesAt(rules, calls, i) && Presentable(rules, calls[j]) {
      assert Blocks(rules, calls, i, j);
    }
  }

  /** Two spellings of one task's token pass, with no clock reading near the expiry. */
  lemma TwoSpellingsPass(rules: Rules, t: Token, u: Token, taskId: Text, time: int)
    requires rules.verify(t) && rules.verify(u) && t.signature != u.signature
    requires ExpiresAfter(rules, t, time) && ExpiresAfter(rules, u, time)
    ensures var calls := [Call(t, taskId, true, true, time, time), Call(u, taskId, true, true, time, time)];
            && ClockRises(calls) && NoneStraddles(rules, calls)
            && OutcomeAt(rules, calls, 0) == Authorized && OutcomeAt(rules, calls, 1) == Authorized
  {
    var calls := [Call(t, taskId, true, true, time, time), Call(u, taskId, true, true, time, time)];
    assert SeenAfter(rules, calls, 0) == map[];
    assert SeenAfter(rules, calls, 1).Keys == {ReplayKey(calls[0])};
    if ReplayKey(calls[0]) == ReplayKey(calls[1]) {
      SameTaskSameSignature(t.signature, u.signature, taskId);
    }
  }

  lemma SameTaskSameSignature(a: Text, b: Text, taskId: Text)
    requires a + [COLON] + taskId == b + [COLON] + taskId
    ensures a == b
  {
    assert |a| == |b|;
    assert a == (a + [COLON] + taskId)[..|a|] && b == (b + [COLON] + taskId)[..|b|];
  }

  /** A token that verifies and is valid at `time`, and another spelling of its signature that the key accepts. */
  predicate Respelled(c: Signing.Crypto, keys: seq<Signing.Key>, parseDate: Text -> Option<int>,
                      input: Signing.Input, a: Text, b: Text, payload: Json, time: int) {
    var t, rules := Token(Signing.Compact(input, a), payload), Rules(TokenCheck(c, keys), parseDate);
    && Signing.DOT !in input.header && Signing.DOT !in input.payload && Signing.DOT !in a && Signing.DOT !in b && a != b
    && rules.verify(t) && ExpiresAfter(rules, t, time)
    && Signing.AcceptedUnder(c, keys, input, b)
  }

  /**
    One-time use fails for every token whose signature has a second accepted spelling: a token
    that verifies goes through again for the same task in any other spelling of the last part of
    its signature whose bytes are accepted, and no clock reading is near its expiry.
   */
  lemma RespelledTokenReplays(c: Signing.Crypto, keys: seq<Signing.Key>, parseDate: Text -> Option<int>,
                              input: Signing.Input, a: Text, b: Text, payload: Json, taskId: Text, time: int)
    requires Respelled(c, keys, parseDate, input, a, b, payload, time)
    ensures var t, u := Token(Signing.Compact(input, a), payload), Token(Signing.Compact(input, b), payload);
            var rules := Rules(TokenCheck(c, keys), parseDate);
            var calls := [Call(t, taskId, true, true, time, time), Call(u, taskId, true, true, time, time)];
            && ClockRises(calls) && NoneStraddles(rules, calls)
            && OutcomeAt(rules, calls, 0) == Authorized && OutcomeAt(rules, calls, 1) == Authorized
  {
    var rules := Rules(TokenCheck(c, keys), parseDate);
    var t, u := Token(Signing.Compact(input, a), payload), Token(Signing.Compact(input, b), payload);
    Signing.SpellingVerifiesIff(c, keys, input, a, b, Serialize(payload), Some("delegation_token"));
    Signing.SpellingsDiffer(input, a, b);
    TwoSpellingsPass(rules, t, u, taskId, time);
  }

  /** With shared secrets, and a comparison of signatures that is equality of texts, each grant has one spelling. */
  lemma ExactComparisonMeansOneSpelling(c: Signing.Crypto, keys: seq<Signing.Key>, parseDate: Text -> Option<int>)
    requires forall i :: 0 <= i < |keys| ==> keys[i].material.Hmac?
    requires forall a, b :: c.sameBytes(a, b) <==> a == b
    ensures OneSpelling(Rules(TokenCheck(c, keys), parseDate))
  {
    var rules := Rules(TokenCheck(c, keys), parseDate);
    forall t, u | rules.verify(t) && rules.verify(u) && SameGrant(t, u) ensures t.signature == u.signature {
      JcsProofs.SerializeIsCanonical(t.payload, u.payload);
      Signing.ExactSignatureIsUnique(c, keys, t.signature, u.signature, Serialize(t.payload), Some("delegation_token"));
    }
  }

  // ---------- such tokens exist ----------

  const EQUALS: CodeUnit := 61

  /** A text without one trailing equals sign, which decoding ignores. */
  function Unpadded(t: Text): Text {
    if t != [] && t[|t| - 1] == EQUALS then t[..|t| - 1] else t
  }

  /** Library functions of which all the assumed facts hold, and a token with two spellings under them. */
  lemma RespelledTokenExists(kid: Text, secret: Text)
    ensures exists c, keys, parseDate, input, a, b, payload, time ::
              Signing.Sound(c) && Respelled(c, keys, parseDate, input, a, b, payload, time)
  {
    hide Serialize, Signing.Sound, Signing.Example, Signing.SharedInput, Signing.Compact, Signing.VerifyCanonical;
    var scope := "delegation_token";
    var sameBytes := (a: Text, b: Text) => Unpadded(a) == Unpadded(b);
    var c := Signing.Example([65], sameBytes);
    var keys := [Signing.SharedKey(kid, secret, scope)];
    var parseDate := (t: Text) => Some(1000);
    var payload := Obj([Member(CONSTRAINTS, Obj([Member(EXPIRES_AT, Str([]))]))]);
    var input := Signing.SharedInput(c, kid, Serialize(payload));
    assert Unpadded([65, EQUALS]) == [65] == Unpadded([65]);
    Signing.ExampleIsSound([65], sameBytes);
    Signing.ExampleVerifies([65], sameBytes, [65], kid, secret, Serialize(payload), scope);
    Signing.ExampleVerifies([65], sameBytes, [65, EQUALS], kid, secret, Serialize(payload), scope);
    PayloadExpires(c, keys[0], parseDate, Signing.Compact(input, [65]));
    assert Respelled(c, keys, parseDate, input, [65], [65, EQUALS], payload, 0);
  }

  lemma PayloadExpires(c: Signing.Crypto, key: Signing.Key, parseDate: Text -> Option<int>, signature: Text)
    requires parseDate([]) == Some(1000)
    ensures var payload := Obj([Member(CONSTRAINTS, Obj([Member(EXPIRES_AT, Str([]))]))]);
            && WellFormed(payload)
            && ExpiresAt(Rules(TokenCheck(c, [key]), parseDate), Token(signature, payload)) == Some(1000)
  {
    var inner := Obj([Member(EXPIRES_AT, Str([]))]);
    assert Field(inner, EXPIRES_AT) == Some(Str([]));
    assert WellFormed(inner);
    assert Field(Obj([Member(CONSTRAINTS, inner)]), CONSTRAINTS) == Some(inner);
  }
}
