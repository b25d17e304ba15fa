/**
  Compact signatures over canonical payloads, in the style of RFC 7515, section 7.1:
  header, payload and signature, each in base64url, joined by dots.
 */
module Signing {
  import opened Common
  import opened Jcs
  import opened JcsProofs
  import JsonReader
  import Splitting

  const DOT: CodeUnit := 46

  datatype Alg = HS256 | RS256
  datatype Status = Active | Retiring | Revoked
  datatype Profile = Open | Verified | Regulated
  datatype Material = Hmac(secret: Text) | Rsa(privateKey: Option<Text>, publicKey: Text)
  datatype Key = Key(kid: Text, alg: Alg, status: Status, scopes: seq<string>, material: Material)

  /** A header as read back: `alg` is absent when it names no known algorithm. */
  datatype Header = Header(alg: Option<Alg>, kid: Text, typ: Text)

  /**
    The library functions the code calls. `encode` is base64url of UTF-8; `parseHeader` decodes
    and parses a header, None when that throws or yields no object; `sameBytes` decodes two
    signatures and compares them in constant time, false when their lengths differ.
   */
  datatype Crypto = Crypto(
    encode: Text -> Text,
    parseHeader: Text -> Option<Header>,
    hmac: (Text, Text) -> Text,
    rsaSign: (Text, Text) -> Text,
    rsaVerify: (Text, Text, Text) -> bool,
    sameBytes: (Text, Text) -> bool)

  datatype Error = NoKey | RevokedKey | ScopeNotAllowed | AlgorithmNotAllowed | NoPrivateKey
  datatype Result<+T> = Ok(value: T) | Err(error: Error)

  // ---------- key lookup ----------

  /** Array.prototype.find by key id: the first bearer. */
  function KeyByKid(keys: seq<Key>, kid: Text): (r: Option<Key>)
    ensures r.Some? ==> exists i :: 0 <= i < |keys| && keys[i] == r.value && FirstWithKid(keys, kid, i)
    ensures r.None? ==> forall i :: 0 <= i < |keys| ==> keys[i].kid != kid
  {
    if keys == [] then None
    else if keys[0].kid == kid then Some(keys[0])
    else
      var r := KeyByKid(keys[1..], kid);
      assert r.Some? ==> exists i :: 0 <= i < |keys| - 1 && FirstWithKid(keys[1..], kid, i) && FirstWithKid(keys, kid, i + 1);
      r
  }

  predicate FirstWithKid(keys: seq<Key>, kid: Text, i: nat) {
    i < |keys| && keys[i].kid == kid && forall j :: 0 <= j < i ==> keys[j].kid != kid
  }

  function FirstSignable(keys: seq<Key>): (r: Option<Key>)
    ensures r.Some? ==> exists i :: 0 <= i < |keys| && keys[i] == r.value && FirstNotRevoked(keys, i)
    ensures r.None? ==> forall i :: 0 <= i < |keys| ==> keys[i].status == Revoked
  {
    if keys == [] then None
    else if keys[0].status != Revoked then Some(keys[0])
    else
      var r := FirstSignable(keys[1..]);
      assert r.Some? ==> exists i :: 0 <= i < |keys| - 1 && FirstNotRevoked(keys[1..], i) && FirstNotRevoked(keys, i + 1);
      r
  }

  predicate FirstNotRevoked(keys: seq<Key>, i: nat) {
    i < |keys| && keys[i].status != Revoked && forall j :: 0 <= j < i ==> keys[j].status == Revoked
  }

  /**
    `activeKid` is the trimmed environment setting, None when it is absent or blank. Its first
    bearer is preferred unless revoked; a key is found exactly when not all are revoked.
   */
  function ActiveSigningKey(keys: seq<Key>, activeKid: Option<Text>): (r: Option<Key>)
    ensures r.Some? ==> r.value in keys && r.value.status != Revoked
    ensures r.None? <==> forall i :: 0 <= i < |keys| ==> keys[i].status == Revoked
    ensures activeKid.Some? ==> forall i :: 0 <= i < |keys| && FirstWithKid(keys, activeKid.value, i) && keys[i].status != Revoked ==>
              r == Some(keys[i])
    ensures activeKid.Some? && (forall i :: 0 <= i < |keys| && FirstWithKid(keys, activeKid.value, i) ==> keys[i].status == Revoked) ==>
              forall i :: 0 <= i < |keys| && FirstNotRevoked(keys, i) ==> r == Some(keys[i])
    ensures activeKid.None? ==> forall i :: 0 <= i < |keys| && FirstNotRevoked(keys, i) ==> r == Some(keys[i])
  {
    var named := if activeKid.Some? then KeyByKid(keys, activeKid.value) else None;
    if named.Some? && named.value.status != Revoked then named else FirstSignable(keys)
  }

  // ---------- signing and verifying ----------

  predicate AlgorithmAllowed(alg: Alg, profile: Profile) {
    profile == Open || alg == RS256
  }

  /** An absent or empty scope asks for nothing. */
  predicate ScopeAllowed(key: Key, scope: Option<string>) {
    scope.Some? && scope.value != "" ==> scope.value in key.scopes
  }

  const MAPSIG: Text := [77, 65, 80, 83, 73, 71]

  function AlgText(alg: Alg): Text {
    match alg
    case HS256 => [72, 83, 50, 53, 54]
    case RS256 => [82, 83, 50, 53, 54]
  }

  function HeaderObject(alg: Alg, kid: Text): Json {
    Obj([
      Member([97, 108, 103], Str(AlgText(alg))),
      Member([107, 105, 100], Str(kid)),
      Member([116, 121, 112], Str(MAPSIG))])
  }

  /** The header object's keys are written in key order, so its plain text is its canonical text. */
  function HeaderText(alg: Alg, kid: Text): Text {
    Serialize(HeaderObject(alg, kid))
  }

  function SigningInput(c: Crypto, key: Key, payload: Text): Text {
    c.encode(HeaderText(key.alg, key.kid)) + [DOT] + c.encode(payload)
  }

  function SignWith(c: Crypto, key: Key, input: Text): Result<Text> {
    match key.material
    case Hmac(secret) => Ok(c.hmac(secret, input))
    case Rsa(privateKey, _) => if privateKey.None? then Err(NoPrivateKey) else Ok(c.rsaSign(privateKey.value, input))
  }

  /** `requestedKid` and `activeKid` are trimmed, None when absent or blank. */
  function SigningKey(keys: seq<Key>, activeKid: Option<Text>, requestedKid: Option<Text>): Option<Key> {
    if requestedKid.Some? then KeyByKid(keys, requestedKid.value) else ActiveSigningKey(keys, activeKid)
  }

  function SignCanonical(c: Crypto, keys: seq<Key>, profile: Profile, activeKid: Option<Text>,
                         payload: Text, requestedKid: Option<Text>, scope: Option<string>): Result<Text> {
    var found := SigningKey(keys, activeKid, requestedKid);
    if found.None? then Err(NoKey)
    else
      var key := found.value;
      if key.status == Revoked then Err(RevokedKey)
      else if !ScopeAllowed(key, scope) then Err(ScopeNotAllowed)
      else if !AlgorithmAllowed(key.alg, profile) then Err(AlgorithmNotAllowed)
      else
        var input := SigningInput(c, key, payload);
        var signature := SignWith(c, key, input);
        if signature.Err? then signature else Ok(input + [DOT] + signature.value)
  }

  predicate Accepts(c: Crypto, key: Key, input: Text, signature: Text) {
    match key.material
    case Hmac(secret) => c.sameBytes(signature, c.hmac(secret, input))
    case Rsa(_, publicKey) => c.rsaVerify(publicKey, input, signature)
  }

  predicate VerifyCanonical(c: Crypto, keys: seq<Key>, signature: Text, payload: Text, scope: Option<string>) {
    var parts := Splitting.Split(signature, [DOT]);
    if |parts| != 3 then false
    else
      var header := c.parseHeader(parts[0]);
      if header.None? || header.value.typ != MAPSIG || header.value.alg.None? then false
      else
        var key := KeyByKid(keys, header.value.kid);
        if key.None? || key.value.status == Revoked || key.value.alg != header.value.alg.value then false
        else if !ScopeAllowed(key.value, scope) then false
        else if parts[1] != c.encode(payload) then false
        else Accepts(c, key.value, parts[0] + [DOT] + parts[1], parts[2])
  }

  function Sign(c: Crypto, keys: seq<Key>, profile: Profile, activeKid: Option<Text>,
                payload: Json, requestedKid: Option<Text>, scope: Option<string>): Result<Text> {
    SignCanonical(c, keys, profile, activeKid, Serialize(payload), requestedKid, scope)
  }

  predicate Verify(c: Crypto, keys: seq<Key>, signature: Text, payload: Json, scope: Option<string>) {
    VerifyCanonical(c, keys, signature, Serialize(payload), scope)
  }

  // ---------- what the library functions are taken to do ----------

  /**
    Encoded texts and signatures contain no dot; a header that was printed and encoded is read
    back; a byte string equals itself; an RSA public key accepts what its private key signed.
    `encode` loses nothing on texts without unpaired surrogates; on others UTF-8 does.
   */
  ghost predicate Sound(c: Crypto) {
    && (forall t :: DOT !in c.encode(t))
    && (forall t, u :: Paired(t) && Paired(u) && c.encode(t) == c.encode(u) ==> t == u)
    && (forall secret, t :: DOT !in c.hmac(secret, t))
    && (forall private, t :: DOT !in c.rsaSign(private, t))
    && (forall alg, kid :: c.parseHeader(c.encode(HeaderText(alg, kid))) == Some(Header(Some(alg), kid, MAPSIG)))
    && (forall a :: c.sameBytes(a, a))
  }

  /** The two halves of an RSA key belong together. */
  ghost predicate Matching(c: Crypto, key: Key) {
    key.material.Rsa? && key.material.privateKey.Some? ==>
      forall t :: c.rsaVerify(key.material.publicKey, t, c.rsaSign(key.material.privateKey.value, t))
  }

  ghost predicate UniqueKids(keys: seq<Key>) {
    forall i, j :: 0 <= i < j < |keys| ==> keys[i].kid != keys[j].kid
  }

  // ---------- those facts are consistent ----------

  /** Two units for each, neither of them a dot. */
  function Widen(t: Text): Text {
    if t == [] then [] else [1000 + t[0] / 256, 1000 + t[0] % 256] + Widen(t[1..])
  }

  lemma {:induction false} WidenIsReadBack(t: Text, u: Text)
    requires Widen(t) == Widen(u)
    ensures t == u
  {
    if t != [] && u != [] {
      var w := Widen(t);
      assert w[0] == 1000 + t[0] / 256 == 1000 + u[0] / 256 && w[1] == 1000 + t[0] % 256 == 1000 + u[0] % 256;
      assert w[2..] == Widen(t[1..]) && w[2..] == Widen(u[1..]);
      WidenIsReadBack(t[1..], u[1..]);
      assert t[0] == 256 * (t[0] / 256) + t[0] % 256 == u[0];
      assert t == [t[0]] + t[1..] && u == [u[0]] + u[1..];
    }
  }

  lemma {:induction false} WidenHasNoDot(t: Text)
    ensures DOT !in Widen(t)
  {
    if t != [] {
      WidenHasNoDot(t[1..]);
    }
  }

  lemma HeaderIsReadBack(alg: Alg, kid: Text, other: Alg, otherKid: Text)
    requires HeaderText(alg, kid) == HeaderText(other, otherKid)
    ensures alg == other && kid == otherKid
  {
    hide Serialize;
    HeaderIsWellFormed(alg, kid);
    HeaderIsWellFormed(other, otherKid);
    SerializeIsCanonical(HeaderObject(alg, kid), HeaderObject(other, otherKid));
    HeadersDiffer(alg, kid, other, otherKid);
  }

  lemma HeaderIsWellFormed(alg: Alg, kid: Text)
    ensures WellFormed(HeaderObject(alg, kid))
  {
    var members := HeaderObject(alg, kid).members;
    assert members[0].key[0] == 97 && members[1].key[0] == 107 && members[2].key[0] == 116;
  }

  lemma HeadersDiffer(alg: Alg, kid: Text, other: Alg, otherKid: Text)
    requires JsonEqual(HeaderObject(alg, kid), HeaderObject(other, otherKid))
    ensures alg == other && kid == otherKid
  {
    var a, b := HeaderObject(alg, kid).members, HeaderObject(other, otherKid).members;
    assert JsonEqual(a[0].value, b[0].value) && JsonEqual(a[1].value, b[1].value);
    assert AlgText(alg)[0] == AlgText(other)[0];
  }

  ghost function ReadHeader(t: Text): Option<Header> {
    if h: (Alg, Text) :| t == Widen(HeaderText(h.0, h.1)) then Some(Header(Some(h.0), h.1, MAPSIG)) else None
  }

  lemma WideHeaderIsReadBack(alg: Alg, kid: Text)
    ensures ReadHeader(Widen(HeaderText(alg, kid))) == Some(Header(Some(alg), kid, MAPSIG))
  {
    hide Widen, HeaderText;
    assert (alg, kid).0 == alg && (alg, kid).1 == kid;
    forall h: (Alg, Text) | Widen(HeaderText(alg, kid)) == Widen(HeaderText(h.0, h.1)) ensures h == (alg, kid) {
      WidenIsReadBack(HeaderText(alg, kid), HeaderText(h.0, h.1));
      HeaderIsReadBack(alg, kid, h.0, h.1);
    }
  }

  /** Library functions with one signature for everything, compared as `sameBytes` says. */
  ghost function Example(signature: Text, sameBytes: (Text, Text) -> bool): Crypto {
    Crypto(Widen, ReadHeader, (secret: Text, t: Text) => signature, (private: Text, t: Text) => signature,
           (public: Text, t: Text, s: Text) => s == signature, sameBytes)
  }

  lemma ExampleIsSound(signature: Text, sameBytes: (Text, Text) -> bool)
    requires DOT !in signature && forall a :: sameBytes(a, a)
    ensures Sound(Example(signature, sameBytes))
  {
    hide Widen, HeaderText, ReadHeader;
    var c := Example(signature, sameBytes);
    forall t ensures DOT !in c.encode(t) { WidenHasNoDot(t); }
    forall t, u | c.encode(t) == c.encode(u) ensures t == u { WidenIsReadBack(t, u); }
    forall alg, kid ensures c.parseHeader(c.encode(HeaderText(alg, kid))) == Some(Header(Some(alg), kid, MAPSIG)) {
      WideHeaderIsReadBack(alg, kid);
    }
  }

  /** Library functions of which all those facts hold. */
  lemma SoundIsPossible()
    ensures exists c :: Sound(c)
  {
    var sameBytes := (a: Text, b: Text) => a == b;
    ExampleIsSound([], sameBytes);
    assert Sound(Example([], sameBytes));
  }

  // ---------- the guarantees ----------

  lemma SplitSignature(a: Text, b: Text, d: Text)
    requires DOT !in a && DOT !in b && DOT !in d
    ensures Splitting.Split(a + [DOT] + b + [DOT] + d, [DOT]) == [a, b, d]
  {
    assert a + [DOT] + b + [DOT] + d == a + [DOT] + (b + [DOT] + d);
    Splitting.SplitAtFirst(a, DOT, b + [DOT] + d);
    Splitting.SplitAtFirst(b, DOT, d);
    Splitting.SplitNone(d, DOT);
  }

  lemma SignatureHasNoDot(c: Crypto, key: Key, input: Text)
    requires Sound(c) && SignWith(c, key, input).Ok?
    ensures DOT !in SignWith(c, key, input).value
  {
  }

  lemma OwnKeyAccepts(c: Crypto, key: Key, input: Text)
    requires Sound(c) && Matching(c, key) && SignWith(c, key, input).Ok?
    ensures Accepts(c, key, input, SignWith(c, key, input).value)
  {
  }

  lemma SigningKeyFound(keys: seq<Key>, activeKid: Option<Text>, requestedKid: Option<Text>)
    ensures var key := SigningKey(keys, activeKid, requestedKid); key.Some? ==> key.value in keys
  {
  }

  /**
    What verifying a fresh signature comes to: it is checked under the first key that bears the
    signer's key id, so it verifies exactly when that key is usable and accepts the bytes.
   */
  lemma FreshSignatureVerifiesIff(c: Crypto, keys: seq<Key>, profile: Profile, activeKid: Option<Text>,
                                  payload: Text, requestedKid: Option<Text>, scope: Option<string>)
    requires Sound(c)
    requires SignCanonical(c, keys, profile, activeKid, payload, requestedKid, scope).Ok?
    ensures var signature := SignCanonical(c, keys, profile, activeKid, payload, requestedKid, scope).value;
            var signer := SigningKey(keys, activeKid, requestedKid).value;
            var input := SigningInput(c, signer, payload);
            var checker := KeyByKid(keys, signer.kid);
            VerifyCanonical(c, keys, signature, payload, scope) <==>
              && checker.Some? && checker.value.status != Revoked && checker.value.alg == signer.alg
              && ScopeAllowed(checker.value, scope)
              && Accepts(c, checker.value, input, SignWith(c, signer, input).value)
  {
    var signer := SigningKey(keys, activeKid, requestedKid).value;
    var input := SigningInput(c, signer, payload);
    SignatureHasNoDot(c, signer, input);
    SplitSignature(c.encode(HeaderText(signer.alg, signer.kid)), c.encode(payload), SignWith(c, signer, input).value);
  }

  lemma {:induction false} UniqueKidFindsKey(keys: seq<Key>, key: Key)
    requires UniqueKids(keys) && key in keys
    ensures KeyByKid(keys, key.kid) == Some(key)
  {
    if keys[0] != key {
      assert key in keys[1..];
      var i :| 0 < i < |keys| && keys[i] == key;
      assert keys[0].kid != keys[i].kid;
      UniqueKidFindsKey(keys[1..], key);
    }
  }

  /** With unique key ids and an unchanged key set, every signature made verifies. */
  lemma SignThenVerify(c: Crypto, keys: seq<Key>, profile: Profile, activeKid: Option<Text>,
                       payload: Json, requestedKid: Option<Text>, scope: Option<string>)
    requires Sound(c) && UniqueKids(keys) && forall i :: 0 <= i < |keys| ==> Matching(c, keys[i])
    requires Sign(c, keys, profile, activeKid, payload, requestedKid, scope).Ok?
    ensures Verify(c, keys, Sign(c, keys, profile, activeKid, payload, requestedKid, scope).value, payload, scope)
  {
    var signer := SigningKey(keys, activeKid, requestedKid).value;
    var text := Serialize(payload);
    SigningKeyFound(keys, activeKid, requestedKid);
    UniqueKidFindsKey(keys, signer);
    OwnKeyAccepts(c, signer, SigningInput(c, signer, text));
    FreshSignatureVerifiesIff(c, keys, profile, activeKid, text, requestedKid, scope);
  }

  /** With a key id used twice the round trip can fail: the first bearer is revoked, the second signs. */
  lemma DuplicateKidBreaksRoundTrip(c: Crypto, kid: Text, secret: Text, payload: Json)
    requires Sound(c)
    ensures var keys := [Key(kid, HS256, Revoked, [], Hmac(secret)), Key(kid, HS256, Active, [], Hmac(secret))];
            var signed := Sign(c, keys, Open, None, payload, None, None);
            signed.Ok? && !Verify(c, keys, signed.value, payload, None)
  {
    var revoked, active := Key(kid, HS256, Revoked, [], Hmac(secret)), Key(kid, HS256, Active, [], Hmac(secret));
    var keys := [revoked, active];
    assert keys[1..] == [active];
    assert FirstSignable(keys) == FirstSignable([active]) == Some(active);
    assert KeyByKid(keys, kid) == Some(revoked);
    FreshSignatureVerifiesIff(c, keys, Open, None, Serialize(payload), None, None);
  }

  /**
    A signature binds its payload: if it verifies for two payloads, under whatever key sets and
    scopes, they are the same JSON value.
   */
  lemma SignatureBindsPayload(c: Crypto, keys: seq<Key>, otherKeys: seq<Key>, signature: Text,
                              payload: Json, other: Json, scope: Option<string>, otherScope: Option<string>)
    requires Sound(c) && WellFormed(payload) && WellFormed(other)
    requires Verify(c, keys, signature, payload, scope) && Verify(c, otherKeys, signature, other, otherScope)
    ensures JsonEqual(payload, other)
  {
    SerializeIsPaired(payload);
    SerializeIsPaired(other);
    SerializeIsCanonical(payload, other);
  }

  /** Equal values verify alike, so re-reading a payload with its members in another order changes nothing. */
  lemma EqualPayloadsVerifyAlike(c: Crypto, keys: seq<Key>, signature: Text, payload: Json, other: Json, scope: Option<string>)
    requires WellFormed(payload) && WellFormed(other) && JsonEqual(payload, other)
    ensures Verify(c, keys, signature, payload, scope) == Verify(c, keys, signature, other, scope)
  {
    SerializeIsCanonical(payload, other);
  }

  // ---------- when signing and verifying succeed ----------

  /** A non-empty scope is among the key's own. */
  predicate Lists(key: Key, scope: Option<string>) {
    scope == None || scope == Some("") || exists i :: 0 <= i < |key.scopes| && scope == Some(key.scopes[i])
  }

  /**
    Signing succeeds exactly when a key is found that is not revoked, lists the scope, is for
    RS256 unless the profile is open, and has its secret part; otherwise the first of these to
    fail is the error.
   */
  lemma SignsIff(c: Crypto, keys: seq<Key>, profile: Profile, activeKid: Option<Text>,
                 payload: Text, requestedKid: Option<Text>, scope: Option<string>)
    ensures var found := if requestedKid.Some? then KeyByKid(keys, requestedKid.value) else ActiveSigningKey(keys, activeKid);
            var r := SignCanonical(c, keys, profile, activeKid, payload, requestedKid, scope);
            if found.None? then r == Err(NoKey)
            else if found.value.status == Revoked then r == Err(RevokedKey)
            else if !Lists(found.value, scope) then r == Err(ScopeNotAllowed)
            else if profile != Open && found.value.alg != RS256 then r == Err(AlgorithmNotAllowed)
            else if found.value.material.Rsa? && found.value.material.privateKey.None? then r == Err(NoPrivateKey)
            else
              var input := Input(c.encode(HeaderText(found.value.alg, found.value.kid)), c.encode(payload));
              r == Ok(Compact(input, match found.value.material
                                     case Hmac(secret) => c.hmac(secret, InputText(input))
                                     case Rsa(privateKey, _) => c.rsaSign(privateKey.value, InputText(input))))
  {
  }

  /** What a signature that verifies is made of. */
  ghost predicate VerifiesAs(c: Crypto, keys: seq<Key>, input: Input, signature: Text, payload: Text, scope: Option<string>) {
    && DOT !in input.header && DOT !in input.payload && DOT !in signature
    && input.payload == c.encode(payload)
    && var header := c.parseHeader(input.header);
    && header.Some? && JsonReader.Spells(header.value.typ, "MAPSIG")
    && var key := KeyByKid(keys, header.value.kid);
    && key.Some? && key.value.status != Revoked && header.value.alg == Some(key.value.alg) && Lists(key.value, scope)
    && match key.value.material
       case Hmac(secret) => c.sameBytes(signature, c.hmac(secret, InputText(input)))
       case Rsa(_, publicKey) => c.rsaVerify(publicKey, InputText(input), signature)
  }

  /**
    A text verifies exactly when it is three parts joined by dots: a header that names a key and
    its algorithm, the payload, and a signature of both that the key accepts; and the first key
    of that id is not revoked and lists the scope.
   */
  lemma VerifiesIff(c: Crypto, keys: seq<Key>, text: Text, payload: Text, scope: Option<string>)
    ensures VerifyCanonical(c, keys, text, payload, scope) <==>
            exists input, signature :: text == Compact(input, signature) && VerifiesAs(c, keys, input, signature, payload, scope)
  {
    if input, signature :| text == Compact(input, signature) && VerifiesAs(c, keys, input, signature, payload, scope) {
      ThreeParts(c, keys, input, signature, payload, scope);
    }
    if VerifyCanonical(c, keys, text, payload, scope) {
      hide Splitting.Split, VerifiesAs;
      var parts := Splitting.Split(text, [DOT]);
      Splitting.PiecesHaveNone(text, DOT);
      Splitting.JoinOfSplit(text, [DOT]);
      JoinThree(parts);
      assert text == Compact(Input(parts[0], parts[1]), parts[2]);
      ThreeParts(c, keys, Input(parts[0], parts[1]), parts[2], payload, scope);
    }
  }

  lemma ThreeParts(c: Crypto, keys: seq<Key>, input: Input, signature: Text, payload: Text, scope: Option<string>)
    requires DOT !in input.header && DOT !in input.payload && DOT !in signature
    ensures VerifyCanonical(c, keys, Compact(input, signature), payload, scope) <==>
            VerifiesAs(c, keys, input, signature, payload, scope)
  {
    hide Splitting.Split;
    SplitSignature(input.header, input.payload, signature);
    HeaderType();
    hide JsonReader.Spells;
  }

  lemma HeaderType()
    ensures forall typ :: JsonReader.Spells(typ, "MAPSIG") <==> typ == MAPSIG
  {
    var s := "MAPSIG";
    assert s[0] == 'M' && s[1] == 'A' && s[2] == 'P' && s[3] == 'S' && s[4] == 'I' && s[5] == 'G' && |s| == 6;
    forall typ | JsonReader.Spells(typ, s) ensures typ == MAPSIG {
      assert forall i :: 0 <= i < 6 ==> typ[i] == MAPSIG[i];
    }
  }

  lemma JoinThree(parts: seq<Text>)
    requires |parts| == 3
    ensures Splitting.Join(parts, [DOT]) == Compact(Input(parts[0], parts[1]), parts[2])
  {
    var a, b, c := parts[0], parts[1], parts[2];
    assert parts[1..][1..] == [c];
    assert Splitting.Join(parts[1..], [DOT]) == b + [DOT] + c;
    assert a + [DOT] + (b + [DOT] + c) == a + [DOT] + b + [DOT] + c;
  }

  /** A header's text reads as its JSON object. */
  lemma HeaderReads(alg: Alg, kid: Text)
    ensures var r := JsonReader.ReadValue(HeaderText(alg, kid));
            r.Read? && r.rest == [] && JsonEqual(HeaderObject(alg, kid), r.value)
  {
    HeaderIsWellFormed(alg, kid);
    JsonReader.CanonicalTextReads(HeaderObject(alg, kid));
  }

  predicate SaysText(m: Member, name: string, value: string) {
    JsonReader.Spells(m.key, name) && m.value.Str? && JsonReader.Spells(m.value.s, value)
  }

  /** That object has three members: the algorithm's name, the key id, and the type. */
  lemma HeaderSpells(alg: Alg, kid: Text)
    ensures var ms := HeaderObject(alg, kid).members;
            && |ms| == 3
            && SaysText(ms[0], "alg", if alg == HS256 then "HS256" else "RS256")
            && JsonReader.Spells(ms[1].key, "kid") && ms[1].value == Str(kid)
            && SaysText(ms[2], "typ", "MAPSIG")
  {
    hide JsonReader.Spells;
    MemberNames();
    HeaderType();
    AlgNames(alg);
  }

  lemma MemberNames()
    ensures JsonReader.Spells([97, 108, 103], "alg") && JsonReader.Spells([107, 105, 100], "kid")
    ensures JsonReader.Spells([116, 121, 112], "typ")
  {
    assert ['a' as int, 'l' as int, 'g' as int] == [97, 108, 103] && ['k' as int, 'i' as int, 'd' as int] == [107, 105, 100];
    assert ['t' as int, 'y' as int, 'p' as int] == [116, 121, 112];
  }

  lemma AlgNames(alg: Alg)
    ensures JsonReader.Spells(AlgText(alg), if alg == HS256 then "HS256" else "RS256")
  {
    assert ['H' as int, 'R' as int, 'S' as int, '2' as int, '5' as int, '6' as int] == [72, 82, 83, 50, 53, 54];
  }

  // ---------- spellings of one signature ----------

  /** The two encoded parts that a signature is computed from. */
  datatype Input = Input(header: Text, payload: Text)

  function InputText(input: Input): Text {
    input.header + [DOT] + input.payload
  }

  function Compact(input: Input, signature: Text): Text {
    InputText(input) + [DOT] + signature
  }

  /** The key that the header names accepts the signature; for a shared secret, its bytes are the expected ones. */
  predicate AcceptedUnder(c: Crypto, keys: seq<Key>, input: Input, signature: Text) {
    var header := c.parseHeader(input.header);
    && header.Some?
    && var key := KeyByKid(keys, header.value.kid);
    key.Some? && Accepts(c, key.value, InputText(input), signature)
  }

  /** Where one spelling of the last part verifies, another does exactly when its bytes are accepted: texts are not compared. */
  lemma SpellingVerifiesIff(c: Crypto, keys: seq<Key>, input: Input, a: Text, b: Text, payload: Text, scope: Option<string>)
    requires DOT !in input.header && DOT !in input.payload && DOT !in a && DOT !in b
    requires VerifyCanonical(c, keys, Compact(input, a), payload, scope)
    ensures VerifyCanonical(c, keys, Compact(input, b), payload, scope) <==> AcceptedUnder(c, keys, input, b)
  {
    SplitSignature(input.header, input.payload, a);
    SplitSignature(input.header, input.payload, b);
  }

  lemma SpellingsDiffer(input: Input, a: Text, b: Text)
    requires a != b
    ensures Compact(input, a) != Compact(input, b)
  {
    var n := |InputText(input)| + 1;
    assert Compact(input, a)[n..] == a && Compact(input, b)[n..] == b;
  }

  /** If signatures were compared as texts, a header and a payload would have one signature under shared secrets. */
  lemma ExactSignatureIsUnique(c: Crypto, keys: seq<Key>, signature: Text, other: Text, payload: Text, scope: Option<string>)
    requires forall i :: 0 <= i < |keys| ==> keys[i].material.Hmac?
    requires forall a, b :: c.sameBytes(a, b) <==> a == b
    requires VerifyCanonical(c, keys, signature, payload, scope) && VerifyCanonical(c, keys, other, payload, scope)
    requires Splitting.Split(signature, [DOT])[0] == Splitting.Split(other, [DOT])[0]
    ensures signature == other
  {
    var parts, others := Splitting.Split(signature, [DOT]), Splitting.Split(other, [DOT]);
    assert parts[1] == others[1] && parts[2] == others[2];
    assert parts == [parts[0], parts[1], parts[2]] == others;
    Splitting.JoinOfSplit(signature, [DOT]);
    Splitting.JoinOfSplit(other, [DOT]);
  }

  function SharedKey(kid: Text, secret: Text, scope: string): Key {
    Key(kid, HS256, Active, [scope], Hmac(secret))
  }

  function SharedInput(c: Crypto, kid: Text, payload: Text): Input {
    Input(c.encode(HeaderText(HS256, kid)), c.encode(payload))
  }

  /** Under the example functions, every spelling that `sameBytes` takes for the signature verifies. */
  lemma ExampleVerifies(signature: Text, sameBytes: (Text, Text) -> bool, spelling: Text, kid: Text, secret: Text,
                        payload: Text, scope: string)
    requires DOT !in signature && DOT !in spelling && sameBytes(spelling, signature)
    ensures var c, keys := Example(signature, sameBytes), [SharedKey(kid, secret, scope)];
            var input := SharedInput(c, kid, payload);
            && DOT !in input.header && DOT !in input.payload
            && AcceptedUnder(c, keys, input, spelling)
            && VerifyCanonical(c, keys, Compact(input, spelling), payload, Some(scope))
  {
    hide HeaderText, Widen, ReadHeader;
    var c := Example(signature, sameBytes);
    var input := SharedInput(c, kid, payload);
    WideHeaderIsReadBack(HS256, kid);
    WidenHasNoDot(HeaderText(HS256, kid));
    WidenHasNoDot(payload);
    SplitSignature(input.header, input.payload, spelling);
  }
}
