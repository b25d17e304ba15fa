/**
  The canonical JSON serializer behind every signature (RFC 8785, section 3.2).

  A string is the sequence of its UTF-16 code units, as in the source language, so that the
  key order of section 3.2.3 and the escaping of unpaired surrogates can be stated.
 */
module Jcs {
  type CodeUnit = u: int | 0 <= u < 0x1_0000
  type Text = seq<CodeUnit>

  const QUOTE: CodeUnit := 34
  const COMMA: CodeUnit := 44
  const MINUS: CodeUnit := 45
  const COLON: CodeUnit := 58
  const LEFT_BRACKET: CodeUnit := 91
  const BACKSLASH: CodeUnit := 92
  const RIGHT_BRACKET: CodeUnit := 93
  const LEFT_BRACE: CodeUnit := 123
  const RIGHT_BRACE: CodeUnit := 125
  const NULL_TEXT: Text := [110, 117, 108, 108]
  const TRUE_TEXT: Text := [116, 114, 117, 101]
  const FALSE_TEXT: Text := [102, 97, 108, 115, 101]

  /**
    `Num(n)` is the integral number, below 1e21 in magnitude, that the source language prints
    as the integer n. `NonFinite` is an infinity or a NaN. An object's members are in insertion order.
   */
  datatype Json =
    | Null
    | Bool(b: bool)
    | Num(n: int)
    | NonFinite
    | Str(s: Text)
    | Arr(items: seq<Json>)
    | Obj(members: seq<Member>)

  datatype Member = Member(key: Text, value: Json)

  // ---------- numbers ----------

  function Digits(n: nat): (t: Text)
    ensures t != []
  {
    if n < 10 then [48 + n] else Digits(n / 10) + [48 + n % 10]
  }

  function Integer(n: int): Text {
    if n < 0 then [MINUS] + Digits(-n) else Digits(n)
  }

  // ---------- strings, as JSON.stringify prints them ----------

  predicate IsHigh(u: CodeUnit) {
    0xD800 <= u <= 0xDBFF
  }

  predicate IsLow(u: CodeUnit) {
    0xDC00 <= u <= 0xDFFF
  }

  function HexDigit(d: nat): CodeUnit
    requires d < 16
  {
    if d < 10 then 48 + d else 87 + d
  }

  function Hex(u: CodeUnit): Text {
    [HexDigit(u / 4096), HexDigit(u / 256 % 16), HexDigit(u / 16 % 16), HexDigit(u % 16)]
  }

  /** One code unit that is not part of a surrogate pair. */
  function EscapeUnit(u: CodeUnit): (t: Text)
    ensures t != []
  {
    if u == QUOTE then [BACKSLASH, QUOTE]
    else if u == BACKSLASH then [BACKSLASH, BACKSLASH]
    else if u == 8 then [BACKSLASH, 98]
    else if u == 9 then [BACKSLASH, 116]
    else if u == 10 then [BACKSLASH, 110]
    else if u == 12 then [BACKSLASH, 102]
    else if u == 13 then [BACKSLASH, 114]
    else if u < 32 || IsHigh(u) || IsLow(u) then [BACKSLASH, 117] + Hex(u)
    else [u]
  }

  /** How many code units the next character takes: two for a surrogate pair. */
  function Width(s: Text): (w: nat)
    requires s != []
    ensures 1 <= w <= |s|
  {
    if |s| >= 2 && IsHigh(s[0]) && IsLow(s[1]) then 2 else 1
  }

  function EscapeHead(s: Text): (t: Text)
    requires s != []
    ensures t != []
  {
    if Width(s) == 2 then s[..2] else EscapeUnit(s[0])
  }

  function Escape(s: Text): Text {
    if s == [] then [] else EscapeHead(s) + Escape(s[Width(s)..])
  }

  function Quote(s: Text): Text {
    [QUOTE] + Escape(s) + [QUOTE]
  }

  // ---------- key order ----------

  /** The order of Array.prototype.sort on strings: by code units. */
  predicate Before(a: Text, b: Text) {
    b != [] && (a == [] || a[0] < b[0] || (a[0] == b[0] && Before(a[1..], b[1..])))
  }

  /** A member's key with the text printed for the member. */
  datatype Entry = Entry(key: Text, text: Text)

  function Insert(e: Entry, es: seq<Entry>): seq<Entry> {
    if es == [] || Before(e.key, es[0].key) then [e] + es
    else [es[0]] + Insert(e, es[1..])
  }

  function SortByKey(es: seq<Entry>): seq<Entry> {
    if es == [] then [] else Insert(es[0], SortByKey(es[1..]))
  }

  // ---------- values ----------

  function Serialize(v: Json): Text
    decreases v, 1
  {
    match v
    case Null => NULL_TEXT
    case Bool(b) => if b then TRUE_TEXT else FALSE_TEXT
    case Num(n) => Integer(n)
    case NonFinite => NULL_TEXT
    case Str(s) => Quote(s)
    case Arr(items) => [LEFT_BRACKET] + SerializeItems(items) + [RIGHT_BRACKET]
    case Obj(members) => [LEFT_BRACE] + JoinEntries(SortByKey(Entries(members))) + [RIGHT_BRACE]
  }

  function SerializeItems(items: seq<Json>): Text
    decreases items, 0
  {
    if items == [] then []
    else if |items| == 1 then Serialize(items[0])
    else Serialize(items[0]) + [COMMA] + SerializeItems(items[1..])
  }

  function Entries(members: seq<Member>): seq<Entry>
    decreases members, 0
  {
    if members == [] then []
    else [Entry(members[0].key, Quote(members[0].key) + [COLON] + Serialize(members[0].value))] + Entries(members[1..])
  }

  function JoinEntries(es: seq<Entry>): Text {
    if es == [] then []
    else if |es| == 1 then es[0].text
    else es[0].text + [COMMA] + JoinEntries(es[1..])
  }

  // ---------- what a value means ----------

  predicate HasKey(members: seq<Member>, key: Text) {
    exists i :: 0 <= i < |members| && members[i].key == key
  }

  predicate DistinctKeys(members: seq<Member>) {
    forall i, j :: 0 <= i < j < |members| ==> members[i].key != members[j].key
  }

  /** No object, at any depth, has a key twice: the only objects the source language has. */
  predicate WellFormed(v: Json) {
    match v
    case Arr(items) => forall i :: 0 <= i < |items| ==> WellFormed(items[i])
    case Obj(members) =>
      DistinctKeys(members) && forall i :: 0 <= i < |members| ==> WellFormed(members[i].value)
    case _ => true
  }

  /**
    Equality of JSON values that knows nothing of texts or sorting: objects are equal as maps
    from keys to values, and a number that is not finite is null.
   */
  ghost predicate JsonEqual(v: Json, w: Json) {
    match v
    case Null => w.Null? || w.NonFinite?
    case NonFinite => w.Null? || w.NonFinite?
    case Bool(b) => w.Bool? && w.b == b
    case Num(n) => w.Num? && w.n == n
    case Str(s) => w.Str? && w.s == s
    case Arr(items) =>
      && w.Arr? && |w.items| == |items|
      && forall i :: 0 <= i < |items| ==> JsonEqual(items[i], w.items[i])
    case Obj(members) =>
      && w.Obj?
      && (forall key :: HasKey(members, key) <==> HasKey(w.members, key))
      && (forall i, j :: 0 <= i < |members| && 0 <= j < |w.members| && members[i].key == w.members[j].key ==>
            JsonEqual(members[i].value, w.members[j].value))
  }
}
