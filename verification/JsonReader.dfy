/**
  A reader of JSON texts without insignificant white space (RFC 8259), which knows nothing of the
  serializer; and the round trip: it reads what the serializer prints as an equal value.
 */
module JsonReader {
  import opened Common
  import opened Jcs
  import opened JcsProofs

  datatype Read<+T> = Failed | Read(value: T, rest: Text)

  // ---------- the grammar ----------

  function Ascii(s: string): (t: Text)
    requires forall i :: 0 <= i < |s| ==> s[i] as int < 128
    ensures |t| == |s| && forall i :: 0 <= i < |s| ==> t[i] == s[i] as int
  {
    if s == "" then [] else [s[0] as int] + Ascii(s[1..])
  }

  /** The text is that string. */
  predicate Spells(t: Text, s: string) {
    |t| == |s| && forall i :: 0 <= i < |s| ==> t[i] == s[i] as int
  }

  predicate StartsWith(t: Text, prefix: Text) {
    |prefix| <= |t| && t[..|prefix|] == prefix
  }

  /** What the escape sequences of two characters stand for. */
  function Escaped(c: CodeUnit): Option<CodeUnit> {
    if c == '\"' as int || c == '\\' as int || c == '/' as int then Some(c)
    else if c == 'b' as int then Some(0x08)
    else if c == 't' as int then Some(0x09)
    else if c == 'n' as int then Some(0x0A)
    else if c == 'f' as int then Some(0x0C)
    else if c == 'r' as int then Some(0x0D)
    else None
  }

  function HexValue(c: CodeUnit): (v: int)
    ensures -1 <= v < 16
  {
    if '0' as int <= c <= '9' as int then c - '0' as int
    else if 'a' as int <= c <= 'f' as int then c - 'a' as int + 10
    else if 'A' as int <= c <= 'F' as int then c - 'A' as int + 10
    else -1
  }

  function Prepend(u: CodeUnit, r: Read<Text>): Read<Text> {
    if r.Failed? then Failed else Read([u] + r.value, r.rest)
  }

  /** A string from after its opening quote on. */
  function ReadText(t: Text): (r: Read<Text>)
    ensures r.Read? ==> |r.rest| < |t|
    decreases |t|
  {
    if t == [] || t[0] < 0x20 then Failed
    else if t[0] == '\"' as int then Read([], t[1..])
    else if t[0] != '\\' as int then Prepend(t[0], ReadText(t[1..]))
    else if |t| >= 6 && t[1] == 'u' as int then
      var a, b, c, d := HexValue(t[2]), HexValue(t[3]), HexValue(t[4]), HexValue(t[5]);
      if a < 0 || b < 0 || c < 0 || d < 0 then Failed
      else Prepend(((a * 16 + b) * 16 + c) * 16 + d, ReadText(t[6..]))
    else if |t| >= 2 && Escaped(t[1]).Some? then Prepend(Escaped(t[1]).value, ReadText(t[2..]))
    else Failed
  }

  /** An integer: digits without a leading zero, perhaps after a minus sign, and no fraction or exponent. */
  function ReadInteger(t: Text): (r: Read<Json>)
    ensures r.Read? ==> |r.rest| < |t|
  {
    var negative := t != [] && t[0] == '-' as int;
    var digits := if negative then t[1..] else t;
    var n := LeadingDigits(digits);
    if n == 0 || n > |digits| || (n > 1 && digits[0] == '0' as int) then Failed
    else
      var rest := digits[n..];
      if rest != [] && rest[0] in Ascii(".eE") then Failed
      else Read(Num(if negative then -ValueOf(digits[..n]) else ValueOf(digits[..n])), rest)
  }

  function ReadValue(t: Text): (r: Read<Json>)
    ensures r.Read? ==> |r.rest| < |t|
    decreases |t|, 1
  {
    if t == [] then Failed
    else if StartsWith(t, Ascii("null")) then Read(Null, t[4..])
    else if StartsWith(t, Ascii("true")) then Read(Bool(true), t[4..])
    else if StartsWith(t, Ascii("false")) then Read(Bool(false), t[5..])
    else if t[0] == '\"' as int then
      var s := ReadText(t[1..]);
      if s.Failed? then Failed else Read(Str(s.value), s.rest)
    else if t[0] == '[' as int then
      if |t| > 1 && t[1] == ']' as int then Read(Arr([]), t[2..])
      else
        var items := ReadItems(t[1..]);
        if items.Failed? then Failed else Read(Arr(items.value), items.rest)
    else if t[0] == '{' as int then
      if |t| > 1 && t[1] == '}' as int then Read(Obj([]), t[2..])
      else
        var members := ReadMembers(t[1..]);
        if members.Failed? then Failed else Read(Obj(members.value), members.rest)
    else ReadInteger(t)
  }

  /** One or more values with commas between, and the closing bracket. */
  function ReadItems(t: Text): (r: Read<seq<Json>>)
    ensures r.Read? ==> |r.rest| < |t|
    decreases |t|, 2
  {
    var first := ReadValue(t);
    if first.Failed? || first.rest == [] then Failed
    else if first.rest[0] == ']' as int then Read([first.value], first.rest[1..])
    else if first.rest[0] == ',' as int then
      var more := ReadItems(first.rest[1..]);
      if more.Failed? then Failed else Read([first.value] + more.value, more.rest)
    else Failed
  }

  /** One or more members with commas between, and the closing brace. */
  function ReadMembers(t: Text): (r: Read<seq<Member>>)
    ensures r.Read? ==> |r.rest| < |t|
    decreases |t|, 2
  {
    var key := if t != [] && t[0] == '\"' as int then ReadText(t[1..]) else Failed;
    if key.Failed? || key.rest == [] || key.rest[0] != ':' as int then Failed
    else
      var value := ReadValue(key.rest[1..]);
      if value.Failed? || value.rest == [] then Failed
      else
        var member := Member(key.value, value.value);
        if value.rest[0] == '}' as int then Read([member], value.rest[1..])
        else if value.rest[0] == ',' as int then
          var more := ReadMembers(value.rest[1..]);
          if more.Failed? then Failed else Read([member] + more.value, more.rest)
        else Failed
  }

  // ---------- strings ----------

  lemma HexDigitReads(d: nat)
    requires d < 16
    ensures HexValue(HexDigit(d)) == d
  {
  }

  lemma HexReads(u: CodeUnit, x: Text)
    ensures ReadText([BACKSLASH, 117] + Hex(u) + x) == Prepend(u, ReadText(x))
  {
    var t := [BACKSLASH, 117] + Hex(u) + x;
    HexDigitReads(u / 4096);
    HexDigitReads(u / 256 % 16);
    HexDigitReads(u / 16 % 16);
    HexDigitReads(u % 16);
    FourDigits(u);
    assert t[6..] == x;
  }

  lemma PlainReads(u: CodeUnit, x: Text)
    requires u >= 0x20 && u != QUOTE && u != BACKSLASH
    ensures ReadText([u] + x) == Prepend(u, ReadText(x))
  {
    assert ([u] + x)[1..] == x;
  }

  lemma ShortEscapeReads(c: CodeUnit, x: Text)
    requires Escaped(c).Some?
    ensures ReadText([BACKSLASH, c] + x) == Prepend(Escaped(c).value, ReadText(x))
  {
    assert ([BACKSLASH, c] + x)[2..] == x;
  }

  lemma HeadReads(s: Text, x: Text)
    requires s != []
    ensures ReadText(EscapeHead(s) + x) ==
            if Width(s) == 2 then Prepend(s[0], Prepend(s[1], ReadText(x))) else Prepend(s[0], ReadText(x))
  {
    hide ReadText, HexValue, HexDigit;
    var t := EscapeHead(s);
    if Width(s) == 2 {
      assert t + x == [s[0]] + ([s[1]] + x);
      PlainReads(s[0], [s[1]] + x);
      PlainReads(s[1], x);
    } else if |t| == 6 {
      HexReads(s[0], x);
    } else if |t| == 2 {
      ShortEscapeReads(t[1], x);
    } else {
      PlainReads(s[0], x);
    }
  }

  /** Reading undoes escaping. */
  lemma {:induction false} EscapedTextReads(s: Text, x: Text)
    ensures ReadText(Closed(s, x)) == Read(s, x)
    decreases |s|
  {
    ClosedStep(s, x);
    if s == [] {
      assert ([QUOTE] + x)[1..] == x;
    } else {
      hide ReadText, Closed;
      var rest := s[Width(s)..];
      HeadReads(s, Closed(rest, x));
      EscapedTextReads(rest, x);
      assert Width(s) == 2 ==> s == [s[0]] + ([s[1]] + rest);
      assert Width(s) == 1 ==> s == [s[0]] + rest;
    }
  }

  lemma QuotedTextReads(s: Text, x: Text)
    ensures var t := Quote(s) + x; t[0] == QUOTE && ReadText(t[1..]) == Read(s, x)
  {
    assert (Quote(s) + x)[1..] == Closed(s, x);
    EscapedTextReads(s, x);
  }

  /**
    Escaping is minimal (RFC 8785, section 3.2.2.2): only quotes, backslashes, control characters
    and unpaired surrogates are escaped, in two characters where there is such an escape, and
    otherwise with four digits, hexadecimal letters in lower case.
   */
  lemma EscapeIsMinimal(u: CodeUnit)
    ensures var t := EscapeUnit(u);
            && (t == [u] <==> u >= 0x20 && u != '\"' as int && u != '\\' as int && !(0xD800 <= u <= 0xDFFF))
            && (|t| == 2 <==> u in {'\"' as int, '\\' as int, 8, 9, 10, 12, 13})
            && (|t| > 2 ==> |t| == 6 && forall k :: 2 <= k < 6 ==> '0' as int <= t[k] <= '9' as int || 'a' as int <= t[k] <= 'f' as int)
  {
  }

  // ---------- numbers ----------

  lemma {:induction false} NoLeadingZero(n: nat)
    ensures n > 0 ==> Digits(n)[0] != 48
    ensures n < 10 <==> |Digits(n)| == 1
  {
    if n >= 10 {
      NoLeadingZero(n / 10);
    }
  }

  lemma IntegerReads(n: int, x: Text)
    requires Ends(x)
    ensures ReadInteger(Integer(n) + x) == Read(Num(n), x)
  {
    var m := if n < 0 then -n else n;
    DigitsReadBack(m);
    NoLeadingZero(m);
    DigitsLead(Digits(m), x);
    IntegerStart(n, x);
    NoFraction(x);
    hide Digits, LeadingDigits, ValueOf, Ascii, AllDigits;
    var digits := Digits(m) + x;
    assert digits[..|Digits(m)|] == Digits(m) && digits[|Digits(m)|..] == x;
    var t := Integer(n) + x;
    assert n >= 0 ==> t == digits;
    assert n < 0 ==> t[1..] == digits;
  }

  lemma NoFraction(x: Text)
    requires Ends(x)
    ensures x != [] ==> x[0] !in Ascii(".eE")
  {
    assert forall u :: u in Ascii(".eE") ==> u == 46 || u == 101 || u == 69;
  }

  // ---------- values ----------

  lemma LiteralsReads(x: Text)
    ensures ReadValue(NULL_TEXT + x) == Read(Null, x)
    ensures ReadValue(TRUE_TEXT + x) == Read(Bool(true), x)
    ensures ReadValue(FALSE_TEXT + x) == Read(Bool(false), x)
  {
    hide ReadInteger, ReadText, ReadItems, ReadMembers;
    assert NULL_TEXT == Ascii("null") && TRUE_TEXT == Ascii("true") && FALSE_TEXT == Ascii("false");
    assert (NULL_TEXT + x)[..4] == NULL_TEXT && (NULL_TEXT + x)[4..] == x;
    assert (TRUE_TEXT + x)[..4] == TRUE_TEXT && (TRUE_TEXT + x)[4..] == x && (TRUE_TEXT + x)[0] != Ascii("null")[0];
    assert (FALSE_TEXT + x)[..5] == FALSE_TEXT && (FALSE_TEXT + x)[5..] == x;
    assert (FALSE_TEXT + x)[..4][0] != Ascii("null")[0] && (FALSE_TEXT + x)[..4][0] != Ascii("true")[0];
  }

  /** A text that starts with none of n, t, f is no literal. */
  lemma NoLiteral(t: Text)
    requires t != [] && t[0] != 110 && t[0] != 116 && t[0] != 102
    ensures !StartsWith(t, Ascii("null")) && !StartsWith(t, Ascii("true")) && !StartsWith(t, Ascii("false"))
  {
    assert |t| >= 4 ==> t[..4][0] == t[0];
    assert |t| >= 5 ==> t[..5][0] == t[0];
    assert Ascii("null")[0] == 110 && Ascii("true")[0] == 116 && Ascii("false")[0] == 102;
  }

  lemma NumberReads(n: int, x: Text)
    requires Ends(x)
    ensures ReadValue(Integer(n) + x) == Read(Num(n), x)
  {
    FirstUnit(Num(n), x);
    NoLiteral(Integer(n) + x);
    IntegerReads(n, x);
  }

  lemma StringReads(s: Text, x: Text)
    ensures ReadValue(Quote(s) + x) == Read(Str(s), x)
  {
    QuotedTextReads(s, x);
    NoLiteral(Quote(s) + x);
  }

  /** The reader reads a value's canonical text as an equal value, and stops where the text ends. */
  lemma {:induction false} SerializedReads(v: Json, x: Text)
    requires WellFormed(v) && Ends(x)
    ensures var r := ReadValue(Serialize(v) + x); r.Read? && r.rest == x && JsonEqual(v, r.value)
    decreases v, 1
  {
    match v
    case Null => LiteralsReads(x);
    case NonFinite => LiteralsReads(x);
    case Bool(b) => LiteralsReads(x);
    case Num(n) => NumberReads(n, x);
    case Str(s) => StringReads(s, x);
    case Arr(items) => ArrayReads(v, x);
    case Obj(members) => ObjectReads(v, x);
  }

  lemma {:induction false} ArrayReads(v: Json, x: Text)
    requires v.Arr? && WellFormed(v) && Ends(x)
    ensures var r := ReadValue(Serialize(v) + x); r.Read? && r.rest == x && JsonEqual(v, r.value)
    decreases v, 0, 1
  {
    var items, t := v.items, Serialize(v) + x;
    ArrayText(items, x);
    ItemsStep(items, x);
    ItemsAreWellFormed(v);
    hide Serialize, SerializeItems, ReadValue, ReadItems, ItemsText, JsonEqual, WellFormed;
    if items == [] {
      assert t[2..] == x;
      ArrayStart(t);
      ArraysEqual(v, []);
    } else {
      FirstUnit(items[0], AfterItem(items, x));
      ItemsRead(items, x);
      ArrayStart(t);
      ArraysEqual(v, ReadItems(t[1..]).value);
    }
  }

  lemma ItemsAreWellFormed(v: Json)
    requires v.Arr? && WellFormed(v)
    ensures forall i :: 0 <= i < |v.items| ==> WellFormed(v.items[i])
  {
  }

  lemma ArraysEqual(v: Json, read: seq<Json>)
    requires v.Arr? && |read| == |v.items| && forall i :: 0 <= i < |read| ==> JsonEqual(v.items[i], read[i])
    ensures JsonEqual(v, Arr(read))
  {
  }

  lemma ArrayText(items: seq<Json>, x: Text)
    ensures var t := Serialize(Arr(items)) + x; t == [LEFT_BRACKET] + ItemsText(items, x) && t[1..] == ItemsText(items, x)
  {
  }

  lemma ArrayStart(t: Text)
    requires |t| > 1 && t[0] == LEFT_BRACKET
    ensures t[1] == RIGHT_BRACKET ==> ReadValue(t) == Read(Arr([]), t[2..])
    ensures t[1] != RIGHT_BRACKET && ReadItems(t[1..]).Read? ==>
              ReadValue(t) == Read(Arr(ReadItems(t[1..]).value), ReadItems(t[1..]).rest)
  {
    NoLiteral(t);
    hide ReadInteger, ReadText, ReadItems, ReadMembers, StartsWith, Ascii;
  }

  lemma {:induction false} ItemsRead(items: seq<Json>, x: Text)
    requires items != [] && forall i :: 0 <= i < |items| ==> WellFormed(items[i])
    ensures var r := ReadItems(ItemsText(items, x));
            && r.Read? && r.rest == x && |r.value| == |items|
            && forall i :: 0 <= i < |items| ==> JsonEqual(items[i], r.value[i])
    decreases items, 0, 0
  {
    hide Serialize, SerializeItems, ItemsText, ReadValue;
    ItemsStep(items, x);
    SerializedReads(items[0], AfterItem(items, x));
    if |items| == 1 {
      assert AfterItem(items, x)[1..] == x;
    } else {
      assert AfterItem(items, x)[1..] == ItemsText(items[1..], x);
      ItemsRead(items[1..], x);
    }
  }

  lemma {:induction false} EntriesRead(v: Json, es: seq<Entry>, x: Text)
    requires v.Obj? && WellFormed(v) && es != [] && forall e :: e in es ==> Prints(e, v.members)
    ensures var r := ReadMembers(EntriesText(es, x));
            && r.Read? && r.rest == x && |r.value| == |es|
            && forall k :: 0 <= k < |es| ==> MemberRead(v, es[k].key, r.value[k])
    decreases v, 0, 1 + |es|
  {
    hide Serialize, EntriesText, EntryOf, ReadValue, ReadText, ReadMembers, JsonEqual, WellFormed, MemberRead;
    var after, value := FirstEntryReads(v, es, x);
    var t, end := EntriesText(es, x), AfterEntry(es, x);
    MemberStep(t, es[0].key, after, value, end);
    if |es| == 1 {
      assert end[1..] == x;
    } else {
      assert end[1..] == EntriesText(es[1..], x);
      EntriesRead(v, es[1..], x);
    }
  }

  lemma {:induction false} FirstEntryReads(v: Json, es: seq<Entry>, x: Text) returns (after: Text, value: Json)
    requires v.Obj? && WellFormed(v) && es != [] && forall e :: e in es ==> Prints(e, v.members)
    ensures var t := EntriesText(es, x);
            && t != [] && t[0] == QUOTE
            && ReadText(t[1..]) == Read(es[0].key, [COLON] + after)
            && ReadValue(after) == Read(value, AfterEntry(es, x))
            && MemberRead(v, es[0].key, Member(es[0].key, value))
    decreases v, 0, 0
  {
    hide Serialize, EntriesText, EntryOf, ReadValue, ReadText, JsonEqual, WellFormed;
    EntriesStep(es, x);
    assert es[0] in es;
    var i :| 0 <= i < |v.members| && es[0] == EntryOf(v.members[i]);
    var m := v.members[i];
    MemberIsWellFormed(v, i);
    EntryText(m, AfterEntry(es, x));
    EntryKey(m);
    after := Serialize(m.value) + AfterEntry(es, x);
    QuotedTextReads(m.key, [COLON] + after);
    SerializedReads(m.value, AfterEntry(es, x));
    value := ReadValue(after).value;
  }

  lemma MemberStep(t: Text, key: Text, after: Text, value: Json, end: Text)
    requires t != [] && t[0] == QUOTE && ReadText(t[1..]) == Read(key, [COLON] + after)
    requires ReadValue(after) == Read(value, end) && end != []
    ensures end[0] == RIGHT_BRACE ==> ReadMembers(t) == Read([Member(key, value)], end[1..])
    ensures end[0] == COMMA && ReadMembers(end[1..]).Read? ==>
              ReadMembers(t) == Read([Member(key, value)] + ReadMembers(end[1..]).value, ReadMembers(end[1..]).rest)
  {
    hide ReadText, ReadValue;
    assert ([COLON] + after)[1..] == after;
  }

  lemma EntryKey(m: Member)
    ensures EntryOf(m).key == m.key
  {
  }

  /** `read` is what a member of `v` with that key reads as. */
  ghost predicate MemberRead(v: Json, key: Text, read: Member)
    requires v.Obj?
  {
    read.key == key && exists i :: 0 <= i < |v.members| && v.members[i].key == key && JsonEqual(v.members[i].value, read.value)
  }

  lemma {:induction false} ObjectReads(v: Json, x: Text)
    requires v.Obj? && WellFormed(v) && Ends(x)
    ensures var r := ReadValue(Serialize(v) + x); r.Read? && r.rest == x && JsonEqual(v, r.value)
    decreases v, 1, 0
  {
    var es, t := SortByKey(Entries(v.members)), Serialize(v) + x;
    SortedEntries(v.members);
    assert t == [LEFT_BRACE] + EntriesText(es, x);
    assert t[1..] == EntriesText(es, x);
    FirstOfEntries(v.members, es, x);
    EntriesStep(es, x);
    if es == [] {
      assert t[2..] == x;
      ObjectStart(t);
    } else {
      hide Serialize, Entries, SortByKey, EntriesText, ReadValue, ReadMembers, JsonEqual, WellFormed, Prints;
      EntriesRead(v, es, x);
      ObjectStart(t);
      ReadMembersMatch(v, es, ReadMembers(EntriesText(es, x)).value);
    }
  }

  lemma ObjectStart(t: Text)
    requires |t| > 1 && t[0] == LEFT_BRACE
    ensures t[1] == RIGHT_BRACE ==> ReadValue(t) == Read(Obj([]), t[2..])
    ensures t[1] != RIGHT_BRACE && ReadMembers(t[1..]).Read? ==>
              ReadValue(t) == Read(Obj(ReadMembers(t[1..]).value), ReadMembers(t[1..]).rest)
  {
    NoLiteral(t);
    hide ReadInteger, ReadText, ReadItems, ReadMembers, StartsWith, Ascii;
  }

  lemma ReadMembersMatch(v: Json, es: seq<Entry>, read: seq<Member>)
    requires v.Obj? && WellFormed(v) && Sorted(es) && |read| == |es| && forall e :: e in es <==> Prints(e, v.members)
    requires forall k :: 0 <= k < |es| ==> MemberRead(v, es[k].key, read[k])
    ensures JsonEqual(v, Obj(read))
  {
    var ms := v.members;
    hide MemberRead;
    forall key ensures HasKey(ms, key) <==> HasKey(read, key) {
      SameKeysRead(v, es, read, key);
    }
    forall i, k | 0 <= i < |ms| && 0 <= k < |read| && ms[i].key == read[k].key
      ensures JsonEqual(ms[i].value, read[k].value)
    {
      TheMemberRead(v, es[k].key, read[k], i);
    }
  }

  lemma SameKeysRead(v: Json, es: seq<Entry>, read: seq<Member>, key: Text)
    requires v.Obj? && |read| == |es| && forall e :: e in es <==> Prints(e, v.members)
    requires forall k :: 0 <= k < |es| ==> MemberRead(v, es[k].key, read[k])
    ensures HasKey(v.members, key) <==> HasKey(read, key)
  {
    hide Serialize;
    KeysPrinted(v.members, es, key);
    if HasKey(read, key) {
      var k :| 0 <= k < |read| && read[k].key == key;
      assert MemberRead(v, es[k].key, read[k]);
    }
    if HasKey(v.members, key) {
      var e :| e in es && e.key == key;
      var k :| 0 <= k < |es| && es[k] == e;
      assert MemberRead(v, es[k].key, read[k]);
    }
  }

  lemma TheMemberRead(v: Json, key: Text, read: Member, i: nat)
    requires v.Obj? && WellFormed(v) && MemberRead(v, key, read) && i < |v.members| && v.members[i].key == read.key
    ensures JsonEqual(v.members[i].value, read.value)
  {
  }

  /** The round trip: a value's canonical text reads as that value, and nothing is left over. */
  lemma CanonicalTextReads(v: Json)
    requires WellFormed(v)
    ensures var r := ReadValue(Serialize(v)); r.Read? && r.rest == [] && JsonEqual(v, r.value)
  {
    SerializedReads(v, []);
    assert Serialize(v) + [] == Serialize(v);
  }
}
