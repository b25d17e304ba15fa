/** Two well-formed values have the same canonical text exactly when they are the same JSON value. */
module JcsProofs {
  import opened Jcs

  /** What can follow a value's text inside a larger text: a comma, a closing bracket or brace, or nothing. */
  predicate Ends(t: Text) {
    t == [] || t[0] == COMMA || t[0] == RIGHT_BRACKET || t[0] == RIGHT_BRACE
  }

  lemma SamePrefix(a: Text, b: Text, x: Text, y: Text)
    requires a + x == b + y && |a| == |b|
    ensures a == b && x == y
  {
    assert a == (a + x)[..|a|] == b;
    assert x == (a + x)[|a|..] == y;
  }

  // ---------- numbers ----------

  predicate IsDigit(u: CodeUnit) {
    48 <= u <= 57
  }

  predicate AllDigits(t: Text) {
    forall i :: 0 <= i < |t| ==> IsDigit(t[i])
  }

  function ValueOf(t: Text): int {
    if t == [] then 0 else 10 * ValueOf(t[..|t| - 1]) + (t[|t| - 1] as int - 48)
  }

  lemma {:induction false} DigitsReadBack(n: nat)
    ensures AllDigits(Digits(n)) && ValueOf(Digits(n)) == n
  {
    if n < 10 {
      assert ValueOf([48 + n]) == 10 * ValueOf([48 + n][..0]) + n;
    } else {
      DigitsReadBack(n / 10);
      var t := Digits(n);
      assert t[..|t| - 1] == Digits(n / 10);
    }
  }

  function LeadingDigits(t: Text): nat {
    if t == [] || !IsDigit(t[0]) then 0 else 1 + LeadingDigits(t[1..])
  }

  lemma {:induction false} DigitsLead(a: Text, x: Text)
    requires AllDigits(a) && Ends(x)
    ensures LeadingDigits(a + x) == |a|
  {
    if a == [] {
      assert a + x == x;
    } else {
      assert (a + x)[1..] == a[1..] + x;
      DigitsLead(a[1..], x);
    }
  }

  lemma DigitsStop(a: Text, b: Text, x: Text, y: Text)
    requires AllDigits(a) && AllDigits(b) && Ends(x) && Ends(y) && a + x == b + y
    ensures a == b && x == y
  {
    DigitsLead(a, x);
    DigitsLead(b, y);
    SamePrefix(a, b, x, y);
  }

  lemma IntegerStart(n: int, x: Text)
    ensures (Integer(n) + x)[0] == MINUS <==> n < 0
    ensures n < 0 ==> (Integer(n) + x)[1..] == Digits(-n) + x
  {
    DigitsReadBack(if n < 0 then -n else n);
    if n >= 0 {
      assert IsDigit(Digits(n)[0]);
      assert (Integer(n) + x)[0] == Digits(n)[0];
    } else {
      assert Integer(n) == [MINUS] + Digits(-n);
      assert [MINUS] + Digits(-n) + x == [MINUS] + (Digits(-n) + x);
    }
  }

  lemma IntegerIsReadBack(m: int, n: int, x: Text, y: Text)
    requires Ends(x) && Ends(y) && Integer(m) + x == Integer(n) + y
    ensures m == n && x == y
  {
    IntegerStart(m, x);
    IntegerStart(n, y);
    var a := if m < 0 then -m else m;
    var b := if n < 0 then -n else n;
    DigitsReadBack(a);
    DigitsReadBack(b);
    DigitsStop(Digits(a), Digits(b), x, y);
  }

  // ---------- strings ----------

  lemma HexIsReadBack(u: CodeUnit, v: CodeUnit)
    requires Hex(u) == Hex(v)
    ensures u == v
  {
    assert Hex(u)[0] == Hex(v)[0] && Hex(u)[1] == Hex(v)[1] && Hex(u)[2] == Hex(v)[2] && Hex(u)[3] == Hex(v)[3];
    HexDigitIsReadBack(u / 4096, v / 4096);
    HexDigitIsReadBack(u / 256 % 16, v / 256 % 16);
    HexDigitIsReadBack(u / 16 % 16, v / 16 % 16);
    HexDigitIsReadBack(u % 16, v % 16);
    FourDigits(u);
    FourDigits(v);
  }

  lemma HexDigitIsReadBack(c: nat, d: nat)
    requires c < 16 && d < 16 && HexDigit(c) == HexDigit(d)
    ensures c == d
  {
  }

  lemma FourDigits(u: CodeUnit)
    ensures u == 4096 * (u / 4096) + 256 * (u / 256 % 16) + 16 * (u / 16 % 16) + u % 16
  {
    ShiftDigit(u, 16);
    ShiftDigit(u, 256);
  }

  lemma ShiftDigit(u: nat, d: nat)
    requires d == 16 || d == 256
    ensures u / d == 16 * (u / (16 * d)) + u / d % 16
  {
    assert u == d * (u / d) + u % d;
    assert u / d == 16 * (u / d / 16) + u / d % 16;
    assert u / d / 16 == u / (16 * d);
  }

  /** Escaped units start with a backslash, all others do not, and none starts with a quote. */
  lemma HeadStart(s: Text)
    requires s != []
    ensures EscapeHead(s)[0] != QUOTE
    ensures Width(s) == 2 ==> EscapeHead(s)[0] == s[0]
    ensures EscapeHead(s)[0] == BACKSLASH <==> |EscapeHead(s)| != Width(s)
    ensures EscapeHead(s)[0] == BACKSLASH ==> |EscapeHead(s)| == (if EscapeHead(s)[1] == 117 then 6 else 2)
  {
  }

  lemma EscapeUnitIsReadBack(u: CodeUnit, v: CodeUnit)
    requires EscapeUnit(u) == EscapeUnit(v)
    ensures u == v
  {
    var a := EscapeUnit(u);
    if |a| == 6 {
      assert a[2..] == Hex(u) && a[2..] == Hex(v);
      HexIsReadBack(u, v);
    } else if |a| == 2 {
      assert a[1] == EscapeUnit(v)[1];
    } else {
      assert a[0] == EscapeUnit(v)[0];
    }
  }

  lemma HeadIsReadBack(s: Text, t: Text, x: Text, y: Text)
    requires s != [] && t != [] && EscapeHead(s) + x == EscapeHead(t) + y
    ensures Width(s) == Width(t) && s[..Width(s)] == t[..Width(t)] && x == y
  {
    var a, b := EscapeHead(s), EscapeHead(t);
    HeadStart(s);
    HeadStart(t);
    assert (a + x)[0] == a[0] && (b + y)[0] == b[0];
    if a[0] == BACKSLASH {
      assert (a + x)[1] == a[1] && (b + y)[1] == b[1];
    }
    assert |a| == |b|;
    SamePrefix(a, b, x, y);
    if Width(s) == 1 {
      EscapeUnitIsReadBack(s[0], t[0]);
      assert s[..1] == [s[0]] && t[..1] == [t[0]];
    }
  }

  /** An escaped string with its closing quote and what follows. */
  function Closed(s: Text, x: Text): Text {
    Escape(s) + [QUOTE] + x
  }

  lemma ClosedStep(s: Text, x: Text)
    ensures s == [] ==> Closed(s, x) == [QUOTE] + x
    ensures s != [] ==> Closed(s, x) == EscapeHead(s) + Closed(s[Width(s)..], x) && Closed(s, x)[0] != QUOTE
  {
    if s != [] {
      HeadStart(s);
      var rest := Escape(s[Width(s)..]);
      assert EscapeHead(s) + rest + [QUOTE] + x == EscapeHead(s) + (rest + [QUOTE] + x);
    }
  }

  /** An escaped string ends at the first quote that is not escaped. */
  lemma {:induction false} EscapeIsReadBack(s: Text, t: Text, x: Text, y: Text)
    requires Closed(s, x) == Closed(t, y)
    ensures s == t && x == y
    decreases |s|
  {
    hide Closed;
    ClosedStep(s, x);
    ClosedStep(t, y);
    if s == [] {
      SamePrefix([QUOTE], [QUOTE], x, y);
    } else {
      var s', t' := s[Width(s)..], t[Width(t)..];
      HeadIsReadBack(s, t, Closed(s', x), Closed(t', y));
      EscapeIsReadBack(s', t', x, y);
      assert s == s[..Width(s)] + s' && t == t[..Width(t)] + t';
    }
  }

  lemma QuoteIsReadBack(s: Text, t: Text, x: Text, y: Text)
    requires Quote(s) + x == Quote(t) + y
    ensures s == t && x == y
  {
    assert Quote(s) + x == [QUOTE] + Closed(s, x);
    assert Quote(t) + y == [QUOTE] + Closed(t, y);
    SamePrefix([QUOTE], [QUOTE], Closed(s, x), Closed(t, y));
    EscapeIsReadBack(s, t, x, y);
  }

  // ---------- sorting ----------

  predicate Sorted(es: seq<Entry>) {
    forall i, j :: 0 <= i < j < |es| ==> Before(es[i].key, es[j].key)
  }

  lemma {:induction false} BeforeIsTransitive(a: Text, b: Text, c: Text)
    requires Before(a, b) && Before(b, c)
    ensures Before(a, c)
  {
    if a != [] && a[0] == b[0] == c[0] {
      BeforeIsTransitive(a[1..], b[1..], c[1..]);
    }
  }

  lemma {:induction false} BeforeIsTotal(a: Text, b: Text)
    ensures a == b || Before(a, b) || Before(b, a)
  {
    if a != [] && b != [] && a[0] == b[0] {
      BeforeIsTotal(a[1..], b[1..]);
      assert a == [a[0]] + a[1..] && b == [b[0]] + b[1..];
    }
  }

  lemma {:induction false} BeforeIsStrict(a: Text)
    ensures !Before(a, a)
  {
    if a != [] {
      BeforeIsStrict(a[1..]);
    }
  }

  /** One text is before another exactly when it is a proper prefix of it, or has the smaller unit where they first differ. */
  lemma {:induction false} BeforeIsCodeUnitOrder(a: Text, b: Text)
    ensures Before(a, b) <==> exists k :: 0 <= k < |b| && FirstDiffersAt(a, b, k)
  {
    if a != [] && b != [] && a[0] == b[0] {
      BeforeIsCodeUnitOrder(a[1..], b[1..]);
      forall k | 0 <= k < |b| - 1 ensures FirstDiffersAt(a[1..], b[1..], k) <==> FirstDiffersAt(a, b, k + 1) {
        if k < |a| {
          assert a[..k + 1] == [a[0]] + a[1..][..k] && b[..k + 1] == [b[0]] + b[1..][..k];
          assert FirstDiffersAt(a, b, k + 1) ==> a[1..][..k] == a[..k + 1][1..] == b[..k + 1][1..] == b[1..][..k];
        }
      }
      if k :| 0 <= k < |b| && FirstDiffersAt(a, b, k) {
        assert k > 0 && FirstDiffersAt(a[1..], b[1..], k - 1);
      }
    } else if b != [] {
      assert a[..0] == b[..0];
      if k :| 0 <= k < |b| && FirstDiffersAt(a, b, k) && k > 0 {
        assert a[..k][0] == b[..k][0];
      }
      assert Before(a, b) ==> FirstDiffersAt(a, b, 0);
    }
  }

  predicate FirstDiffersAt(a: Text, b: Text, k: nat)
    requires k < |b|
  {
    k <= |a| && a[..k] == b[..k] && (k == |a| || a[k] < b[k])
  }

  lemma {:induction false} InsertMembers(e: Entry, es: seq<Entry>)
    ensures |Insert(e, es)| == |es| + 1
    ensures forall x :: x in Insert(e, es) <==> x == e || x in es
  {
    if es == [] || Before(e.key, es[0].key) {
    } else {
      InsertMembers(e, es[1..]);
      assert es == [es[0]] + es[1..];
    }
  }

  lemma {:induction false} InsertKeepsSorted(e: Entry, es: seq<Entry>)
    requires Sorted(es) && forall x :: x in es ==> x.key != e.key
    ensures Sorted(Insert(e, es))
  {
    var r := Insert(e, es);
    if es == [] {
    } else if Before(e.key, es[0].key) {
      forall j | 0 < j < |r| ensures Before(e.key, r[j].key) {
        if j > 1 { BeforeIsTransitive(e.key, es[0].key, es[j - 1].key); }
      }
    } else {
      var rest := Insert(e, es[1..]);
      InsertKeepsSorted(e, es[1..]);
      InsertMembers(e, es[1..]);
      assert es[0] in es;
      BeforeIsTotal(es[0].key, e.key);
      forall j | 0 < j < |r| ensures Before(r[0].key, r[j].key) {
        assert r[j] in rest;
        if r[j] != e {
          var k :| 0 <= k < |es[1..]| && es[1..][k] == r[j];
          assert Before(es[0].key, es[k + 1].key);
        }
      }
    }
  }

  predicate DistinctEntries(es: seq<Entry>) {
    forall i, j :: 0 <= i < j < |es| ==> es[i].key != es[j].key
  }

  lemma {:induction false} SortIsRight(es: seq<Entry>)
    requires DistinctEntries(es)
    ensures Sorted(SortByKey(es)) && |SortByKey(es)| == |es|
    ensures forall x :: x in SortByKey(es) <==> x in es
  {
    if es != [] {
      var rest := es[1..];
      assert es == [es[0]] + rest;
      SortIsRight(rest);
      InsertMembers(es[0], SortByKey(rest));
      forall x | x in SortByKey(rest) ensures x.key != es[0].key {
        assert x in rest;
        var k :| 0 <= k < |rest| && rest[k] == x;
        assert es[k + 1] == x;
      }
      InsertKeepsSorted(es[0], SortByKey(rest));
    }
  }

  /** There is only one way to put given entries in key order. */
  lemma {:induction false} SortedIsUnique(a: seq<Entry>, b: seq<Entry>)
    requires Sorted(a) && Sorted(b) && forall x :: x in a <==> x in b
    ensures a == b
  {
    assert b == [] || b[0] in a;
    if a != [] {
      assert a[0] in b;
      assert b != [];
      assert b[0] in a;
      var i :| 0 <= i < |b| && b[i] == a[0];
      var j :| 0 <= j < |a| && a[j] == b[0];
      if i > 0 && j > 0 {
        BeforeIsTransitive(a[0].key, b[0].key, a[0].key);
        BeforeIsStrict(a[0].key);
      }
      assert a[0] == b[0];
      BeforeIsStrict(a[0].key);
      forall x ensures x in a[1..] <==> x in b[1..] {
        if x in a[1..] {
          assert x in b;
          assert x != a[0];
        }
        if x in b[1..] {
          assert x in a;
          assert x != b[0];
        }
      }
      SortedIsUnique(a[1..], b[1..]);
    }
  }

  // ---------- values ----------

  /** `e` is the entry printed for some member. */
  predicate Prints(e: Entry, members: seq<Member>) {
    exists i :: 0 <= i < |members| && e == EntryOf(members[i])
  }

  function EntryOf(m: Member): Entry {
    Entry(m.key, Quote(m.key) + [COLON] + Serialize(m.value))
  }

  lemma {:induction false} EntriesAt(members: seq<Member>)
    ensures |Entries(members)| == |members|
    ensures forall i :: 0 <= i < |members| ==> Entries(members)[i] == EntryOf(members[i])
  {
    if members != [] {
      EntriesAt(members[1..]);
    }
  }

  lemma SortedEntries(members: seq<Member>)
    requires DistinctKeys(members)
    ensures var es := SortByKey(Entries(members));
            && Sorted(es) && |es| == |members|
            && (forall e :: e in es <==> Prints(e, members))
  {
    EntriesAt(members);
    SortIsRight(Entries(members));
    forall e ensures e in Entries(members) <==> Prints(e, members) {
      if Prints(e, members) {
        var i :| 0 <= i < |members| && e == EntryOf(members[i]);
        assert Entries(members)[i] == e;
      }
    }
  }

  /** The first code unit of a text tells which kind of value it is. */
  function Kind(v: Json): nat {
    match v
    case Null => 0
    case NonFinite => 0
    case Bool(b) => if b then 1 else 2
    case Num(_) => 3
    case Str(_) => 4
    case Arr(_) => 5
    case Obj(_) => 6
  }

  function KindOf(u: CodeUnit): nat {
    if u == 110 then 0 else if u == 116 then 1 else if u == 102 then 2
    else if u == MINUS || IsDigit(u) then 3 else if u == QUOTE then 4
    else if u == LEFT_BRACKET then 5 else if u == LEFT_BRACE then 6 else 7
  }

  lemma FirstUnit(v: Json, x: Text)
    ensures Serialize(v) != [] && KindOf((Serialize(v) + x)[0]) == Kind(v)
  {
    match v
    case Num(n) =>
      DigitsReadBack(if n < 0 then -n else n);
      IntegerStart(n, x);
      if n >= 0 {
        assert IsDigit(Digits(n)[0]);
        assert (Integer(n) + x)[0] == Digits(n)[0];
      }
    case Str(s) => assert (Quote(s) + x)[0] == QUOTE;
    case _ =>
  }

  /**
    A value's text can be told from what follows it, and gives back the value: if two texts,
    each followed by something that ends a value, are equal, the values are the same and so
    is what follows.
   */
  lemma {:induction false} TextIsReadBack(v: Json, w: Json, x: Text, y: Text)
    requires WellFormed(v) && WellFormed(w) && Ends(x) && Ends(y)
    requires Serialize(v) + x == Serialize(w) + y
    ensures JsonEqual(v, w) && x == y
    decreases v, 2, 0
  {
    FirstUnit(v, x);
    FirstUnit(w, y);
    match v
    case Null => SamePrefix(NULL_TEXT, NULL_TEXT, x, y);
    case NonFinite => SamePrefix(NULL_TEXT, NULL_TEXT, x, y);
    case Bool(b) => SamePrefix(Serialize(v), Serialize(w), x, y);
    case Num(n) => IntegerIsReadBack(n, w.n, x, y);
    case Str(s) => QuoteIsReadBack(s, w.s, x, y);
    case Arr(items) => ArrayIsReadBack(v, w, x, y);
    case Obj(members) => ObjectIsReadBack(v, w, x, y);
  }

  lemma {:induction false} ArrayIsReadBack(v: Json, w: Json, x: Text, y: Text)
    requires WellFormed(v) && WellFormed(w) && v.Arr? && w.Arr?
    requires Serialize(v) + x == Serialize(w) + y
    ensures JsonEqual(v, w) && x == y
    decreases v, 1, 0
  {
    assert Serialize(v) + x == [LEFT_BRACKET] + ItemsText(v.items, x);
    assert Serialize(w) + y == [LEFT_BRACKET] + ItemsText(w.items, y);
    SamePrefix([LEFT_BRACKET], [LEFT_BRACKET], ItemsText(v.items, x), ItemsText(w.items, y));
    ItemsAreReadBack(v.items, w.items, x, y);
  }

  lemma {:induction false} ObjectIsReadBack(v: Json, w: Json, x: Text, y: Text)
    requires WellFormed(v) && WellFormed(w) && v.Obj? && w.Obj?
    requires Serialize(v) + x == Serialize(w) + y
    ensures JsonEqual(v, w) && x == y
    decreases v, 1, 0
  {
    var es, fs := SortByKey(Entries(v.members)), SortByKey(Entries(w.members));
    assert Serialize(v) + x == [LEFT_BRACE] + EntriesText(es, x);
    assert Serialize(w) + y == [LEFT_BRACE] + EntriesText(fs, y);
    SamePrefix([LEFT_BRACE], [LEFT_BRACE], EntriesText(es, x), EntriesText(fs, y));
    SortedEntries(v.members);
    SortedEntries(w.members);
    EntriesAreReadBack(v, w, es, fs, x, y);
    SameEntriesSameObject(v, w);
  }

  /** An array's text from its first item on, closing bracket included. */
  function ItemsText(items: seq<Json>, x: Text): Text {
    SerializeItems(items) + ([RIGHT_BRACKET] + x)
  }

  function AfterItem(items: seq<Json>, x: Text): (t: Text)
    requires items != []
    ensures Ends(t)
  {
    if |items| == 1 then [RIGHT_BRACKET] + x else [COMMA] + ItemsText(items[1..], x)
  }

  lemma ItemsStep(items: seq<Json>, x: Text)
    ensures items == [] ==> ItemsText(items, x) == [RIGHT_BRACKET] + x
    ensures items != [] ==> ItemsText(items, x) == Serialize(items[0]) + AfterItem(items, x)
  {
    if |items| > 1 {
      var first, rest := Serialize(items[0]), SerializeItems(items[1..]);
      assert (first + [COMMA] + rest) + ([RIGHT_BRACKET] + x) == first + ([COMMA] + (rest + ([RIGHT_BRACKET] + x)));
    }
  }

  lemma {:induction false} ItemsAreReadBack(items: seq<Json>, others: seq<Json>, x: Text, y: Text)
    requires forall i :: 0 <= i < |items| ==> WellFormed(items[i])
    requires forall i :: 0 <= i < |others| ==> WellFormed(others[i])
    requires ItemsText(items, x) == ItemsText(others, y)
    ensures |items| == |others| && x == y
    ensures forall i :: 0 <= i < |items| ==> JsonEqual(items[i], others[i])
    decreases items, 0, 0
  {
    ItemsStep(items, x);
    ItemsStep(others, y);
    if items != [] { FirstUnit(items[0], AfterItem(items, x)); }
    if others != [] { FirstUnit(others[0], AfterItem(others, y)); }
    assert items == [] <==> others == [];
    if items == [] {
      SamePrefix([RIGHT_BRACKET], [RIGHT_BRACKET], x, y);
    } else {
      TextIsReadBack(items[0], others[0], AfterItem(items, x), AfterItem(others, y));
      assert AfterItem(items, x)[0] == AfterItem(others, y)[0];
      if |items| == 1 {
        SamePrefix([RIGHT_BRACKET], [RIGHT_BRACKET], x, y);
      } else {
        SamePrefix([COMMA], [COMMA], ItemsText(items[1..], x), ItemsText(others[1..], y));
        ItemsAreReadBack(items[1..], others[1..], x, y);
      }
    }
  }

  function EntriesText(es: seq<Entry>, x: Text): Text {
    JoinEntries(es) + ([RIGHT_BRACE] + x)
  }

  function AfterEntry(es: seq<Entry>, x: Text): (t: Text)
    requires es != []
    ensures Ends(t)
  {
    if |es| == 1 then [RIGHT_BRACE] + x else [COMMA] + EntriesText(es[1..], x)
  }

  lemma EntriesStep(es: seq<Entry>, x: Text)
    ensures es == [] ==> EntriesText(es, x) == [RIGHT_BRACE] + x
    ensures es != [] ==> EntriesText(es, x) == es[0].text + AfterEntry(es, x)
  {
    if |es| > 1 {
      var first, rest := es[0].text, JoinEntries(es[1..]);
      assert (first + [COMMA] + rest) + ([RIGHT_BRACE] + x) == first + ([COMMA] + (rest + ([RIGHT_BRACE] + x)));
    }
  }

  lemma EntryText(m: Member, x: Text)
    ensures EntryOf(m).text + x == Quote(m.key) + ([COLON] + (Serialize(m.value) + x))
    ensures (EntryOf(m).text + x)[0] == QUOTE
  {
  }

  lemma {:induction false} EntryIsReadBack(v: Json, m: Member, n: Member, x: Text, y: Text)
    requires m.value < v && WellFormed(m.value) && WellFormed(n.value) && Ends(x) && Ends(y)
    requires EntryOf(m).text + x == EntryOf(n).text + y
    ensures EntryOf(m) == EntryOf(n) && x == y && JsonEqual(m.value, n.value)
    decreases v, 0, 0
  {
    EntryText(m, x);
    EntryText(n, y);
    QuoteIsReadBack(m.key, n.key, [COLON] + (Serialize(m.value) + x), [COLON] + (Serialize(n.value) + y));
    SamePrefix([COLON], [COLON], Serialize(m.value) + x, Serialize(n.value) + y);
    TextIsReadBack(m.value, n.value, x, y);
    SamePrefix(Serialize(m.value), Serialize(n.value), x, y);
  }

  lemma FirstOfEntries(members: seq<Member>, es: seq<Entry>, x: Text)
    requires forall e :: e in es ==> Prints(e, members)
    ensures EntriesText(es, x) != [] && (EntriesText(es, x)[0] == QUOTE <==> es != [])
  {
    hide Serialize;
    EntriesStep(es, x);
    if es != [] {
      assert es[0] in es;
      var i :| 0 <= i < |members| && es[0] == EntryOf(members[i]);
      EntryText(members[i], AfterEntry(es, x));
    }
  }

  lemma MemberIsWellFormed(v: Json, i: nat)
    requires v.Obj? && WellFormed(v) && i < |v.members|
    ensures v.members[i].value < v && WellFormed(v.members[i].value)
  {
  }

  lemma {:induction false} EntriesAreReadBack(v: Json, w: Json, es: seq<Entry>, fs: seq<Entry>, x: Text, y: Text)
    requires v.Obj? && w.Obj? && WellFormed(v) && WellFormed(w)
    requires forall e :: e in es ==> Prints(e, v.members)
    requires forall f :: f in fs ==> Prints(f, w.members)
    requires EntriesText(es, x) == EntriesText(fs, y)
    ensures es == fs && x == y
    decreases v, 0, 1 + |es|
  {
    hide Serialize, JsonEqual, WellFormed, EntriesText, EntryOf;
    EntriesStep(es, x);
    EntriesStep(fs, y);
    FirstOfEntries(v.members, es, x);
    FirstOfEntries(w.members, fs, y);
    assert es == [] <==> fs == [];
    if es == [] {
      SamePrefix([RIGHT_BRACE], [RIGHT_BRACE], x, y);
    } else {
      assert es[0] in es && fs[0] in fs;
      var i :| 0 <= i < |v.members| && es[0] == EntryOf(v.members[i]);
      var j :| 0 <= j < |w.members| && fs[0] == EntryOf(w.members[j]);
      MemberIsWellFormed(v, i);
      MemberIsWellFormed(w, j);
      EntryIsReadBack(v, v.members[i], w.members[j], AfterEntry(es, x), AfterEntry(fs, y));
      assert AfterEntry(es, x)[0] == AfterEntry(fs, y)[0];
      if |es| == 1 {
        SamePrefix([RIGHT_BRACE], [RIGHT_BRACE], x, y);
      } else {
        SamePrefix([COMMA], [COMMA], EntriesText(es[1..], x), EntriesText(fs[1..], y));
        EntriesAreReadBack(v, w, es[1..], fs[1..], x, y);
        assert es == [es[0]] + es[1..] && fs == [fs[0]] + fs[1..];
      }
    }
  }

  lemma {:induction false} SameEntriesSameObject(v: Json, w: Json)
    requires v.Obj? && w.Obj? && WellFormed(v) && WellFormed(w)
    requires SortByKey(Entries(v.members)) == SortByKey(Entries(w.members))
    ensures JsonEqual(v, w)
    decreases v, 0, 1
  {
    var ms, ns := v.members, w.members;
    var es := SortByKey(Entries(ms));
    SortedEntries(ms);
    SortedEntries(ns);
    forall key ensures HasKey(ms, key) <==> HasKey(ns, key) {
      KeysPrinted(ms, es, key);
      KeysPrinted(ns, es, key);
    }
    forall i, j | 0 <= i < |ms| && 0 <= j < |ns| && ms[i].key == ns[j].key
      ensures JsonEqual(ms[i].value, ns[j].value)
    {
      assert Prints(EntryOf(ms[i]), ms) && Prints(EntryOf(ns[j]), ns);
      OneEntryPerKey(es, EntryOf(ms[i]), EntryOf(ns[j]));
      EntryIsReadBack(v, ms[i], ns[j], [], []);
    }
  }

  lemma KeysPrinted(members: seq<Member>, es: seq<Entry>, key: Text)
    requires forall e :: e in es <==> Prints(e, members)
    ensures HasKey(members, key) <==> exists e :: e in es && e.key == key
  {
    if HasKey(members, key) {
      var i :| 0 <= i < |members| && members[i].key == key;
      assert Prints(EntryOf(members[i]), members);
      assert EntryOf(members[i]) in es;
    }
  }

  lemma OneEntryPerKey(es: seq<Entry>, e: Entry, f: Entry)
    requires Sorted(es) && e in es && f in es && e.key == f.key
    ensures e == f
  {
    BeforeIsStrict(e.key);
    var i :| 0 <= i < |es| && es[i] == e;
    var j :| 0 <= j < |es| && es[j] == f;
  }

  /** The other direction: what a value's text does not show is the order of members, and no more. */
  lemma {:induction false} EqualValuesSameText(v: Json, w: Json)
    requires WellFormed(v) && WellFormed(w) && JsonEqual(v, w)
    ensures Serialize(v) == Serialize(w)
    decreases v, 1
  {
    match v
    case Arr(items) => EqualItemsSameText(items, w.items);
    case Obj(members) =>
      SortedEntries(members);
      SortedEntries(w.members);
      forall e ensures Prints(e, members) <==> Prints(e, w.members) {
        EqualMembersPrintAlike(v, w, e);
      }
      SortedIsUnique(SortByKey(Entries(members)), SortByKey(Entries(w.members)));
    case _ =>
  }

  lemma {:induction false} EqualItemsSameText(items: seq<Json>, others: seq<Json>)
    requires |items| == |others|
    requires forall i :: 0 <= i < |items| ==> WellFormed(items[i]) && WellFormed(others[i]) && JsonEqual(items[i], others[i])
    ensures SerializeItems(items) == SerializeItems(others)
    decreases items, 0
  {
    if items != [] {
      EqualValuesSameText(items[0], others[0]);
      EqualItemsSameText(items[1..], others[1..]);
    }
  }

  lemma {:induction false} EqualMembersPrintAlike(v: Json, w: Json, e: Entry)
    requires v.Obj? && w.Obj? && WellFormed(v) && WellFormed(w) && JsonEqual(v, w)
    ensures Prints(e, v.members) <==> Prints(e, w.members)
    decreases v, 0
  {
    var ms, ns := v.members, w.members;
    if Prints(e, ms) {
      var i :| 0 <= i < |ms| && e == EntryOf(ms[i]);
      assert HasKey(ms, ms[i].key);
      var j :| 0 <= j < |ns| && ns[j].key == ms[i].key;
      EqualValuesSameText(ms[i].value, ns[j].value);
      assert e == EntryOf(ns[j]);
    }
    if Prints(e, ns) {
      var j :| 0 <= j < |ns| && e == EntryOf(ns[j]);
      assert HasKey(ns, ns[j].key);
      var i :| 0 <= i < |ms| && ms[i].key == ns[j].key;
      EqualValuesSameText(ms[i].value, ns[j].value);
      assert e == EntryOf(ms[i]);
    }
  }

  /**
    The serializer is canonical: two values print alike exactly when they are the same JSON
    value, whatever the insertion order of their members at any depth.
   */
  lemma SerializeIsCanonical(v: Json, w: Json)
    requires WellFormed(v) && WellFormed(w)
    ensures Serialize(v) == Serialize(w) <==> JsonEqual(v, w)
  {
    if Serialize(v) == Serialize(w) {
      TextIsReadBack(v, w, [], []);
    }
    if JsonEqual(v, w) {
      EqualValuesSameText(v, w);
    }
  }

  // ---------- the text is well-formed UTF-16 ----------

  /** No surrogate without its partner. */
  predicate Paired(t: Text) {
    t == [] ||
    (if IsHigh(t[0]) then |t| >= 2 && IsLow(t[1]) && Paired(t[2..])
     else !IsLow(t[0]) && Paired(t[1..]))
  }

  lemma {:induction false} PairedConcat(a: Text, b: Text)
    requires Paired(a) && Paired(b)
    ensures Paired(a + b)
    decreases |a|
  {
    if a == [] {
      assert a + b == b;
    } else if IsHigh(a[0]) {
      assert (a + b)[2..] == a[2..] + b;
      PairedConcat(a[2..], b);
    } else {
      assert (a + b)[1..] == a[1..] + b;
      PairedConcat(a[1..], b);
    }
  }

  lemma {:induction false} PlainIsPaired(t: Text)
    requires forall i :: 0 <= i < |t| ==> !IsHigh(t[i]) && !IsLow(t[i])
    ensures Paired(t)
  {
    if t != [] {
      PlainIsPaired(t[1..]);
    }
  }

  lemma {:induction false} EscapeIsPaired(s: Text)
    ensures Paired(Escape(s))
    decreases |s|
  {
    if s != [] {
      var head := EscapeHead(s);
      if Width(s) == 2 {
        assert head == s[..2] && head[2..] == [];
      } else {
        PlainIsPaired(head);
      }
      EscapeIsPaired(s[Width(s)..]);
      PairedConcat(head, Escape(s[Width(s)..]));
    }
  }

  lemma QuoteIsPaired(s: Text)
    ensures Paired(Quote(s))
  {
    EscapeIsPaired(s);
    PlainIsPaired([QUOTE]);
    PairedConcat([QUOTE], Escape(s));
    PairedConcat([QUOTE] + Escape(s), [QUOTE]);
  }

  lemma Wrap(open: CodeUnit, a: Text, close: CodeUnit)
    requires Paired(a) && open < 0xD800 && close < 0xD800
    ensures Paired([open] + a + [close])
  {
    PlainIsPaired([open]);
    PlainIsPaired([close]);
    PairedConcat([open], a);
    PairedConcat([open] + a, [close]);
  }

  lemma Comma(a: Text, sep: CodeUnit, b: Text)
    requires Paired(a) && Paired(b) && sep < 0xD800
    ensures Paired(a + [sep] + b)
  {
    PlainIsPaired([sep]);
    PairedConcat(a, [sep]);
    PairedConcat(a + [sep], b);
  }

  /** Whatever strings a value holds, its text can be encoded in UTF-8 without loss. */
  lemma {:induction false} SerializeIsPaired(v: Json)
    ensures Paired(Serialize(v))
    decreases v, 1
  {
    match v
    case Num(n) =>
      DigitsReadBack(if n < 0 then -n else n);
      PlainIsPaired(Integer(n));
    case Str(s) => QuoteIsPaired(s);
    case Arr(items) =>
      ItemsArePaired(items);
      Wrap(LEFT_BRACKET, SerializeItems(items), RIGHT_BRACKET);
    case Obj(members) =>
      EntriesArePaired(members);
      SortKeepsPaired(Entries(members));
      JoinIsPaired(SortByKey(Entries(members)));
      Wrap(LEFT_BRACE, JoinEntries(SortByKey(Entries(members))), RIGHT_BRACE);
    case _ => PlainIsPaired(Serialize(v));
  }

  lemma {:induction false} ItemsArePaired(items: seq<Json>)
    ensures Paired(SerializeItems(items))
    decreases items, 0
  {
    if items != [] {
      SerializeIsPaired(items[0]);
      ItemsArePaired(items[1..]);
      Comma(Serialize(items[0]), COMMA, SerializeItems(items[1..]));
    }
  }

  predicate AllPaired(es: seq<Entry>) {
    forall i :: 0 <= i < |es| ==> Paired(es[i].text)
  }

  lemma {:induction false} EntriesArePaired(members: seq<Member>)
    ensures AllPaired(Entries(members))
    decreases members, 0
  {
    if members != [] {
      QuoteIsPaired(members[0].key);
      SerializeIsPaired(members[0].value);
      Comma(Quote(members[0].key), COLON, Serialize(members[0].value));
      EntriesArePaired(members[1..]);
    }
  }

  lemma {:induction false} SortKeepsPaired(es: seq<Entry>)
    requires AllPaired(es)
    ensures AllPaired(SortByKey(es))
  {
    if es != [] {
      SortKeepsPaired(es[1..]);
      InsertMembers(es[0], SortByKey(es[1..]));
      var sorted := SortByKey(es);
      forall i | 0 <= i < |sorted| ensures Paired(sorted[i].text) {
        assert sorted[i] in sorted;
        if sorted[i] != es[0] {
          assert sorted[i] in SortByKey(es[1..]);
        }
      }
    }
  }

  lemma {:induction false} JoinIsPaired(es: seq<Entry>)
    requires AllPaired(es)
    ensures Paired(JoinEntries(es))
  {
    if es != [] {
      JoinIsPaired(es[1..]);
      Comma(es[0].text, COMMA, JoinEntries(es[1..]));
    }
  }
}
