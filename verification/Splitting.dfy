/** String.prototype.split with a non-empty separator, and how it treats text that arrives in parts. */
module Splitting {

  predicate OccursAt<T(==)>(s: seq<T>, sep: seq<T>, i: nat) {
    i + |sep| <= |s| && s[i..i + |sep|] == sep
  }

  function FindFrom<T(==)>(s: seq<T>, sep: seq<T>, from: nat): (r: int)
    requires sep != [] && from <= |s|
    ensures r == -1 || (from <= r && OccursAt(s, sep, r))
    ensures forall i: nat :: from <= i < (if r < 0 then |s| else r) ==> !OccursAt(s, sep, i)
    decreases |s| - from
  {
    if OccursAt(s, sep, from) then from
    else if from == |s| then -1
    else FindFrom(s, sep, from + 1)
  }

  function Split<T(==)>(s: seq<T>, sep: seq<T>): (parts: seq<seq<T>>)
    requires sep != []
    ensures parts != []
    decreases |s|
  {
    var i := FindFrom(s, sep, 0);
    if i < 0 then [s] else [s[..i]] + Split(s[i + |sep|..], sep)
  }

  function Join<T>(parts: seq<seq<T>>, sep: seq<T>): seq<T> {
    if parts == [] then []
    else if |parts| == 1 then parts[0]
    else parts[0] + sep + Join(parts[1..], sep)
  }

  predicate Free<T(==)>(s: seq<T>, sep: seq<T>) {
    forall i: nat :: i < |s| ==> !OccursAt(s, sep, i)
  }

  function Last<T>(s: seq<T>): T
    requires s != []
  {
    s[|s| - 1]
  }

  function Init<T>(s: seq<T>): seq<T>
    requires s != []
  {
    s[..|s| - 1]
  }

  /** An occurrence inside `x` stays the first one when text is appended. */
  lemma FindInLonger<T>(x: seq<T>, y: seq<T>, sep: seq<T>)
    requires sep != [] && FindFrom(x, sep, 0) >= 0
    ensures FindFrom(x + y, sep, 0) == FindFrom(x, sep, 0)
  {
    var i := FindFrom(x, sep, 0);
    assert OccursAt(x + y, sep, i) by {
      assert (x + y)[i..i + |sep|] == x[i..i + |sep|];
    }
    forall j: nat | j < i ensures !OccursAt(x + y, sep, j) {
      assert !OccursAt(x, sep, j);
      assert j + |sep| <= |x|;
      assert (x + y)[j..j + |sep|] == x[j..j + |sep|];
    }
  }

  /** Splitting a text that arrives in two parts: only the last piece of the first part is still open. */
  lemma {:induction false} SplitInTwo<T>(x: seq<T>, y: seq<T>, sep: seq<T>)
    requires sep != []
    ensures Split(x + y, sep) == Init(Split(x, sep)) + Split(Last(Split(x, sep)) + y, sep)
    decreases |x|
  {
    hide Split;
    var i := FindFrom(x, sep, 0);
    if i >= 0 {
      var rest := x[i + |sep|..];
      var open := Split(Last(Split(rest, sep)) + y, sep);
      SplitFirst(x, sep);
      SplitFirstOfTwo(x, y, sep);
      SplitInTwo(rest, y, sep);
      assert Init(Split(x, sep)) == [x[..i]] + Init(Split(rest, sep));
      assert [x[..i]] + (Init(Split(rest, sep)) + open) == ([x[..i]] + Init(Split(rest, sep))) + open;
    } else {
      FreeIsOnePiece(x, sep);
      assert [] + Split(x + y, sep) == Split(x + y, sep);
    }
  }

  lemma SplitFirst<T>(x: seq<T>, sep: seq<T>)
    requires sep != [] && FindFrom(x, sep, 0) >= 0
    ensures var i := FindFrom(x, sep, 0); Split(x, sep) == [x[..i]] + Split(x[i + |sep|..], sep)
  {
  }

  lemma SplitFirstOfTwo<T>(x: seq<T>, y: seq<T>, sep: seq<T>)
    requires sep != [] && FindFrom(x, sep, 0) >= 0
    ensures var i := FindFrom(x, sep, 0); Split(x + y, sep) == [x[..i]] + Split(x[i + |sep|..] + y, sep)
  {
    hide Split, FindFrom;
    var i := FindFrom(x, sep, 0);
    FindInLonger(x, y, sep);
    CutOfTwo(x, y, i, i + |sep|);
    SplitAtCut(x + y, sep, x[..i], x[i + |sep|..] + y);
  }

  lemma SplitAtCut<T>(s: seq<T>, sep: seq<T>, head: seq<T>, rest: seq<T>)
    requires sep != [] && FindFrom(s, sep, 0) >= 0
    requires head == s[..FindFrom(s, sep, 0)] && rest == s[FindFrom(s, sep, 0) + |sep|..]
    ensures Split(s, sep) == [head] + Split(rest, sep)
  {
    SplitFirst(s, sep);
  }

  lemma CutOfTwo<T>(x: seq<T>, y: seq<T>, i: nat, j: nat)
    requires i <= j <= |x|
    ensures (x + y)[..i] == x[..i] && (x + y)[j..] == x[j..] + y
  {
  }

  lemma {:induction false} LastPieceIsFree<T>(s: seq<T>, sep: seq<T>)
    requires sep != []
    ensures Free(Last(Split(s, sep)), sep)
    decreases |s|
  {
    var i := FindFrom(s, sep, 0);
    if i >= 0 {
      LastPieceIsFree(s[i + |sep|..], sep);
    }
  }

  lemma FreeIsOnePiece<T>(s: seq<T>, sep: seq<T>)
    requires sep != [] && Free(s, sep)
    ensures Split(s, sep) == [s]
  {
  }

  /** Splitting loses nothing. */
  lemma {:induction false} JoinOfSplit<T>(s: seq<T>, sep: seq<T>)
    requires sep != []
    ensures Join(Split(s, sep), sep) == s
    decreases |s|
  {
    var i := FindFrom(s, sep, 0);
    if i >= 0 {
      var rest := s[i + |sep|..];
      JoinOfSplit(rest, sep);
      assert Split(s, sep)[1..] == Split(rest, sep);
      assert s == s[..i] + sep + rest;
    }
  }

  /** A text without the separator element, then the separator, then anything. */
  lemma SplitAtFirst<T>(a: seq<T>, dot: T, rest: seq<T>)
    requires dot !in a
    ensures Split(a + [dot] + rest, [dot]) == [a] + Split(rest, [dot])
  {
    var s := a + [dot] + rest;
    assert s[|a|..|a| + 1] == [dot];
    assert OccursAt(s, [dot], |a|);
    forall j: nat | j < |a| ensures !OccursAt(s, [dot], j) {
      assert s[j..j + 1] == [a[j]];
    }
    assert FindFrom(s, [dot], 0) == |a|;
    assert s[..|a|] == a && s[|a| + 1..] == rest;
  }

  lemma SplitNone<T>(a: seq<T>, dot: T)
    requires dot !in a
    ensures Split(a, [dot]) == [a]
  {
    forall j: nat | j < |a| ensures !OccursAt(a, [dot], j) {
      assert a[j..j + 1] == [a[j]];
    }
  }

  /** No piece contains the separator element. */
  lemma {:induction false} PiecesHaveNone<T>(s: seq<T>, dot: T)
    ensures forall k :: 0 <= k < |Split(s, [dot])| ==> dot !in Split(s, [dot])[k]
    decreases |s|
  {
    var i := FindFrom(s, [dot], 0);
    var n := if i >= 0 then i else |s|;
    forall j | 0 <= j < n ensures s[j] != dot {
      assert s[j..j + 1] == [s[j]];
      assert !OccursAt(s, [dot], j);
    }
    if i >= 0 {
      PiecesHaveNone(s[i + 1..], dot);
    }
  }

  /** The other round trip: pieces without the separator element come back. */
  lemma {:induction false} SplitOfJoin<T>(parts: seq<seq<T>>, dot: T)
    requires parts != [] && forall i :: 0 <= i < |parts| ==> dot !in parts[i]
    ensures Split(Join(parts, [dot]), [dot]) == parts
  {
    if |parts| == 1 {
      SplitNone(parts[0], dot);
    } else {
      SplitOfJoin(parts[1..], dot);
      SplitAtFirst(parts[0], dot, Join(parts[1..], [dot]));
    }
  }
}
