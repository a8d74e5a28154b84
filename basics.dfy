/** Small vocabulary shared by every module of the model: optional values,
    results with an error, the JavaScript rounding functions on exact reals,
    and the list operations (filter, sort by a key) that the routes apply to
    query results. */
module Basics {

  datatype Option<T> = None | Some(value: T) {
    /** `x || d` in JavaScript for a value that is either present or undefined */
    function GetOr(default: T): (r: T)
      ensures Some? ==> r == value
      ensures None? ==> r == default
    {
      match this
      case Some(v) => v
      case None => default
    }
  }

  datatype Result<T, E> = Ok(value: T) | Err(error: E)

  datatype Unit = Unit

  function Min(a: real, b: real): (m: real)
    ensures m <= a && m <= b
    ensures m == a || m == b
  {
    if a <= b then a else b
  }

  function Max(a: real, b: real): (m: real)
    ensures m >= a && m >= b
    ensures m == a || m == b
  {
    if a >= b then a else b
  }

  /** JavaScript `Math.floor` on an exact real. */
  function MathFloor(x: real): (n: int)
    ensures n as real <= x < n as real + 1.0
  {
    x.Floor
  }

  /** JavaScript `Math.round`: the nearest integer, a tie going toward
      positive infinity (so `Math.round(-2.5) == -2`). */
  function MathRound(x: real): (n: int)
    ensures n as real - 0.5 <= x < n as real + 0.5
  {
    (x + 0.5).Floor
  }

  /** `Number(x.toFixed(2))`: `x` to the nearest hundredth, a tie going away
      from zero (`toFixed` rounds the magnitude and keeps the sign). */
  function Fixed2(x: real): (r: real)
    ensures -0.005 <= r - x <= 0.005
    ensures r * 100.0 == MathFloor(r * 100.0) as real
    ensures x >= 0.0 ==> r >= 0.0
    ensures -0.005 < x < 0.005 ==> r == 0.0
    ensures x >= 0.005 ==> r >= 0.01
  {
    var n := if x >= 0.0 then MathFloor(x * 100.0 + 0.5) else -MathFloor(-x * 100.0 + 0.5);
    assert (n as real / 100.0) * 100.0 == n as real;
    assert MathFloor(n as real) == n;
    n as real / 100.0
  }

  /** Rounding to hundredths never reverses an order. */
  lemma Fixed2Monotone(x: real, y: real)
    requires x <= y
    ensures Fixed2(x) <= Fixed2(y)
  {
    if 0.0 <= x {
      assert MathFloor(x * 100.0 + 0.5) <= MathFloor(y * 100.0 + 0.5);
    } else if y < 0.0 {
      assert MathFloor(-y * 100.0 + 0.5) <= MathFloor(-x * 100.0 + 0.5);
    } else {
      assert Fixed2(x) <= 0.0 <= Fixed2(y);
    }
  }

  /** A whole number of hundredths is its own rounding. */
  lemma Fixed2Exact(x: real)
    requires x * 100.0 == MathFloor(x * 100.0) as real
    ensures Fixed2(x) == x
  {
    var n := MathFloor(x * 100.0);
    if x >= 0.0 {
      assert MathFloor(x * 100.0 + 0.5) == n;
    } else {
      assert MathFloor(-x * 100.0 + 0.5) == -n;
    }
  }

  /** `s.filter(p)`: the elements of `s` satisfying `p`, in their order. */
  function Filter<T>(s: seq<T>, p: T -> bool): (r: seq<T>)
    ensures |r| <= |s|
    ensures forall i :: 0 <= i < |r| ==> r[i] in s && p(r[i])
    ensures forall i :: 0 <= i < |s| && p(s[i]) ==> s[i] in r
  {
    if s == [] then []
    else if p(s[0]) then [s[0]] + Filter(s[1..], p)
    else Filter(s[1..], p)
  }

  /** What `filter` keeps comes from the list and satisfies the test. */
  lemma FilterSource<T>(s: seq<T>, p: T -> bool)
    ensures forall x :: x in Filter(s, p) ==> x in s && p(x)
  {
  }

  /** `filter` keeps every passing element as often as it occurs, and
      nothing else. */
  lemma {:induction false} FilterMultiset<T>(s: seq<T>, p: T -> bool)
    ensures forall x :: multiset(Filter(s, p))[x] == if p(x) then multiset(s)[x] else 0
  {
    if s != [] {
      FilterMultiset(s[1..], p);
      assert s == [s[0]] + s[1..];
    }
  }

  ghost predicate SortedDesc<T>(s: seq<T>, key: T -> int) {
    forall i, j :: 0 <= i < j < |s| ==> key(s[i]) >= key(s[j])
  }

  function InsertDesc<T>(x: T, s: seq<T>, key: T -> int): (r: seq<T>)
    requires SortedDesc(s, key)
    ensures SortedDesc(r, key)
    ensures multiset(r) == multiset(s) + multiset{x}
    ensures |r| == |s| + 1
    ensures r[0] == x || (s != [] && r[0] == s[0])
  {
    if s == [] then [x]
    else if key(x) >= key(s[0]) then [x] + s
    else
      var rest := InsertDesc(x, s[1..], key);
      assert s == [s[0]] + s[1..];
      ConsSorted(s[0], rest, key);
      [s[0]] + rest
  }

  /** An element no smaller than the head of a sorted list can go in front. */
  lemma ConsSorted<T>(h: T, s: seq<T>, key: T -> int)
    requires SortedDesc(s, key) && (s != [] ==> key(h) >= key(s[0]))
    ensures SortedDesc([h] + s, key)
  {
    var r := [h] + s;
    forall i, j | 0 <= i < j < |r| ensures key(r[i]) >= key(r[j]) {
      if i > 0 {
        assert r[i] == s[i - 1] && r[j] == s[j - 1];
      } else {
        assert r[j] == s[j - 1];
      }
    }
  }

  /** `.sort({ key: -1 })`: the elements of `s`, newest first. Ties keep their
      order (the store does not promise any order for ties). */
  function SortDesc<T>(s: seq<T>, key: T -> int): (r: seq<T>)
    ensures SortedDesc(r, key)
    ensures multiset(r) == multiset(s)
    ensures |r| == |s|
  {
    if s == [] then []
    else
      assert s == [s[0]] + s[1..];
      InsertDesc(s[0], SortDesc(s[1..], key), key)
  }

  lemma SortDescMembers<T>(s: seq<T>, key: T -> int, x: T)
    ensures x in SortDesc(s, key) <==> x in s
  {
    var r := SortDesc(s, key);
    assert x in r <==> x in multiset(r);
    assert x in s <==> x in multiset(s);
  }

  /** Filtering and then sorting keeps exactly the elements that pass. */
  lemma SortFilterMembers<T>(s: seq<T>, p: T -> bool, key: T -> int, x: T)
    ensures x in SortDesc(Filter(s, p), key) <==> x in s && p(x)
  {
    SortDescMembers(Filter(s, p), key, x);
    FilterSource(s, p);
  }

  /** `findById`: the position of the first element whose key is `k`. */
  function FindIndex<T>(s: seq<T>, key: T -> nat, k: nat): (r: Option<nat>)
    ensures r.Some? ==> r.value < |s| && key(s[r.value]) == k
    ensures r.Some? ==> forall i :: 0 <= i < r.value ==> key(s[i]) != k
    ensures r.None? <==> forall i :: 0 <= i < |s| ==> key(s[i]) != k
  {
    if s == [] then None
    else if key(s[0]) == k then Some(0)
    else match FindIndex(s[1..], key, k)
      case None => None
      case Some(i) => Some(i + 1)
  }

  /** Keys are pairwise distinct and all below `bound` (the next fresh id). */
  ghost predicate KeysBelow<T>(s: seq<T>, key: T -> nat, bound: nat) {
    && (forall i, j :: 0 <= i < j < |s| ==> key(s[i]) != key(s[j]))
    && (forall i :: 0 <= i < |s| ==> key(s[i]) < bound)
  }

  /** `s` without its element at position `i` (a delete by id). */
  function RemoveAt<T>(s: seq<T>, i: nat): (r: seq<T>)
    requires i < |s|
    ensures |r| == |s| - 1
    ensures forall j :: 0 <= j < i ==> r[j] == s[j]
    ensures forall j :: i <= j < |r| ==> r[j] == s[j + 1]
  {
    s[..i] + s[i + 1..]
  }

  /** Appending a record under the next fresh id keeps the ids distinct and issued. */
  lemma KeysBelowAppend<T>(s: seq<T>, key: T -> nat, bound: nat, x: T)
    requires KeysBelow(s, key, bound) && key(x) == bound
    ensures KeysBelow(s + [x], key, bound + 1)
  {
    var t := s + [x];
    forall i, j | 0 <= i < j < |t| ensures key(t[i]) != key(t[j]) {
      if j == |s| {
        assert t[i] == s[i];
      } else {
        assert t[i] == s[i] && t[j] == s[j];
      }
    }
  }

  /** Replacing a record by one with the same id keeps the ids distinct and issued. */
  lemma KeysBelowUpdate<T>(s: seq<T>, key: T -> nat, bound: nat, i: nat, x: T)
    requires KeysBelow(s, key, bound) && i < |s| && key(x) == key(s[i])
    ensures KeysBelow(s[i := x], key, bound)
  {
  }

  /** Removing a record keeps the ids distinct and issued. */
  lemma KeysBelowRemove<T>(s: seq<T>, key: T -> nat, bound: nat, i: nat)
    requires KeysBelow(s, key, bound) && i < |s|
    ensures KeysBelow(RemoveAt(s, i), key, bound)
  {
    var t := RemoveAt(s, i);
    forall a, b | 0 <= a < b < |t| ensures key(t[a]) != key(t[b]) {
      var a' := if a < i then a else a + 1;
      var b' := if b < i then b else b + 1;
      assert t[a] == s[a'] && t[b] == s[b'];
    }
  }

  /** Issuing one more id keeps every stored id issued. */
  lemma KeysBelowGrow<T>(s: seq<T>, key: T -> nat, bound: nat)
    requires KeysBelow(s, key, bound)
    ensures KeysBelow(s, key, bound + 1)
  {
  }

  /** A lookup finds a record again after it is replaced by one with the same id. */
  lemma FindIndexUpdate<T>(s: seq<T>, key: T -> nat, k: nat, i: nat, x: T)
    requires FindIndex(s, key, k) == Some(i) && key(x) == k
    ensures FindIndex(s[i := x], key, k) == Some(i)
  {
    assert key(s[i := x][i]) == k;
    assert forall j :: 0 <= j < i ==> s[i := x][j] == s[j];
  }

  /** A record under a fresh id is found at the end. */
  lemma FindIndexAppend<T>(s: seq<T>, key: T -> nat, bound: nat, x: T)
    requires KeysBelow(s, key, bound) && key(x) == bound
    ensures FindIndex(s + [x], key, bound) == Some(|s|)
  {
    var t := s + [x];
    assert key(t[|s|]) == bound;
    assert forall i :: 0 <= i < |s| ==> t[i] == s[i] && key(t[i]) < bound;
  }

  // ------------------------------------------------------------------ strings

  /** JavaScript's white space: what the class `\s` matches and what `trim`
      strips. */
  predicate IsSpace(c: char) {
    || c == ' ' || c == '\t' || c == '\n' || c == '\r' || c == '\U{000B}' || c == '\U{000C}'
    || c == '\U{00A0}' || c == '\U{1680}' || ('\U{2000}' <= c <= '\U{200A}')
    || c == '\U{2028}' || c == '\U{2029}' || c == '\U{202F}' || c == '\U{205F}' || c == '\U{3000}'
    || c == '\U{FEFF}'
  }

  /** `s` without its leading white space: what it drops is white space,
      and what is left starts with a character other than white space. */
  function TrimStart(s: string): (r: string)
    ensures |r| <= |s|
    ensures forall j :: 0 <= j < |s| - |r| ==> IsSpace(s[j])
    ensures r != [] ==> !IsSpace(r[0])
  {
    if s != [] && IsSpace(s[0]) then TrimStart(s[1..]) else s
  }

  /** What TrimStart leaves is a suffix of `s`. */
  lemma {:induction false} TrimStartSuffix(s: string)
    ensures TrimStart(s) == s[|s| - |TrimStart(s)|..]
  {
    if s != [] && IsSpace(s[0]) {
      TrimStartSuffix(s[1..]);
    }
  }

  /** `s` without its trailing white space: what it drops is white space,
      and what is left ends with a character other than white space. */
  function TrimEnd(s: string): (r: string)
    ensures |r| <= |s|
    ensures forall j :: |r| <= j < |s| ==> IsSpace(s[j])
    ensures r != [] ==> !IsSpace(r[|r| - 1])
  {
    if s != [] && IsSpace(s[|s| - 1]) then TrimEnd(s[..|s| - 1]) else s
  }

  /** What TrimEnd leaves is a prefix of `s`. */
  lemma {:induction false} TrimEndPrefix(s: string)
    ensures TrimEnd(s) == s[..|TrimEnd(s)|]
  {
    if s != [] && IsSpace(s[|s| - 1]) {
      TrimEndPrefix(s[..|s| - 1]);
    }
  }

  /** `String.prototype.trim`, which Mongoose's `trim` setter applies. */
  function Trim(s: string): (r: string)
    ensures |r| <= |s|
  {
    TrimEnd(TrimStart(s))
  }

  /** The trimmed string is blank exactly when `s` is all white space, and
      otherwise neither starts nor ends with white space. */
  lemma TrimShape(s: string)
    ensures Trim(s) == [] <==> forall j :: 0 <= j < |s| ==> IsSpace(s[j])
    ensures Trim(s) != [] ==> !IsSpace(Trim(s)[0]) && !IsSpace(Trim(s)[|Trim(s)| - 1])
  {
    var t := TrimStart(s);
    TrimStartSuffix(s);
    TrimEndPrefix(t);
    assert t != [] ==> t[0] == s[|s| - |t|];
  }

  /** A string without white space is its own trim. */
  lemma TrimNoSpace(s: string)
    requires forall j :: 0 <= j < |s| ==> !IsSpace(s[j])
    ensures Trim(s) == s
  {
    assert s != [] ==> !IsSpace(s[0]) && !IsSpace(s[|s| - 1]);
    TrimTrimmed(s);
  }

  /** A string that neither starts nor ends with white space is trimmed. */
  lemma TrimTrimmed(s: string)
    requires s == [] || (!IsSpace(s[0]) && !IsSpace(s[|s| - 1]))
    ensures Trim(s) == s
  {
    assert TrimStart(s) == s;
  }

  /** Trimming twice is trimming once. */
  lemma TrimIdempotent(s: string)
    ensures Trim(Trim(s)) == Trim(s)
  {
    TrimShape(s);
    TrimTrimmed(Trim(s));
  }

  lemma TrimExamples()
    ensures Trim("  ann ") == "ann"
    ensures Trim(" \t ") == ""
    ensures Trim("a b") == "a b"
  {
    assert TrimStart("  ann ") == "ann ";
    assert TrimEnd("ann ") == "ann";
    assert !IsSpace('b') && !IsSpace('a');
    TrimTrimmed("a b");
  }

  /** `toLowerCase` on the letters A to Z. */
  function LowerChar(c: char): char {
    if 'A' <= c <= 'Z' then (c as int + 32) as char else c
  }

  /** `s.toLowerCase()`, for the letters A to Z. */
  function LowerAscii(s: string): (r: string)
    ensures |r| == |s|
  {
    if s == [] then [] else [LowerChar(s[0])] + LowerAscii(s[1..])
  }

  /** Each letter A to Z is replaced by its lower-case letter, every other
      character is kept, and no upper-case letter A to Z is left. */
  lemma {:induction false} LowerAsciiAt(s: string, i: nat)
    requires i < |s|
    ensures 'A' <= s[i] <= 'Z' ==> LowerAscii(s)[i] as int == s[i] as int + 32
    ensures !('A' <= s[i] <= 'Z') ==> LowerAscii(s)[i] == s[i]
    ensures !('A' <= LowerAscii(s)[i] <= 'Z')
  {
    if i > 0 {
      LowerAsciiAt(s[1..], i - 1);
    }
  }
}
