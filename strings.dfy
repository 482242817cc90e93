/** String primitives of the JavaScript runtime that the importer relies on:
    the whitespace class `\s` (which is also the set `trim` removes),
    `trim`/`trimStart`/`trimEnd`, `startsWith`, `indexOf`, `lastIndexOf`,
    `split` on one character, `join`, and the decimal rendering of a
    counter inside a template literal. Strings are sequences of characters. */
module Strings {
  import opened Wrappers

  /** The characters matched by `\s` and removed by `String.prototype.trim`. */
  predicate IsSpace(c: char) {
    || c == ' '
    || '\t' <= c <= '\r'
    || c == '\U{00A0}' || c == '\U{1680}'
    || '\U{2000}' <= c <= '\U{200A}'
    || c == '\U{2028}' || c == '\U{2029}' || c == '\U{202F}'
    || c == '\U{205F}' || c == '\U{3000}' || c == '\U{FEFF}'
  }

  predicate AllSpace(s: seq<char>) {
    forall i :: 0 <= i < |s| ==> IsSpace(s[i])
  }

  predicate StartsWith(s: seq<char>, prefix: seq<char>) {
    |prefix| <= |s| && s[..|prefix|] == prefix
  }

  predicate EndsWith(s: seq<char>, suffix: seq<char>) {
    |suffix| <= |s| && s[|s| - |suffix|..] == suffix
  }

  /** Appending `f` is appending all of it but its last element, then that one. */
  lemma AppendLast<T>(a: seq<T>, f: seq<T>)
    requires |f| > 0
    ensures a + f == (a + f[..|f| - 1]) + [f[|f| - 1]]
  {
    assert f == f[..|f| - 1] + [f[|f| - 1]];
  }

  /** Appending `t` to `a` is appending it to the part of `a` after `k`. */
  lemma SplitAppend<T>(a: seq<T>, k: nat, t: seq<T>)
    requires k <= |a|
    ensures a + t == a[..k] + (a[k..] + t)
  {
    assert a == a[..k] + a[k..];
  }

  /** `s.trimStart()`: the longest suffix of `s` that does not start with whitespace. */
  function TrimStart(s: seq<char>): (r: seq<char>)
    ensures |r| <= |s| && r == s[|s| - |r|..]
    ensures AllSpace(s[..|s| - |r|])
    ensures r == [] || !IsSpace(r[0])
  {
    if |s| > 0 && IsSpace(s[0]) then
      var r := TrimStart(s[1..]);
      assert s[1..][..|s| - 1 - |r|] == s[1..|s| - |r|];
      r
    else
      s
  }

  /** `s.trimEnd()`: the longest prefix of `s` that does not end with whitespace. */
  function TrimEnd(s: seq<char>): (r: seq<char>)
    ensures |r| <= |s| && r == s[..|r|]
    ensures AllSpace(s[|r|..])
    ensures r == [] || !IsSpace(r[|r| - 1])
  {
    if |s| > 0 && IsSpace(s[|s| - 1]) then
      var r := TrimEnd(s[..|s| - 1]);
      assert s[|r|..] == s[..|s| - 1][|r|..] + [s[|s| - 1]];
      r
    else
      s
  }

  /** `s.trim()`. */
  function Trim(s: seq<char>): (r: seq<char>)
    ensures r == [] || (!IsSpace(r[0]) && !IsSpace(r[|r| - 1]))
  {
    TrimEnd(TrimStart(s))
  }

  /** `trim` returns "" exactly for blank strings. */
  lemma TrimEmptyIffBlank(s: seq<char>)
    ensures Trim(s) == [] <==> AllSpace(s)
  {
    var t := TrimStart(s);
    assert s == s[..|s| - |t|] + t;
    if t != [] {
      assert !IsSpace(s[|s| - |t|]);
      assert TrimEnd(t)[0] == t[0];
    }
  }

  /** `r` is `s` without the whitespace at its two ends: the slice of `s`
      at `i`, with only whitespace before and after it and none at its own
      ends. */
  predicate TrimmedAt(r: seq<char>, s: seq<char>, i: nat) {
    && i + |r| <= |s| && r == s[i..i + |r|]
    && AllSpace(s[..i]) && AllSpace(s[i + |r|..])
    && (r == [] || (!IsSpace(r[0]) && !IsSpace(r[|r| - 1])))
  }

  /** `r` is `s` trimmed at some position. */
  ghost predicate IsTrimOf(r: seq<char>, s: seq<char>) {
    exists i: nat :: TrimmedAt(r, s, i)
  }

  /** `trim` removes the whitespace at both ends and nothing else. */
  lemma TrimIsTrimmed(s: seq<char>) returns (i: nat)
    ensures TrimmedAt(Trim(s), s, i)
  {
    var t := TrimStart(s);
    i := |s| - |t|;
    var r := TrimEnd(t);
    SliceOfSuffix(s, i, t, |r|);
  }

  /** A prefix of the suffix of `s` at `i` is a slice of `s`, and what
      follows it is the rest of `s`. */
  lemma SliceOfSuffix(s: seq<char>, i: nat, t: seq<char>, n: nat)
    requires i <= |s| && t == s[i..] && n <= |t|
    ensures t[..n] == s[i..i + n] && t[n..] == s[i + n..]
  {
  }

  /** Only one slice of `s` is `s` trimmed, so `TrimmedAt` defines `trim`. */
  lemma TrimUnique(r: seq<char>, s: seq<char>, i: nat)
    requires TrimmedAt(r, s, i)
    ensures r == Trim(s)
  {
    var t := Trim(s);
    if r == [] {
      BlankAround(s, i);
      TrimEmptyIffBlank(s);
    } else {
      var j := TrimIsTrimmed(s);
      assert s[i] == r[0];
      assert t != [] by {
        assert !AllSpace(s);
        TrimEmptyIffBlank(s);
      }
      SameTrimmed(r, t, s, i, j);
    }
  }

  /** Two non-empty trimmings of one string are the same slice. */
  lemma SameTrimmed(r: seq<char>, t: seq<char>, s: seq<char>, i: nat, j: nat)
    requires TrimmedAt(r, s, i) && TrimmedAt(t, s, j) && r != [] && t != []
    ensures r == t
  {
    assert s[i] == r[0] && s[j] == t[0];
    SameFirstNonSpace(s, i, j);
    assert s[i + |r| - 1] == r[|r| - 1] && s[j + |t| - 1] == t[|t| - 1];
    SameLastNonSpace(s, i + |r|, j + |t|);
  }

  lemma BlankAround(s: seq<char>, i: nat)
    requires i <= |s| && AllSpace(s[..i]) && AllSpace(s[i..])
    ensures AllSpace(s)
  {
    assert s == s[..i] + s[i..];
  }

  /** Whitespace before two non-space positions puts them at the same place. */
  lemma SameFirstNonSpace(s: seq<char>, i: nat, j: nat)
    requires i < |s| && j < |s| && !IsSpace(s[i]) && !IsSpace(s[j])
    requires AllSpace(s[..i]) && AllSpace(s[..j])
    ensures i == j
  {
    SpacesBefore(s, i);
    SpacesBefore(s, j);
  }

  /** Whitespace after two non-space positions puts them at the same place. */
  lemma SameLastNonSpace(s: seq<char>, e: nat, f: nat)
    requires 0 < e <= |s| && 0 < f <= |s| && !IsSpace(s[e - 1]) && !IsSpace(s[f - 1])
    requires AllSpace(s[e..]) && AllSpace(s[f..])
    ensures e == f
  {
    SpacesFrom(s, e);
    SpacesFrom(s, f);
  }

  lemma SpacesBefore(s: seq<char>, n: nat)
    requires n <= |s| && AllSpace(s[..n])
    ensures forall k :: 0 <= k < n ==> IsSpace(s[k])
  {
    forall k | 0 <= k < n
      ensures IsSpace(s[k])
    {
      assert s[..n][k] == s[k];
    }
  }

  lemma SpacesFrom(s: seq<char>, n: nat)
    requires n <= |s| && AllSpace(s[n..])
    ensures forall k :: n <= k < |s| ==> IsSpace(s[k])
  {
    forall k | n <= k < |s|
      ensures IsSpace(s[k])
    {
      assert s[n..][k - n] == s[k];
    }
  }

  /** A string with no whitespace at either end is its own trim. */
  lemma TrimOfTrimmed(s: seq<char>)
    requires s == [] || (!IsSpace(s[0]) && !IsSpace(s[|s| - 1]))
    ensures Trim(s) == s
  {
  }

  lemma TrimEndOfTrimmed(s: seq<char>)
    requires s == [] || !IsSpace(s[|s| - 1])
    ensures TrimEnd(s) == s
  {
  }

  /** Appending whitespace does not change `trimEnd`. */
  lemma {:induction false} TrimEndAppendSpace(s: seq<char>, t: seq<char>)
    requires AllSpace(t)
    ensures TrimEnd(s + t) == TrimEnd(s)
    decreases |t|
  {
    if t != [] {
      assert (s + t)[..|s + t| - 1] == s + t[..|t| - 1];
      TrimEndAppendSpace(s, t[..|t| - 1]);
    } else {
      assert s + t == s;
    }
  }

  /** `trimEnd` only looks at the tail: a prefix ending in a non-space is kept. */
  lemma {:induction false} TrimEndKeepsPrefix(p: seq<char>, t: seq<char>)
    requires p != [] && !IsSpace(p[|p| - 1])
    ensures TrimEnd(p + t) == p + TrimEnd(t)
    decreases |t|
  {
    if t == [] {
      assert p + t == p;
    } else if IsSpace(t[|t| - 1]) {
      assert (p + t)[..|p + t| - 1] == p + t[..|t| - 1];
      TrimEndKeepsPrefix(p, t[..|t| - 1]);
    }
  }

  predicate OccursAt(s: seq<char>, pat: seq<char>, i: nat) {
    i + |pat| <= |s| && s[i..i + |pat|] == pat
  }

  /** The first index `i >= from` at which `pat` occurs in `s`
      (`s.indexOf(pat, from)`, with `None` for -1). */
  function IndexOfFrom(s: seq<char>, pat: seq<char>, from: nat): (r: Option<nat>)
    ensures r.Some? ==> from <= r.value && OccursAt(s, pat, r.value)
    ensures forall i: nat :: from <= i && (r.None? || i < r.value) ==> !OccursAt(s, pat, i)
    decreases |s| - from
  {
    if from + |pat| > |s| then None
    else if OccursAt(s, pat, from) then Some(from)
    else IndexOfFrom(s, pat, from + 1)
  }

  /** `s.lastIndexOf(c)` for a single character, `None` for -1. */
  function LastIndexOf(s: seq<char>, c: char): (r: Option<nat>)
    ensures r.Some? ==> r.value < |s| && s[r.value] == c && c !in s[r.value + 1..]
    ensures r.None? <==> c !in s
  {
    if s == [] then None
    else if s[|s| - 1] == c then Some(|s| - 1)
    else
      var r := LastIndexOf(s[..|s| - 1], c);
      assert s == s[..|s| - 1] + [s[|s| - 1]];
      if r.Some? then
        assert s[r.value + 1..] == s[..|s| - 1][r.value + 1..] + [s[|s| - 1]];
        r
      else r
  }

  /** `s[i]` is the last `c` in `s`. */
  lemma LastIndexOfIs(s: seq<char>, c: char, i: nat)
    requires i < |s| && s[i] == c && c !in s[i + 1..]
    ensures LastIndexOf(s, c) == Some(i)
  {
    assert forall j :: i < j < |s| ==> s[j] == s[i + 1..][j - i - 1];
    var r := LastIndexOf(s, c);
    assert forall j :: r.Some? && r.value < j < |s| ==> s[j] == s[r.value + 1..][j - r.value - 1];
  }

  /** The last `c` in `x + y` is the last in `y` when `y` has one. */
  lemma LastIndexOfAppendIn(x: seq<char>, y: seq<char>, c: char, j: nat)
    requires LastIndexOf(y, c) == Some(j)
    ensures LastIndexOf(x + y, c) == Some(|x| + j)
  {
    var s := x + y;
    assert s[|x| + j] == y[j];
    assert s[|x| + j + 1..] == y[j + 1..];
    LastIndexOfIs(s, c, |x| + j);
  }

  /** The last `c` in `x + y` is the last in `x` when `y` has none. */
  lemma LastIndexOfAppendOut(x: seq<char>, y: seq<char>, c: char)
    requires c !in y
    ensures LastIndexOf(x + y, c) == LastIndexOf(x, c)
  {
    var s := x + y;
    match LastIndexOf(x, c)
    case None =>
      assert forall k :: 0 <= k < |s| ==> s[k] != c by {
        forall k | 0 <= k < |s|
          ensures s[k] != c
        {
          if k < |x| {
            assert s[k] == x[k];
          } else {
            assert s[k] == y[k - |x|];
          }
        }
      }
    case Some(i) =>
      var tail := s[i + 1..];
      assert forall k :: 0 <= k < |tail| ==> tail[k] != c by {
        forall k | 0 <= k < |tail|
          ensures tail[k] != c
        {
          if i + 1 + k < |x| {
            assert tail[k] == x[i + 1..][k];
          } else {
            assert tail[k] == y[i + 1 + k - |x|];
          }
        }
      }
      LastIndexOfIs(s, c, i);
  }

  /** The first index of `c` in `s`, `None` when there is none. */
  function IndexOfChar(s: seq<char>, c: char): (r: Option<nat>)
    ensures r.Some? ==> r.value < |s| && s[r.value] == c && c !in s[..r.value]
    ensures r.None? <==> c !in s
  {
    if s == [] then None
    else if s[0] == c then Some(0)
    else
      var r := IndexOfChar(s[1..], c);
      if r.Some? then
        assert s[..r.value + 1] == [s[0]] + s[1..][..r.value];
        Some(r.value + 1)
      else None
  }

  /** `s.split(c)` for a one-character separator: the maximal pieces between
      separators, in order (`"".split(c)` is `[""]`). */
  function Split(s: seq<char>, c: char): (r: seq<seq<char>>)
    ensures |r| > 0
    ensures forall k :: 0 <= k < |r| ==> c !in r[k]
    decreases |s|
  {
    match IndexOfChar(s, c)
    case None => [s]
    case Some(i) => [s[..i]] + Split(s[i + 1..], c)
  }

  /** `parts.join(sep)`. */
  function Join(parts: seq<seq<char>>, sep: seq<char>): seq<char> {
    if parts == [] then []
    else if |parts| == 1 then parts[0]
    else parts[0] + sep + Join(parts[1..], sep)
  }

  /** The separator goes between every two parts: joining one more part
      appends the separator and that part. */
  lemma {:induction false} JoinAppend(parts: seq<seq<char>>, last: seq<char>, sep: seq<char>)
    requires parts != []
    ensures Join(parts + [last], sep) == Join(parts, sep) + sep + last
    decreases |parts|
  {
    if |parts| == 1 {
      assert parts + [last] == [parts[0], last];
      assert [parts[0], last][1..] == [last];
    } else {
      assert (parts + [last])[1..] == parts[1..] + [last];
      JoinAppend(parts[1..], last, sep);
    }
  }

  /** `split` and `join` are inverse: joining the pieces with the separator
      gives back the original string. */
  lemma {:induction false} JoinSplit(s: seq<char>, c: char)
    ensures Join(Split(s, c), [c]) == s
    decreases |s|
  {
    match IndexOfChar(s, c)
    case None =>
    case Some(i) =>
      JoinSplit(s[i + 1..], c);
      assert s == s[..i] + [c] + s[i + 1..];
  }

  /** The other direction: splitting pieces joined by a separator they do
      not contain gives the pieces back. */
  lemma {:induction false} SplitJoin(parts: seq<seq<char>>, c: char)
    requires |parts| > 0
    requires forall k :: 0 <= k < |parts| ==> c !in parts[k]
    ensures Split(Join(parts, [c]), c) == parts
    decreases |parts|
  {
    if |parts| > 1 {
      var s := Join(parts, [c]);
      var rest := Join(parts[1..], [c]);
      var n := |parts[0]|;
      assert s == parts[0] + [c] + rest;
      assert s[n] == c && s[..n] == parts[0] && s[n + 1..] == rest;
      IndexOfCharIs(s, c, n);
      assert Split(s, c) == [parts[0]] + Split(rest, c);
      SplitJoin(parts[1..], c);
      assert parts == [parts[0]] + parts[1..];
    } else {
      assert Join(parts, [c]) == parts[0];
    }
  }

  /** The first occurrence of `c` is where `c` occurs with none before it. */
  lemma IndexOfCharIs(s: seq<char>, c: char, i: nat)
    requires i < |s| && s[i] == c && c !in s[..i]
    ensures IndexOfChar(s, c) == Some(i)
  {
    var r := IndexOfChar(s, c);
    assert forall k :: 0 <= k < i ==> s[..i][k] == s[k];
    assert r.Some? && r.value <= i;
    assert forall k :: 0 <= k < r.value ==> s[..r.value][k] == s[k];
  }

  /** The character for a decimal digit. */
  function Digit(d: nat): (c: char)
    requires d < 10
    ensures '0' <= c <= '9'
  {
    ['0', '1', '2', '3', '4', '5', '6', '7', '8', '9'][d]
  }

  /** The decimal rendering of a natural number, as `${n}` produces it. */
  function NatToString(n: nat): (r: seq<char>)
    ensures |r| > 0
    ensures forall k :: 0 <= k < |r| ==> '0' <= r[k] <= '9'
    ensures (n < 10) == (|r| == 1)
  {
    if n < 10 then [Digit(n)] else NatToString(n / 10) + [Digit(n % 10)]
  }

  /** Distinct numbers render as distinct strings. */
  lemma {:induction false} NatToStringInjective(a: nat, b: nat)
    requires NatToString(a) == NatToString(b)
    ensures a == b
    decreases a
  {
    var s := NatToString(a);
    if a >= 10 && b >= 10 {
      assert Digit(a % 10) == s[|s| - 1] == Digit(b % 10);
      assert a % 10 == b % 10;
      assert NatToString(a / 10) == s[..|s| - 1] == NatToString(b / 10);
      NatToStringInjective(a / 10, b / 10);
    } else {
      assert a < 10 && b < 10;
      assert Digit(a) == Digit(b);
    }
  }
}
