/**
 * The string operations the rule pipeline relies on, written out over `seq<char>`:
 * whitespace stripping, substring search and split-at-first-occurrence, splitting
 * on a separator character, ASCII lower-casing and line splitting.
 */
module Strings {
  import opened Wrappers

  /** The whitespace set the model fixes for stripping and for the regex class `\s`. */
  predicate IsSpace(c: char) {
    c == ' ' || c == '\t' || c == '\n' || c == '\r' || c == '\U{B}' || c == '\U{C}'
  }

  predicate AllSpace(s: string) {
    forall k :: 0 <= k < |s| ==> IsSpace(s[k])
  }

  /** The first index at or after `i` that does not hold whitespace. */
  function SkipSpace(s: string, i: nat): (j: nat)
    requires i <= |s|
    ensures i <= j <= |s|
    ensures forall k :: i <= k < j ==> IsSpace(s[k])
    ensures j < |s| ==> !IsSpace(s[j])
    decreases |s| - i
  {
    if i < |s| && IsSpace(s[i]) then SkipSpace(s, i + 1) else i
  }

  /** The smallest index `k` in `lo..j` such that `s[k..j]` is all whitespace. */
  function BackSpace(s: string, lo: nat, j: nat): (k: nat)
    requires lo <= j <= |s|
    ensures lo <= k <= j
    ensures forall m :: k <= m < j ==> IsSpace(s[m])
    ensures k > lo ==> !IsSpace(s[k - 1])
    decreases j
  {
    if j > lo && IsSpace(s[j - 1]) then BackSpace(s, lo, j - 1) else j
  }

  /** Python's `str.strip()` with no argument, over the model's whitespace set. */
  function Strip(s: string): (r: string)
    ensures |r| <= |s|
    ensures r == [] <==> AllSpace(s)
    ensures r != [] ==> !IsSpace(r[0]) && !IsSpace(r[|r| - 1])
  {
    var i := SkipSpace(s, 0);
    var j := BackSpace(s, i, |s|);
    assert j > i ==> s[i..j][0] == s[i] && s[i..j][j - i - 1] == s[j - 1];
    s[i..j]
  }

  /** Stripping removes whitespace at both ends and nothing else: the result is a slice with only whitespace around it. */
  lemma StripOuterSpace(s: string)
    ensures exists i, j :: 0 <= i <= j <= |s| && Strip(s) == s[i..j] && AllSpace(s[..i]) && AllSpace(s[j..])
  {
    var i := SkipSpace(s, 0);
    var j := BackSpace(s, i, |s|);
    assert Strip(s) == s[i..j];
    assert AllSpace(s[..i]) && AllSpace(s[j..]);
  }

  /** A text with no whitespace at either end is its own strip. */
  lemma StripTrimmed(t: string)
    requires t == [] || (!IsSpace(t[0]) && !IsSpace(t[|t| - 1]))
    ensures Strip(t) == t
  {
    assert SkipSpace(t, 0) == 0;
    assert BackSpace(t, 0, |t|) == |t|;
    assert t[0..|t|] == t;
  }

  lemma StripIdempotent(s: string)
    ensures Strip(Strip(s)) == Strip(s)
  {
    StripTrimmed(Strip(s));
  }

  /** `t` occurs in `s` starting at index `i`. */
  predicate OccursAt(s: string, t: string, i: nat) {
    i + |t| <= |s| && s[i..i + |t|] == t
  }

  function FindFrom(s: string, t: string, i: nat): (r: Option<nat>)
    requires i <= |s|
    ensures r.Some? ==> i <= r.value && OccursAt(s, t, r.value)
    ensures r.Some? ==> forall j :: i <= j < r.value ==> !OccursAt(s, t, j)
    ensures r.None? ==> forall j :: i <= j ==> !OccursAt(s, t, j)
    decreases |s| - i
  {
    if i + |t| > |s| then None
    else if s[i..i + |t|] == t then Some(i)
    else if i == |s| then None
    else FindFrom(s, t, i + 1)
  }

  /** The index of the first occurrence of `t` in `s`, as Python's `str.find`. */
  function Find(s: string, t: string): (r: Option<nat>)
    ensures r.Some? ==> OccursAt(s, t, r.value) && forall j :: 0 <= j < r.value ==> !OccursAt(s, t, j)
    ensures r.None? ==> forall j :: 0 <= j ==> !OccursAt(s, t, j)
  {
    FindFrom(s, t, 0)
  }

  /** Python's `t in s` for strings. */
  predicate Contains(s: string, t: string) {
    Find(s, t).Some?
  }

  /** Python's `s.startswith(p)`. */
  predicate StartsWith(s: string, p: string) {
    |p| <= |s| && s[..|p|] == p
  }

  /** `s.split(t, 1)[0]` when `t` occurs in `s`. */
  function Before(s: string, t: string): string
    requires Contains(s, t)
  {
    s[..Find(s, t).value]
  }

  /** `s.split(t, 1)[1]` when `t` occurs in `s`. */
  function After(s: string, t: string): string
    requires Contains(s, t)
  {
    s[Find(s, t).value + |t|..]
  }

  /** A string contains anything it is built around. */
  lemma ContainsInside(a: string, t: string, b: string)
    ensures Contains(a + t + b, t)
  {
    var u := a + t + b;
    assert u[|a|..|a| + |t|] == t;
    assert OccursAt(u, t, |a|);
  }

  /**
   * Splitting at the first occurrence is undone by joining around the separator,
   * and the part before it holds no occurrence of the separator.
   */
  lemma SplitFirstJoins(s: string, t: string)
    requires t != [] && Contains(s, t)
    ensures Before(s, t) + t + After(s, t) == s
    ensures !Contains(Before(s, t), t)
  {
    var i := Find(s, t).value;
    assert s[..i] + s[i..i + |t|] + s[i + |t|..] == s;
    var b := Before(s, t);
    forall j | 0 <= j
      ensures !OccursAt(b, t, j)
    {
      if j + |t| <= |b| {
        assert j < i && !OccursAt(s, t, j);
        assert b[j..j + |t|] == s[j..j + |t|];
      }
    }
  }

  /** Python's `s.split(c)` for a one-character separator. */
  function Split(s: string, c: char): (r: seq<string>)
    ensures |r| >= 1
    ensures forall k :: 0 <= k < |r| ==> c !in r[k]
    decreases |s|
  {
    if s == [] then [[]]
    else
      var rest := Split(s[1..], c);
      if s[0] == c then [[]] + rest else [[s[0]] + rest[0]] + rest[1..]
  }

  /** Python's `c.join(parts)` for a one-character separator. */
  function Join(parts: seq<string>, c: char): string
    requires |parts| >= 1
  {
    if |parts| == 1 then parts[0] else parts[0] + [c] + Join(parts[1..], c)
  }

  /** Python's `sep.join(parts)`: the parts with `sep` between neighbours; empty for no parts. */
  function JoinWith(parts: seq<string>, sep: string): string {
    if parts == [] then []
    else if |parts| == 1 then parts[0]
    else parts[0] + sep + JoinWith(parts[1..], sep)
  }

  lemma {:induction false} JoinSplit(s: string, c: char)
    ensures Join(Split(s, c), c) == s
    decreases |s|
  {
    if s != [] {
      JoinSplit(s[1..], c);
      var rest := Split(s[1..], c);
      if s[0] == c {
        assert Split(s, c) == [[]] + rest;
        assert ([[]] + rest)[1..] == rest;
      } else {
        assert Split(s, c) == [[s[0]] + rest[0]] + rest[1..];
        JoinPrepend([s[0]], rest, c);
      }
      assert s == [s[0]] + s[1..];
    }
  }

  /** Text put in front of the first part comes out in front of the joined text. */
  lemma JoinPrepend(x: string, parts: seq<string>, c: char)
    requires |parts| >= 1
    ensures Join([x + parts[0]] + parts[1..], c) == x + Join(parts, c)
  {
    var q := [x + parts[0]] + parts[1..];
    if |parts| > 1 {
      assert q[1..] == parts[1..];
    }
  }

  /** Splitting a text with no separator in it leaves it whole. */
  lemma {:induction false} SplitNoSeparator(p: string, c: char)
    requires c !in p
    ensures Split(p, c) == [p]
    decreases |p|
  {
    if p != [] {
      SplitNoSeparator(p[1..], c);
      assert [p[0]] + p[1..] == p;
    }
  }

  /** Splitting `p + [c] + q`, where `p` holds no separator, yields `p` and then the pieces of `q`. */
  lemma {:induction false} SplitAfterPiece(p: string, c: char, q: string)
    requires c !in p
    ensures Split(p + [c] + q, c) == [p] + Split(q, c)
    decreases |p|
  {
    if p == [] {
      assert ([] + [c] + q)[1..] == q;
    } else {
      SplitAfterPiece(p[1..], c, q);
      var s := p + [c] + q;
      assert s[0] == p[0];
      assert s[1..] == p[1..] + [c] + q;
      var rest := Split(s[1..], c);
      assert rest == [p[1..]] + Split(q, c);
      assert [p[0]] + p[1..] == p;
    }
  }

  /** Joining pieces free of the separator is undone by splitting. */
  lemma {:induction false} SplitJoin(parts: seq<string>, c: char)
    requires |parts| >= 1
    requires forall k :: 0 <= k < |parts| ==> c !in parts[k]
    ensures Split(Join(parts, c), c) == parts
    decreases |parts|
  {
    if |parts| == 1 {
      SplitNoSeparator(parts[0], c);
    } else {
      SplitJoin(parts[1..], c);
      SplitAfterPiece(parts[0], c, Join(parts[1..], c));
      assert [parts[0]] + parts[1..] == parts;
    }
  }

  /** Python's `str.lower()` restricted to ASCII letters. */
  function LowerChar(ch: char): char {
    if 'A' <= ch <= 'Z' then (ch as int + 32) as char else ch
  }

  function ToLower(s: string): (r: string)
    ensures |r| == |s| && forall k :: 0 <= k < |s| ==> r[k] == LowerChar(s[k])
  {
    seq(|s|, k requires 0 <= k < |s| => LowerChar(s[k]))
  }

  /** Python's `s.replace(a, b)` for one-character `a` and `b`. */
  function ReplaceChar(s: string, a: char, b: char): (r: string)
    ensures |r| == |s| && forall k :: 0 <= k < |s| ==> r[k] == (if s[k] == a then b else s[k])
  {
    seq(|s|, k requires 0 <= k < |s| => if s[k] == a then b else s[k])
  }

  /**
   * Python's `s.splitlines()` with `\n` as the only line separator: a final
   * separator does not open an extra, empty line, and the empty text has no lines.
   */
  function Lines(s: string): (r: seq<string>)
    ensures forall k :: 0 <= k < |r| ==> '\n' !in r[k]
  {
    if s == [] then []
    else
      var parts := Split(s, '\n');
      if parts[|parts| - 1] == [] then parts[..|parts| - 1] else parts
  }

  /** The text made of the given lines, each followed by `\n`. */
  function Unlines(ls: seq<string>): string {
    if ls == [] then [] else ls[0] + "\n" + Unlines(ls[1..])
  }

  lemma {:induction false} UnlinesAsJoin(ls: seq<string>)
    requires ls != []
    ensures Unlines(ls) == Join(ls + [[]], '\n')
    decreases |ls|
  {
    if |ls| == 1 {
      assert ls + [[]] == [ls[0], []];
      assert Join([ls[0], []], '\n') == ls[0] + "\n" + Join([[]], '\n');
    } else {
      UnlinesAsJoin(ls[1..]);
      assert (ls + [[]])[1..] == ls[1..] + [[]];
    }
  }

  /** Line splitting undoes writing the lines out, one `\n` after each. */
  lemma LinesUnlines(ls: seq<string>)
    requires forall k :: 0 <= k < |ls| ==> '\n' !in ls[k]
    ensures Lines(Unlines(ls)) == ls
  {
    if ls != [] {
      UnlinesAsJoin(ls);
      SplitJoin(ls + [[]], '\n');
      assert (ls + [[]])[..|ls|] == ls;
    }
  }
}
