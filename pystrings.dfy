/** The parts of Python's `str` semantics that the formatter and the linter rely on:
    whitespace, `strip`, `find`/`split(sep, 1)`, `in`, `count`, slicing with a possibly
    negative bound, string repetition, `split("\n")` and `"\n".join`. */
module PyStrings {
  import opened Seqs


  datatype Option<T> = None | Some(value: T)

  /** Python's `str.isspace()` for one character, which is also what `\s` matches in a
      `str` pattern. */
  predicate IsSpace(c: char)
  {
    || c == ' ' || ('\t' <= c <= '\r') || ('\U{1c}' <= c <= '\U{1f}')
    || c == '\U{85}' || c == '\U{a0}' || c == '\U{1680}'
    || ('\U{2000}' <= c <= '\U{200a}')
    || c == '\U{2028}' || c == '\U{2029}' || c == '\U{202f}' || c == '\U{205f}' || c == '\U{3000}'
  }

  predicate AllSpace(s: string)
  {
    forall i :: 0 <= i < |s| ==> IsSpace(s[i])
  }

  /** The first index at or after `i` that does not hold whitespace, or `|s|`. */
  function SkipSpace(s: string, i: nat): (j: nat)
    requires i <= |s|
    ensures i <= j <= |s|
    ensures forall k :: i <= k < j ==> IsSpace(s[k])
    ensures j < |s| ==> !IsSpace(s[j])
    decreases |s| - i
  {
    if i == |s| || !IsSpace(s[i]) then i else SkipSpace(s, i + 1)
  }

  /** Length of the run of whitespace at the front of `s` (what a greedy `\s*` consumes). */
  function SpaceRun(s: string): (n: nat)
    ensures n <= |s|
    ensures forall k :: 0 <= k < n ==> IsSpace(s[k])
    ensures n < |s| ==> !IsSpace(s[n])
  {
    SkipSpace(s, 0)
  }

  /** The end of `s[lo..j]` once trailing whitespace is dropped. */
  function TrimEnd(s: string, lo: nat, j: nat): (r: nat)
    requires lo <= j <= |s|
    ensures lo <= r <= j
    ensures forall k :: r <= k < j ==> IsSpace(s[k])
    ensures lo < r ==> !IsSpace(s[r - 1])
    decreases j
  {
    if j == lo || !IsSpace(s[j - 1]) then j else TrimEnd(s, lo, j - 1)
  }

  /** `s.strip()`: the middle of `s` with both whitespace ends removed. */
  function Strip(s: string): (r: string)
    ensures |r| <= |s|
    ensures r == [] || (!IsSpace(r[0]) && !IsSpace(r[|r| - 1]))
  {
    var front := SpaceRun(s);
    s[front..TrimEnd(s, front, |s|)]
  }

  /** What `strip` removes is whitespace at both ends and nothing else. */
  lemma StripIsInfix(s: string)
    ensures exists i, j :: 0 <= i <= j <= |s| && Strip(s) == s[i..j] && AllSpace(s[..i]) && AllSpace(s[j..])
  {
    var front := SpaceRun(s);
    var back := TrimEnd(s, front, |s|);
    assert AllSpace(s[..front]);
    assert AllSpace(s[back..]);
  }

  /** The characters of `s` that are not whitespace, in order. */
  function NonSpace(s: string): string
  {
    if s == [] then [] else (if IsSpace(s[0]) then [] else [s[0]]) + NonSpace(s[1..])
  }

  lemma {:induction false} NonSpaceAppend(a: string, b: string)
    ensures NonSpace(a + b) == NonSpace(a) + NonSpace(b)
  {
    if a == [] {
      assert a + b == b;
    } else {
      assert (a + b)[1..] == a[1..] + b;
      NonSpaceAppend(a[1..], b);
    }
  }

  lemma NonSpaceCons(c: char, s: string)
    ensures NonSpace([c] + s) == (if IsSpace(c) then [] else [c]) + NonSpace(s)
  {
    assert ([c] + s)[1..] == s;
  }

  lemma {:induction false} NonSpaceOfSpaces(s: string)
    requires AllSpace(s)
    ensures NonSpace(s) == []
  {
    if s != [] {
      NonSpaceOfSpaces(s[1..]);
    }
  }

  /** Dropping whitespace from both ends keeps the non-whitespace text. */
  lemma NonSpaceOfInfix(s: string, i: nat, j: nat)
    requires i <= j <= |s| && AllSpace(s[..i]) && AllSpace(s[j..])
    ensures NonSpace(s[i..j]) == NonSpace(s)
  {
    var front, middle, back := s[..i], s[i..j], s[j..];
    ThreeParts(s, i, j);
    NonSpaceAppend(front + middle, back);
    NonSpaceAppend(front, middle);
    NonSpaceOfSpaces(front);
    NonSpaceOfSpaces(back);
  }

  /** Stripping removes only whitespace. */
  lemma NonSpaceStrip(s: string)
    ensures NonSpace(Strip(s)) == NonSpace(s)
  {
    var front := SpaceRun(s);
    var back := TrimEnd(s, front, |s|);
    assert AllSpace(s[..front]);
    assert AllSpace(s[back..]);
    NonSpaceOfInfix(s, front, back);
  }

  predicate OccursAt(s: string, pat: string, i: nat)
  {
    i + |pat| <= |s| && s[i..i + |pat|] == pat
  }

  /** The first occurrence of `pat` in `s` at or after `from`, or -1. */
  function FindFrom(s: string, pat: string, from: nat): (r: int)
    ensures r == -1 || (from <= r <= |s| && OccursAt(s, pat, r))
    ensures forall k: nat :: from <= k && (r < 0 || k < r) ==> !OccursAt(s, pat, k)
    decreases |s| - from
  {
    if from + |pat| > |s| then -1
    else if OccursAt(s, pat, from) then from
    else FindFrom(s, pat, from + 1)
  }

  /** `s.find(pat)`: the index of the first occurrence of `pat` in `s`, or -1. */
  function Find(s: string, pat: string): (r: int)
    ensures r == -1 || (0 <= r <= |s| && OccursAt(s, pat, r))
    ensures forall k: nat :: r < 0 || k < r ==> !OccursAt(s, pat, k)
  {
    FindFrom(s, pat, 0)
  }

  /** `pat in s`. */
  predicate Contains(s: string, pat: string)
  {
    Find(s, pat) >= 0
  }

  lemma ContainsIff(s: string, pat: string)
    ensures Contains(s, pat) <==> exists k: nat :: k <= |s| && OccursAt(s, pat, k)
  {
  }

  /** An occurrence in a padded string of a pattern that does not start with a space lies
      after the padding. */
  lemma OccursAfterPad(pad: string, s: string, pat: string, k: nat)
    requires forall i :: 0 <= i < |pad| ==> pad[i] == ' '
    requires pat != [] && pat[0] != ' '
    requires OccursAt(pad + s, pat, k)
    ensures k >= |pad| && OccursAt(s, pat, k - |pad|)
  {
    var t := pad + s;
    assert t[k] == pat[0];
    assert s[k - |pad|..k - |pad| + |pat|] == t[k..k + |pat|];
  }

  /** Padding moves every occurrence right by its width. */
  lemma OccursBehindPad(pad: string, s: string, pat: string, k: nat)
    requires OccursAt(s, pat, k)
    ensures OccursAt(pad + s, pat, k + |pad|)
  {
    var t := pad + s;
    assert t[k + |pad|..k + |pad| + |pat|] == s[k..k + |pat|];
  }

  /** Spaces in front of a string cannot create or hide an occurrence of a pattern that
      starts with something else. */
  lemma ContainsAfterSpaces(pad: string, s: string, pat: string)
    requires forall k :: 0 <= k < |pad| ==> pad[k] == ' '
    requires pat != [] && pat[0] != ' '
    ensures Contains(pad + s, pat) <==> Contains(s, pat)
  {
    var t := pad + s;
    ContainsIff(t, pat);
    ContainsIff(s, pat);
    if Contains(t, pat) {
      var k: nat :| k <= |t| && OccursAt(t, pat, k);
      OccursAfterPad(pad, s, pat, k);
    }
    if Contains(s, pat) {
      var k: nat :| k <= |s| && OccursAt(s, pat, k);
      OccursBehindPad(pad, s, pat, k);
    }
  }

  /** `s.split(sep, 1)[0]`, also `s.split(sep)[0]`: the text before the first `sep`, or
      all of `s` when there is none. */
  function Before(s: string, sep: string): (r: string)
    ensures !Contains(s, sep) ==> r == s
    ensures Contains(s, sep) ==> r == s[..Find(s, sep)]
  {
    var k := Find(s, sep);
    if k < 0 then s else s[..k]
  }

  /** `s.split(sep, 1)[1]`: the text after the first `sep`; empty when there is none. */
  function After(s: string, sep: string): (r: string)
    ensures Contains(s, sep) ==> r == s[Find(s, sep) + |sep|..]
  {
    var k := Find(s, sep);
    if k < 0 then [] else s[k + |sep|..]
  }

  /** Splitting at the first separator loses nothing: the text before it, the separator and
      the text after it make up the string again. */
  lemma SplitAtSeparator(s: string, sep: string)
    requires Contains(s, sep)
    ensures s == Before(s, sep) + sep + After(s, sep)
  {
    var k := Find(s, sep);
    assert s == s[..k] + s[k..k + |sep|] + s[k + |sep|..];
  }

  /** The text before the first `sep` never contains `sep` (for a non-empty `sep`). */
  lemma BeforeHasNoSeparator(s: string, sep: string)
    requires sep != []
    ensures !Contains(Before(s, sep), sep)
  {
    var b := Before(s, sep);
    forall k: nat | k <= |b|
      ensures !OccursAt(b, sep, k)
    {
      if k + |sep| <= |b| {
        assert b[k..k + |sep|] == s[k..k + |sep|];
        assert !OccursAt(s, sep, k);
      }
    }
    ContainsIff(b, sep);
  }

  /** `s.count(c)` for a single character. */
  function Count(s: string, c: char): nat
  {
    if s == [] then 0 else (if s[0] == c then 1 else 0) + Count(s[1..], c)
  }

  lemma {:induction false} CountAppend(a: string, b: string, c: char)
    ensures Count(a + b, c) == Count(a, c) + Count(b, c)
  {
    if a == [] {
      assert a + b == b;
    } else {
      assert (a + b)[1..] == a[1..] + b;
      CountAppend(a[1..], b, c);
    }
  }

  /** `s.startswith(p)`. */
  predicate StartsWith(s: string, p: string)
  {
    |p| <= |s| && s[..|p|] == p
  }

  /** `s.endswith(p)`. */
  predicate EndsWith(s: string, p: string)
  {
    |p| <= |s| && s[|s| - |p|..] == p
  }

  /** `re.match(r"^\*\s", s)`: a full-line star comment. */
  predicate IsStarComment(s: string)
  {
    |s| >= 2 && s[0] == '*' && IsSpace(s[1])
  }

  /** `" " * n`: `n` spaces, and the empty string when `n <= 0`. */
  function Spaces(n: int): (r: string)
    ensures |r| == if n <= 0 then 0 else n
    ensures forall i :: 0 <= i < |r| ==> r[i] == ' '
  {
    if n <= 0 then [] else [' '] + Spaces(n - 1)
  }

  /** `t[:n]`: Python's prefix slice, where a negative `n` counts from the end. */
  function Head(t: string, n: int): (r: string)
    ensures |r| <= |t| && r == t[..|r|]
    ensures 0 <= n ==> |r| == if n <= |t| then n else |t|
    ensures n < 0 ==> |r| == if -n <= |t| then |t| + n else 0
    ensures n < |t| && t != [] ==> |r| < |t|
  {
    if 0 <= n then (if n <= |t| then t[..n] else t)
    else if -n <= |t| then t[..|t| + n]
    else []
  }

  /** The index of the first `c` in `s`, or -1. */
  function IndexOf(s: string, c: char, from: nat): (r: int)
    requires from <= |s|
    ensures r == -1 || (from <= r < |s| && s[r] == c)
    ensures forall k :: from <= k < |s| && (r < 0 || k < r) ==> s[k] != c
    decreases |s| - from
  {
    if from == |s| then -1 else if s[from] == c then from else IndexOf(s, c, from + 1)
  }

  /** `s.split("\n")`: never empty, one element more than there are newlines. */
  function SplitLines(s: string): (r: seq<string>)
    ensures |r| >= 1
    ensures forall i :: 0 <= i < |r| ==> '\n' !in r[i]
    decreases |s|
  {
    var k := IndexOf(s, '\n', 0);
    if k < 0 then [s]
    else [s[..k]] + SplitLines(s[k + 1..])
  }

  /** `"\n".join(xs)`. */
  function JoinLines(xs: seq<string>): string
  {
    if xs == [] then []
    else if |xs| == 1 then xs[0]
    else xs[0] + "\n" + JoinLines(xs[1..])
  }

  lemma JoinCons(a: string, rest: seq<string>)
    requires rest != []
    ensures JoinLines([a] + rest) == a + "\n" + JoinLines(rest)
  {
    assert ([a] + rest)[1..] == rest;
  }

  lemma AroundNewline(s: string, k: nat)
    requires k < |s| && s[k] == '\n'
    ensures s == s[..k] + "\n" + s[k + 1..]
  {
  }

  /** Joining what was split gives the text back. */
  lemma {:induction false} JoinSplit(s: string)
    ensures JoinLines(SplitLines(s)) == s
    decreases |s|
  {
    var k := IndexOf(s, '\n', 0);
    if k >= 0 {
      var rest := SplitLines(s[k + 1..]);
      assert SplitLines(s) == [s[..k]] + rest;
      JoinSplit(s[k + 1..]);
      JoinCons(s[..k], rest);
      AroundNewline(s, k);
    }
  }

  lemma FirstNewline(head: string, tail: string)
    requires '\n' !in head
    ensures IndexOf(head + "\n" + tail, '\n', 0) == |head|
  {
    var s := head + "\n" + tail;
    assert forall i :: 0 <= i < |head| ==> s[i] == head[i];
    assert s[|head|] == '\n';
    var r := IndexOf(s, '\n', 0);
    assert r != -1;
    assert r >= |head|;
  }

  /** Splitting what was joined gives the lines back, as long as no line holds a newline. */
  lemma {:induction false} SplitJoin(xs: seq<string>)
    requires |xs| >= 1
    requires forall i :: 0 <= i < |xs| ==> '\n' !in xs[i]
    ensures SplitLines(JoinLines(xs)) == xs
  {
    if |xs| == 1 {
      assert IndexOf(xs[0], '\n', 0) == -1;
    } else {
      var tail := JoinLines(xs[1..]);
      JoinCons(xs[0], xs[1..]);
      assert [xs[0]] + xs[1..] == xs;
      var s := xs[0] + "\n" + tail;
      FirstNewline(xs[0], tail);
      assert s[..|xs[0]|] == xs[0] && s[|xs[0]| + 1..] == tail;
      assert SplitLines(s) == [xs[0]] + SplitLines(tail);
      SplitJoin(xs[1..]);
    }
  }
}
