/** `_format_line`: three regular-expression substitutions and a strip. Each substitution is
    written as the left-to-right scan that `re.sub` performs: at each position the pattern
    is tried, a match is replaced and scanning resumes after it, otherwise one character is
    copied. */
module Respace {
  import opened PyStrings
  import opened Seqs

  /** No two whitespace characters stand next to each other. */
  predicate NoDoubleSpace(s: string)
  {
    forall i :: 0 <= i < |s| - 1 ==> !IsSpace(s[i]) || !IsSpace(s[i + 1])
  }

  /** `s` with its leading whitespace removed (what a trailing greedy `\s*` consumes). */
  function DropSpace(s: string): (r: string)
    ensures |r| <= |s|
  {
    s[SpaceRun(s)..]
  }

  /** `re.sub(r"\s*,\s*", ", ", s)`. */
  function SpaceCommas(s: string): string
    decreases |s|
  {
    if s == [] then []
    else
      var w := SpaceRun(s);
      if w < |s| && s[w] == ',' then ", " + SpaceCommas(DropSpace(s[w + 1..]))
      else [s[0]] + SpaceCommas(s[1..])
  }

  /** The alternatives of the operator group, two-character ones first, as they are tried. */
  const TwoCharOperators: seq<string> := ["==", "!=", "~=", ">=", "<=", "||"]
  const OneCharOperators: seq<char> := ['>', '<', '=', '&', '|']

  /** Length of the operator that `(==|!=|~=|>=|<=|\|\||>|<|=|&|\|)` matches at the front of
      `s`, trying the alternatives in order, or 0. */
  function OperatorLength(s: string): (k: nat)
    ensures k <= |s|
    ensures k == 0 || !IsSpace(s[0])
  {
    if |s| >= 2 && s[..2] in TwoCharOperators then 2
    else if |s| >= 1 && s[0] in OneCharOperators then 1
    else 0
  }

  /** A token the operator group accepts as a whole. */
  predicate IsOperator(t: string)
  {
    t in TwoCharOperators || (|t| == 1 && t[0] in OneCharOperators)
  }

  /** Trying the alternatives in order gives the longest operator at the front of `s`: what
      is matched is an operator, and no longer prefix is one, so `>=` is never split into
      `>` and `=`. */
  lemma OperatorLongestMatch(s: string)
    ensures OperatorLength(s) > 0 ==> IsOperator(s[..OperatorLength(s)])
    ensures forall j :: 1 <= j <= |s| && IsOperator(s[..j]) ==> j <= OperatorLength(s)
  {
  }

  /** `re.sub(r"\s*(==|!=|~=|>=|<=|\|\||>|<|=|&|\|)\s*", r" \1 ", s)`. */
  function SpaceOperators(s: string): string
    decreases |s|
  {
    if s == [] then []
    else
      var w := SpaceRun(s);
      var k := OperatorLength(s[w..]);
      if k > 0 then " " + s[w..w + k] + " " + SpaceOperators(DropSpace(s[w + k..]))
      else [s[0]] + SpaceOperators(s[1..])
  }

  /** `re.sub(r"\s{2,}", " ", s)`: every run of two or more whitespace characters becomes
      one space; a lone whitespace character is kept as it is. */
  function CollapseSpaces(s: string): string
    decreases |s|
  {
    if s == [] then []
    else
      var w := SpaceRun(s);
      if w >= 2 then " " + CollapseSpaces(s[w..])
      else [s[0]] + CollapseSpaces(s[1..])
  }

  /** `_format_line`: the respaced line has no whitespace at either end, never two
      whitespace characters in a row, and the same non-whitespace characters in the same
      order as the input. */
  function FormatLine(line: string): (r: string)
    ensures r == [] || (!IsSpace(r[0]) && !IsSpace(r[|r| - 1]))
    ensures NoDoubleSpace(r)
    ensures NonSpace(r) == NonSpace(line)
  {
    var commas := SpaceCommas(line);
    var operators := SpaceOperators(commas);
    var collapsed := CollapseSpaces(operators);
    SpaceCommasKeepsText(line);
    SpaceOperatorsKeepsText(commas);
    CollapseKeepsText(operators);
    CollapseNoDoubleSpace(operators);
    StripNoDoubleSpace(collapsed);
    NonSpaceStrip(collapsed);
    Strip(collapsed)
  }

  lemma NonSpaceOfDropped(s: string)
    ensures NonSpace(DropSpace(s)) == NonSpace(s)
  {
    var w := SpaceRun(s);
    assert s == s[..w] + s[w..];
    NonSpaceAppend(s[..w], s[w..]);
    NonSpaceOfSpaces(s[..w]);
  }

  /** `NonSpace` of a string that starts with a run of whitespace, a token and a tail. */
  lemma NonSpaceSplit(s: string, w: nat, k: nat)
    requires w + k <= |s|
    requires AllSpace(s[..w])
    ensures NonSpace(s) == NonSpace(s[w..w + k]) + NonSpace(s[w + k..])
  {
    var front, middle, back := s[..w], s[w..w + k], s[w + k..];
    ThreeParts(s, w, w + k);
    NonSpaceAppend(front + middle, back);
    NonSpaceAppend(front, middle);
    NonSpaceOfSpaces(front);
  }

  lemma NonSpaceCommaSpace(x: string)
    ensures NonSpace(", " + x) == [','] + NonSpace(x)
  {
    assert ", " + x == [','] + ([' '] + x);
    NonSpaceCons(',', [' '] + x);
    NonSpaceCons(' ', x);
  }

  lemma NonSpacePadded(tok: string, x: string)
    ensures NonSpace(" " + tok + " " + x) == NonSpace(tok) + NonSpace(x)
  {
    assert " " + tok + " " + x == [' '] + (tok + ([' '] + x));
    NonSpaceCons(' ', tok + ([' '] + x));
    NonSpaceAppend(tok, [' '] + x);
    NonSpaceCons(' ', x);
  }

  /** The comma and the whitespace around it are all a comma match consumes. */
  lemma NonSpaceAtComma(s: string, w: nat)
    requires w < |s| && s[w] == ',' && AllSpace(s[..w])
    ensures NonSpace(s) == [','] + NonSpace(DropSpace(s[w + 1..]))
  {
    var comma, rest := s[w..w + 1], s[w + 1..];
    NonSpaceOfDropped(rest);
    NonSpaceSplit(s, w, 1);
    assert comma == [','];
    assert NonSpace(comma) == [','];
    Rejoin(NonSpace(s), NonSpace(comma), NonSpace(rest), [','], NonSpace(DropSpace(rest)));
  }

  lemma {:induction false} SpaceCommasKeepsText(s: string)
    ensures NonSpace(SpaceCommas(s)) == NonSpace(s)
    decreases |s|
  {
    if s != [] {
      var w := SpaceRun(s);
      if w < |s| && s[w] == ',' {
        var rest := DropSpace(s[w + 1..]);
        assert SpaceCommas(s) == ", " + SpaceCommas(rest);
        SpaceCommasKeepsText(rest);
        assert AllSpace(s[..w]);
        NonSpaceAtComma(s, w);
        NonSpaceCommaSpace(SpaceCommas(rest));
      } else {
        assert SpaceCommas(s) == [s[0]] + SpaceCommas(s[1..]);
        SpaceCommasKeepsText(s[1..]);
        NonSpaceCons(s[0], SpaceCommas(s[1..]));
        assert NonSpace(s) == (if IsSpace(s[0]) then [] else [s[0]]) + NonSpace(s[1..]);
      }
    }
  }

  lemma {:induction false} SpaceOperatorsKeepsText(s: string)
    ensures NonSpace(SpaceOperators(s)) == NonSpace(s)
    decreases |s|
  {
    if s != [] {
      var w := SpaceRun(s);
      var k := OperatorLength(s[w..]);
      if k > 0 {
        var op := s[w..w + k];
        var rest := DropSpace(s[w + k..]);
        assert SpaceOperators(s) == " " + op + " " + SpaceOperators(rest);
        SpaceOperatorsKeepsText(rest);
        NonSpaceOfDropped(s[w + k..]);
        NonSpaceSplit(s, w, k);
        NonSpacePadded(op, SpaceOperators(rest));
      } else {
        assert SpaceOperators(s) == [s[0]] + SpaceOperators(s[1..]);
        SpaceOperatorsKeepsText(s[1..]);
        NonSpaceCons(s[0], SpaceOperators(s[1..]));
        assert NonSpace(s) == (if IsSpace(s[0]) then [] else [s[0]]) + NonSpace(s[1..]);
      }
    }
  }

  lemma {:induction false} CollapseKeepsText(s: string)
    ensures NonSpace(CollapseSpaces(s)) == NonSpace(s)
    decreases |s|
  {
    if s != [] {
      var w := SpaceRun(s);
      if w >= 2 {
        var t := s[w..];
        assert CollapseSpaces(s) == " " + CollapseSpaces(t);
        CollapseKeepsText(t);
        NonSpaceSplit(s, w, 0);
        assert s[w..w] == [];
        NonSpaceCons(' ', CollapseSpaces(t));
      } else {
        assert CollapseSpaces(s) == [s[0]] + CollapseSpaces(s[1..]);
        CollapseKeepsText(s[1..]);
        NonSpaceCons(s[0], CollapseSpaces(s[1..]));
        assert NonSpace(s) == (if IsSpace(s[0]) then [] else [s[0]]) + NonSpace(s[1..]);
      }
    }
  }

  /** The collapsed text starts with whitespace exactly when the input does. */
  lemma CollapseFront(s: string)
    requires s != []
    ensures CollapseSpaces(s) != []
    ensures IsSpace(CollapseSpaces(s)[0]) <==> IsSpace(s[0])
  {
  }

  lemma {:induction false} CollapseNoDoubleSpace(s: string)
    ensures NoDoubleSpace(CollapseSpaces(s))
    decreases |s|
  {
    if s != [] {
      var w := SpaceRun(s);
      if w >= 2 {
        CollapseNoDoubleSpace(s[w..]);
        if w < |s| {
          CollapseFront(s[w..]);
        }
      } else {
        CollapseNoDoubleSpace(s[1..]);
        if 1 < |s| {
          CollapseFront(s[1..]);
        }
      }
    }
  }

  lemma StripNoDoubleSpace(s: string)
    requires NoDoubleSpace(s)
    ensures NoDoubleSpace(Strip(s))
  {
    StripIsInfix(s);
    var i, j :| 0 <= i <= j <= |s| && Strip(s) == s[i..j] && AllSpace(s[..i]) && AllSpace(s[j..]);
    assert forall k :: 0 <= k < j - i ==> s[i..j][k] == s[i + k];
  }
}
