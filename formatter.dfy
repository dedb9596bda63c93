/** The `StataFormatter` class and `format_stata_code`: the four stages run in order on the
    lines of the code, each as a method proved equal to the function that specifies it. */
module Formatter {
  import opened PyStrings
  import opened Seqs
  import opened Breaking
  import Reordering
  import Respace
  import Indenting

  /** Sorted from the furthest position to the nearest, as `sort(reverse=True)` leaves it. */
  predicate Descending(r: seq<nat>)
  {
    forall j, k :: 0 <= j < k < |r| ==> r[j] >= r[k]
  }

  /** `_process_lines` on one pair: a blank line becomes its comment, any other line is
      respaced and broken. */
  function ProcessLine(line: string, comment: string, w: int): seq<string>
    requires w >= -4
  {
    var stripped := Strip(line);
    if stripped == [] then [comment] else BreakLine(Respace.FormatLine(stripped), comment, w)
  }

  /** `_process_lines` on the first `n` pairs of `zip(lines, comments)`. */
  function ProcessPrefix(lines: seq<string>, comments: seq<string>, n: nat, w: int): seq<string>
    requires n <= |lines| && n <= |comments| && w >= -4
  {
    if n == 0 then [] else ProcessPrefix(lines, comments, n - 1, w) + ProcessLine(lines[n - 1], comments[n - 1], w)
  }

  /** The pairs `zip` forms: as many as the shorter list has entries. */
  function Paired(lines: seq<string>, comments: seq<string>): (n: nat)
    ensures n <= |lines| && n <= |comments|
    ensures n == |lines| || n == |comments|
  {
    if |lines| <= |comments| then |lines| else |comments|
  }

  /** What `_process_lines` returns. */
  function Process(lines: seq<string>, comments: seq<string>, w: int): seq<string>
    requires w >= -4
  {
    ProcessPrefix(lines, comments, Paired(lines, comments), w)
  }

  /** What `format_code` returns: split into lines, merge continuations, respace and break,
      indent, join. */
  function Format(code: string, w: int, size: int): string
    requires w >= -4
  {
    var merged := Reordering.Reorder(SplitLines(code));
    JoinLines(Indenting.Indent(Process(merged.lines, merged.comments, w), size).lines)
  }

  /** The pair `_try_logical_break` and `_try_space_break` return for a cut: the chunk before
      it, stripped, with the continuation marker, and the rest. */
  function CutAt(t: string, cut: Option<nat>): Option<(string, string)>
    requires cut.Some? ==> cut.value <= |t|
  {
    match cut
    case None => None
    case Some(p) => Some((Strip(t[..p]) + Marker, t[p..]))
  }

  /** For a width of at least 0 every pair yields at least one line, a blank line exactly
      its comment. */
  lemma ProcessLineShape(line: string, comment: string, w: int)
    requires w >= 0
    ensures |ProcessLine(line, comment, w)| >= 1
    ensures Strip(line) == [] ==> ProcessLine(line, comment, w) == [comment]
  {
    if Strip(line) != [] {
      BreakLineShape(Respace.FormatLine(Strip(line)), comment, w);
    }
  }

  /** A list that was sorted and the list it was sorted from hold the same values, so the
      first valid position met in the sorted list is the furthest valid candidate. */
  lemma FirstValid(t: string, c: seq<nat>, bp: seq<nat>, k: nat)
    requires multiset(bp) == multiset(c) && Descending(bp)
    requires forall j :: 0 <= j < |bp| ==> bp[j] <= |t|
    requires k < |bp| && IsValidBreak(Head(t, bp[k]))
    requires forall j :: 0 <= j < k ==> !IsValidBreak(Head(t, bp[j]))
    ensures MaxValid(t, c) == Some(bp[k])
  {
    MaxValidIsFurthest(t, c);
    assert bp[k] in multiset(c);
    var m := MaxValid(t, c);
    assert m.Some? && bp[k] <= m.value;
    assert m.value in multiset(bp);
    var i :| 0 <= i < |bp| && bp[i] == m.value;
    assert Head(t, bp[i]) == t[..m.value];
    assert k <= i;
  }

  /** The pair for a cut at `p`, as the methods build it from `t[:p]`. */
  lemma CutFound(t: string, cut: Option<nat>, p: nat)
    requires cut == Some(p) && p <= |t|
    ensures CutAt(t, cut) == Some((Strip(Head(t, p)) + Marker, t[p..]))
  {
  }

  /** When no position in the sorted list is valid, no candidate is. */
  lemma NoneValid(t: string, c: seq<nat>, bp: seq<nat>)
    requires multiset(bp) == multiset(c)
    requires forall j :: 0 <= j < |bp| ==> bp[j] <= |t| && !IsValidBreak(Head(t, bp[j]))
    ensures MaxValid(t, c).None?
  {
    forall q | q in c && q <= |t|
      ensures !IsValidBreak(t[..q])
    {
      assert q in multiset(bp);
      var i :| 0 <= i < |bp| && bp[i] == q;
      assert Head(t, bp[i]) == t[..q];
    }
  }

  /** Putting `x` at `j` keeps a list sorted when everything before `j` is at least `x` and
      what is at `j` is smaller. */
  lemma InsertDescending(r: seq<nat>, j: nat, x: nat)
    requires Descending(r) && j <= |r|
    requires forall k :: 0 <= k < j ==> r[k] >= x
    requires j < |r| ==> r[j] < x
    ensures Descending(r[..j] + [x] + r[j..])
    ensures multiset(r[..j] + [x] + r[j..]) == multiset(r) + multiset{x}
  {
    var s := r[..j] + [x] + r[j..];
    assert |s| == |r| + 1;
    forall a, b | 0 <= a < b < |s|
      ensures s[a] >= s[b]
    {
      InsertedPair(r, j, x, a, b);
    }
    InsertedMultiset(r, j, x);
  }

  lemma InsertedPair(r: seq<nat>, j: nat, x: nat, a: nat, b: nat)
    requires Descending(r) && j <= |r|
    requires forall k :: 0 <= k < j ==> r[k] >= x
    requires j < |r| ==> r[j] < x
    requires a < b <= |r|
    ensures (r[..j] + [x] + r[j..])[a] >= (r[..j] + [x] + r[j..])[b]
  {
    InsertedAt(r, j, x, a);
    InsertedAt(r, j, x, b);
    if j < a {
      assert r[a - 1] >= r[b - 1];
    } else if j == a {
      assert r[j] >= r[b - 1];
    } else if j < b {
      assert r[a] >= x;
      assert r[j] >= r[b - 1];
    } else if b < j {
      assert r[a] >= r[b];
    }
  }

  lemma InsertedAt(r: seq<nat>, j: nat, x: nat, a: nat)
    requires j <= |r| && a <= |r|
    ensures (r[..j] + [x] + r[j..])[a] == if a < j then r[a] else if a == j then x else r[a - 1]
  {
  }

  /** `list.sort(reverse=True)` on a list of positions: the same values, furthest first. */
  method SortDescending(xs: seq<nat>) returns (r: seq<nat>)
    ensures Descending(r)
    ensures multiset(r) == multiset(xs)
  {
    r := [];
    for i := 0 to |xs|
      invariant Descending(r)
      invariant multiset(r) == multiset(xs[..i])
    {
      var x := xs[i];
      var j := 0;
      while j < |r| && r[j] >= x
        invariant j <= |r|
        invariant forall k :: 0 <= k < j ==> r[k] >= x
      {
        j := j + 1;
      }
      InsertDescending(r, j, x);
      r := r[..j] + [x] + r[j..];
      assert xs[..i + 1] == xs[..i] + [x];
    }
    assert xs[..|xs|] == xs;
  }

  /** Rewriting the last entries of both lists in place is the merging pass. */
  lemma MergeMatchesStep(m: Reordering.Merged, line: string)
    requires |m.comments| == |m.lines| && m.lines != [] && Reordering.Continues(Last(m.lines))
    ensures var n := |m.lines|;
      Reordering.Merged(m.lines[n - 1 := Reordering.MergedLine(m.lines[n - 1], line)],
        m.comments[n - 1 := Reordering.MergedComment(m.comments[n - 1], m.lines[n - 1])])
      == Reordering.Step(m, line)
  {
    Reordering.StepMerges(m, line);
    var n := |m.lines|;
    UpdateLast(m.lines, Reordering.MergedLine(m.lines[n - 1], line));
    UpdateLast(m.comments, Reordering.MergedComment(m.comments[n - 1], m.lines[n - 1]));
  }

  /** Sorting keeps every element within the bounds the unsorted list kept to. */
  lemma SameElementsWithin(r: seq<nat>, found: seq<nat>, bound: int)
    requires multiset(r) == multiset(found)
    requires forall p :: p in found ==> 1 <= p <= bound
    ensures forall j :: 0 <= j < |r| ==> 1 <= r[j] <= bound
  {
    forall j | 0 <= j < |r|
      ensures 1 <= r[j] <= bound
    {
      assert r[j] in multiset(found);
      assert r[j] in found;
    }
  }

  lemma ReorderAdvance(lines: seq<string>, i: nat, m: Reordering.Merged)
    requires i < |lines| && m == Reordering.Step(Reordering.Reorder(lines[..i]), lines[i])
    ensures m == Reordering.Reorder(lines[..i + 1])
  {
    TakeOneMore(lines, i);
    Reordering.ReorderSnoc(lines[..i], lines[i]);
  }

  /** The formatter with its two settings. */
  class StataFormatter {
    const maxLineLength: int
    const indentSize: int

    constructor(maxLineLength: int, indentSize: int)
      ensures this.maxLineLength == maxLineLength && this.indentSize == indentSize
    {
      this.maxLineLength := maxLineLength;
      this.indentSize := indentSize;
    }

    /** `format_code`. */
    method FormatCode(code: string) returns (r: string)
      requires maxLineLength >= -4
      ensures r == Format(code, maxLineLength, indentSize)
    {
      var lines := SplitLines(code);
      var linesReordered, commentsReordered := ReorderLines(lines);
      var formattedLines := ProcessLines(linesReordered, commentsReordered);
      var formattedLinesIndented := ApplyIndentation(formattedLines);
      r := JoinLines(formattedLinesIndented);
    }

    /** `_reorder_lines`: the two lists it builds are the merged lines and their comments. */
    method ReorderLines(lines: seq<string>) returns (linesReordered: seq<string>, commentsReordered: seq<string>)
      ensures Reordering.Merged(linesReordered, commentsReordered) == Reordering.Reorder(lines)
    {
      linesReordered, commentsReordered := [], [];
      for i := 0 to |lines|
        invariant Reordering.Merged(linesReordered, commentsReordered) == Reordering.Reorder(lines[..i])
      {
        linesReordered, commentsReordered := ReorderOne(linesReordered, commentsReordered, lines[i]);
        ReorderAdvance(lines, i, Reordering.Merged(linesReordered, commentsReordered));
      }
      assert lines[..|lines|] == lines;
    }

    /** One pass of the loop in `_reorder_lines`: the line is merged into the last logical line
        or starts a new one. */
    method ReorderOne(linesReordered: seq<string>, commentsReordered: seq<string>, line: string)
      returns (lines: seq<string>, comments: seq<string>)
      requires |commentsReordered| == |linesReordered|
      ensures Reordering.Merged(lines, comments) == Reordering.Step(Reordering.Merged(linesReordered, commentsReordered), line)
    {
      ghost var m := Reordering.Merged(linesReordered, commentsReordered);
      lines, comments := linesReordered, commentsReordered;
      if lines != [] {
        var n := |lines|;
        var last := lines[n - 1];
        if Contains(last, "///") && !IsStarComment(last) {
          MergeMatchesStep(m, line);
          comments := comments[n - 1 := comments[n - 1] + Strip(After(last, "///"))];
          lines := lines[n - 1 := Strip(Before(last, "///")) + " " + Strip(line)];
        } else {
          Reordering.StepAppends(m, line);
          lines := lines + [line];
          comments := comments + [""];
        }
      } else {
        Reordering.StepAppends(m, line);
        lines := lines + [line];
        comments := comments + [""];
      }
    }

    /** `_process_lines`: the lines of every pair of `zip(lines, comments)`, in order. */
    method ProcessLines(lines: seq<string>, comments: seq<string>) returns (formattedLines: seq<string>)
      requires maxLineLength >= -4
      ensures formattedLines == Process(lines, comments, maxLineLength)
      ensures maxLineLength >= 0 ==> |formattedLines| >= Paired(lines, comments)
    {
      formattedLines := [];
      var n := Paired(lines, comments);
      for i := 0 to n
        invariant formattedLines == ProcessPrefix(lines, comments, i, maxLineLength)
        invariant maxLineLength >= 0 ==> |formattedLines| >= i
      {
        formattedLines := ProcessOne(formattedLines, lines, comments, i);
      }
    }

    /** One pass of the loop in `_process_lines`: a blank line adds its comment, any other is
        respaced, broken, and its pieces added. */
    method ProcessOne(formattedLines: seq<string>, lines: seq<string>, comments: seq<string>, i: nat)
      returns (extended: seq<string>)
      requires maxLineLength >= -4 && i < |lines| && i < |comments|
      requires formattedLines == ProcessPrefix(lines, comments, i, maxLineLength)
      ensures extended == ProcessPrefix(lines, comments, i + 1, maxLineLength)
      ensures maxLineLength >= 0 ==> |extended| > |formattedLines|
    {
      var line, comment := lines[i], comments[i];
      var stripped := Strip(line);
      if stripped == [] {
        return formattedLines + [comment];
      }
      var formatted := Respace.FormatLine(stripped);
      var brokenLines := BreakLongLine(formatted, comment);
      if maxLineLength >= 0 {
        BreakLineShape(formatted, comment, maxLineLength);
      }
      extended := formattedLines + brokenLines;
    }

    /** `_apply_indentation`: the lines the loop appends and the final brace-depth counter are
        those of the specification. */
    method ApplyIndentation(lines: seq<string>) returns (formattedLinesIndented: seq<string>)
      ensures formattedLinesIndented == Indenting.Indent(lines, indentSize).lines
    {
      formattedLinesIndented := [];
      var openParenthesis := 0;
      for i := 0 to |lines|
        invariant Indenting.Indented(formattedLinesIndented, openParenthesis) == Indenting.Indent(lines[..i], indentSize)
      {
        formattedLinesIndented, openParenthesis := IndentOne(formattedLinesIndented, openParenthesis, lines[i], i);
        TakeOneMore(lines, i);
        Indenting.IndentSnoc(lines[..i], lines[i], indentSize);
      }
      assert lines[..|lines|] == lines;
    }

    /** One pass of the loop in `_apply_indentation`, over the line at index `i`. */
    method IndentOne(formattedLinesIndented: seq<string>, openParenthesis: int, line: string, i: nat)
      returns (extended: seq<string>, depth: int)
      requires |formattedLinesIndented| == i
      ensures Indenting.Indented(extended, depth)
        == Indenting.Step(Indenting.Indented(formattedLinesIndented, openParenthesis), line, indentSize)
    {
      var st := Indenting.Indented(formattedLinesIndented, openParenthesis);
      if i > 0 {
        Indenting.StepAfterFirst(st, line, indentSize);
      }
      depth := openParenthesis;
      var padded := line;
      if i > 0 && Contains(formattedLinesIndented[i - 1], "{") && !Contains(formattedLinesIndented[i - 1], "}") {
        depth := depth + 1;
        padded := Indenting.Pad(depth, indentSize) + padded;
      } else if i > 0 && depth > 0 && !Contains(padded, "}") {
        padded := Indenting.Pad(depth, indentSize) + padded;
      } else if i > 0 && Contains(padded, "}") && !Contains(padded, "{") {
        depth := depth - 1;
        padded := Indenting.Pad(depth, indentSize) + padded;
      }
      if i > 0 && Contains(formattedLinesIndented[i - 1], "///") && !IsStarComment(padded) {
        padded := Spaces(indentSize) + padded;
      }
      extended := formattedLinesIndented + [padded];
    }

    /** `_break_long_line`: the physical lines it emits are those of the specification. */
    method BreakLongLine(line: string, comment: string) returns (resultLines: seq<string>)
      requires maxLineLength >= -4
      ensures resultLines == BreakLine(line, comment, maxLineLength)
    {
      var remaining := Before(line, "//");
      var remainingComment := if Contains(line, "//") then " //" + comment + After(line, "//")
        else if comment != [] then " // " + comment
        else [];
      if |remaining| <= maxLineLength || IsStarComment(remaining) {
        return [remaining + remainingComment];
      }
      ghost var code := remaining;
      resultLines := [];
      while |remaining| > maxLineLength + 4
        invariant resultLines + Pieces(remaining, remainingComment, maxLineLength) == Pieces(code, remainingComment, maxLineLength)
        decreases |remaining|
      {
        var segment, rest := BreakOnce(remaining, remainingComment);
        ShiftFirst(resultLines, segment, Pieces(rest, remainingComment, maxLineLength), Pieces(remaining, remainingComment, maxLineLength));
        resultLines := resultLines + [segment];
        remaining := rest;
      }
      PiecesShort(remaining, remainingComment, maxLineLength);
      if remaining != [] {
        resultLines := resultLines + [Strip(remaining) + remainingComment];
      }
    }

    /** One pass of the loop in `_break_long_line`: the line it appends and what is left to
        break, which is shorter. Without a valid cut the whole rest is appended and nothing
        is left. */
    method BreakOnce(remaining: string, remainingComment: string) returns (segment: string, rest: string)
      requires maxLineLength >= -4 && |remaining| > maxLineLength + 4
      ensures |rest| < |remaining|
      ensures [segment] + Pieces(rest, remainingComment, maxLineLength) == Pieces(remaining, remainingComment, maxLineLength)
    {
      BestCutCases(remaining, maxLineLength);
      var breakResult := TryLogicalBreak(remaining);
      if breakResult.Some? {
        PiecesCut(remaining, remainingComment, maxLineLength, LogicalCut(remaining, maxLineLength).value);
        return breakResult.value.0, breakResult.value.1;
      }
      breakResult := TrySpaceBreak(remaining);
      if breakResult.Some? {
        PiecesCut(remaining, remainingComment, maxLineLength, SpaceCut(remaining, maxLineLength).value);
        return breakResult.value.0, breakResult.value.1;
      }
      PiecesNoCut(remaining, remainingComment, maxLineLength);
      PiecesShort([], remainingComment, maxLineLength);
      return Strip(remaining) + remainingComment, [];
    }

    /** `_find_break_points`: the logical candidates within `text[:maxLength]`, furthest first. */
    method FindBreakPoints(text: string, maxLength: int) returns (breakPoints: seq<nat>)
      ensures Descending(breakPoints)
      ensures multiset(breakPoints) == multiset(LogicalCandidates(Head(text, maxLength)))
      ensures forall j :: 0 <= j < |breakPoints| ==>
        1 <= breakPoints[j] <= |Head(text, maxLength)|
    {
      var h := Head(text, maxLength);
      var found: seq<nat> := [];
      var brackets := FindBrackets(h);
      found := found + brackets;
      var commas := FindCommas(h);
      found := found + commas;
      var operators := FindLogicalOperators(h);
      found := found + operators;
      JoinThree(brackets, commas, operators);
      breakPoints := SortDescending(found);
      SameElementsWithin(breakPoints, found, |h|);
    }

    /** The ends of the matches of `re.finditer(r"[)\]][,|\s]", h)`, in order. */
    method FindBrackets(h: string) returns (ends: seq<nat>)
      ensures ends == BracketEnds(h, |h|)
    {
      ends := [];
      for i := 0 to |h|
        invariant ends == BracketEnds(h, i)
      {
        if BracketAt(h, i) {
          ends := ends + [i + 2];
        }
      }
    }

    /** The ends of the matches of `re.finditer(r",", h)`, in order. */
    method FindCommas(h: string) returns (ends: seq<nat>)
      ensures ends == CommaEnds(h, |h|)
    {
      ends := [];
      for i := 0 to |h|
        invariant ends == CommaEnds(h, i)
      {
        if h[i] == ',' {
          ends := ends + [i + 1];
        }
      }
    }

    /** The ends of the matches of `re.finditer(r"\s(&|\||/|:)\s", h)`, in order: after a
        match the search resumes where it ended. */
    method FindLogicalOperators(h: string) returns (ends: seq<nat>)
      ensures ends == OperatorEnds(h, 0)
    {
      ends := [];
      var i := 0;
      while i < |h|
        invariant i <= |h|
        invariant ends + OperatorEnds(h, i) == OperatorEnds(h, 0)
        decreases |h| - i
      {
        if LogicalOperatorAt(h, i) {
          ShiftFirst(ends, i + 3, OperatorEnds(h, i + 3), OperatorEnds(h, i));
          ends := ends + [i + 3];
          i := i + 3;
        } else {
          i := i + 1;
        }
      }
    }

    /** `_find_space_break_points`: the whitespace candidates within `text[:maxLength - 3]`,
        furthest first. */
    method FindSpaceBreakPoints(text: string, maxLength: int) returns (spaceBreakPoints: seq<nat>)
      ensures Descending(spaceBreakPoints)
      ensures multiset(spaceBreakPoints) == multiset(SpaceCandidates(Head(text, maxLength - 3)))
      ensures forall j :: 0 <= j < |spaceBreakPoints| ==>
        1 <= spaceBreakPoints[j] <= |Head(text, maxLength - 3)|
    {
      var h := Head(text, maxLength - 3);
      var found: seq<nat> := [];
      var spaces := FindSpaces(h);
      found := found + spaces;
      JoinOne(spaces);
      spaceBreakPoints := SortDescending(found);
      SameElementsWithin(spaceBreakPoints, found, |h|);
    }

    /** The ends of the matches of `re.finditer(r"\s", h)`, in order. */
    method FindSpaces(h: string) returns (ends: seq<nat>)
      ensures ends == SpaceEnds(h, |h|)
    {
      ends := [];
      for i := 0 to |h|
        invariant ends == SpaceEnds(h, i)
      {
        if IsSpace(h[i]) {
          ends := ends + [i + 1];
        }
      }
    }

    /** `_try_logical_break`: the first valid position in the sorted candidates, which is the
        furthest valid one. */
    method TryLogicalBreak(text: string) returns (r: Option<(string, string)>)
      ensures r == CutAt(text, LogicalCut(text, maxLineLength))
    {
      var breakPoints := FindBreakPoints(text, maxLineLength);
      ghost var h := Head(text, maxLineLength);
      assert |h| <= |text|;
      r := FirstValidCut(text, breakPoints, LogicalCandidates(h));
    }

    /** `_try_space_break`: the first valid whitespace position, which is the furthest one. */
    method TrySpaceBreak(text: string) returns (r: Option<(string, string)>)
      ensures r == CutAt(text, SpaceCut(text, maxLineLength))
    {
      var spaceBreakPoints := FindSpaceBreakPoints(text, maxLineLength);
      ghost var h := Head(text, maxLineLength - 3);
      assert |h| <= |text|;
      r := FirstValidCut(text, spaceBreakPoints, SpaceCandidates(h));
    }
  }

  /** The loop shared by `_try_logical_break` and `_try_space_break`: walk the candidates,
      sorted furthest first, and cut at the first one that leaves a valid prefix. */
  method FirstValidCut(text: string, breakPoints: seq<nat>, ghost c: seq<nat>) returns (r: Option<(string, string)>)
    requires multiset(breakPoints) == multiset(c) && Descending(breakPoints)
    requires forall j :: 0 <= j < |breakPoints| ==> 1 <= breakPoints[j] <= |text|
    ensures r == CutAt(text, MaxValid(text, c))
  {
    for k := 0 to |breakPoints|
      invariant forall j :: 0 <= j < k ==> !IsValidBreak(Head(text, breakPoints[j]))
    {
      var breakPos := breakPoints[k];
      var segment := Head(text, breakPos);
      if IsValidBreak(segment) {
        FirstValid(text, c, breakPoints, k);
        CutFound(text, MaxValid(text, c), breakPos);
        return Some((Strip(segment) + Marker, text[breakPos..]));
      }
    }
    NoneValid(text, c, breakPoints);
    return None;
  }

  /** `format_stata_code`: a formatter with the given settings, applied to the code. */
  method FormatStataCode(code: string, maxLineLength: int, indentSize: int) returns (r: string)
    requires maxLineLength >= -4
    ensures r == Format(code, maxLineLength, indentSize)
  {
    var formatter := new StataFormatter(maxLineLength, indentSize);
    r := formatter.FormatCode(code);
  }
}
