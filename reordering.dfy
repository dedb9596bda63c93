/** `_reorder_lines`: physical lines that end in the `///` continuation marker are merged
    with the line that follows into one logical line, and the text after each marker is
    carried in a parallel list of comments. */
module Reordering {
  import opened PyStrings
  import opened Seqs

  /** The two parallel lists `_reorder_lines` returns. */
  datatype Merged = Merged(lines: seq<string>, comments: seq<string>)

  /** The line that follows a logical line is merged into it: it holds `///` and is not a
      `^\*\s` star comment. */
  predicate Continues(prev: string)
  {
    Contains(prev, "///") && !IsStarComment(prev)
  }

  /** The logical line a continuation produces: the code before the first marker, stripped,
      a space, and the next line, stripped. */
  function MergedLine(prev: string, line: string): string
  {
    Strip(Before(prev, "///")) + " " + Strip(line)
  }

  /** The comment slot after a merge: what it held, then the stripped text after the
      first marker. */
  function MergedComment(comment: string, prev: string): string
  {
    comment + Strip(After(prev, "///"))
  }

  /** One pass of the loop in `_reorder_lines`: the line is merged into the last logical
      line when that one continues, and starts a new logical line with an empty comment
      otherwise. */
  function Step(m: Merged, line: string): (r: Merged)
    requires |m.comments| == |m.lines|
    ensures |r.comments| == |r.lines| >= 1
    ensures m.lines != [] && Continues(Last(m.lines)) ==> |r.lines| == |m.lines|
    ensures !(m.lines != [] && Continues(Last(m.lines))) ==> |r.lines| == |m.lines| + 1
  {
    if m.lines != [] && Continues(Last(m.lines)) then
      var n := |m.lines|;
      Merged(m.lines[..n - 1] + [MergedLine(Last(m.lines), line)],
             m.comments[..n - 1] + [MergedComment(Last(m.comments), Last(m.lines))])
    else
      Merged(m.lines + [line], m.comments + [""])
  }

  /** The lists `_reorder_lines` returns for `lines`: the two lists always have the same
      length, never more entries than there are input lines, and at least one once there
      is an input line. */
  function Reorder(lines: seq<string>): (r: Merged)
    ensures |r.lines| == |r.comments| <= |lines|
    ensures lines != [] ==> r.lines != []
  {
    if lines == [] then Merged([], []) else Step(Reorder(lines[..|lines| - 1]), Last(lines))
  }

  lemma ReorderSnoc(lines: seq<string>, line: string)
    ensures Reorder(lines + [line]) == Step(Reorder(lines), line)
  {
    assert (lines + [line])[..|lines|] == lines;
  }

  /** When the last logical line continues, the input line is merged into it. */
  lemma StepMerges(m: Merged, line: string)
    requires |m.comments| == |m.lines| && m.lines != [] && Continues(Last(m.lines))
    ensures Step(m, line) == Merged(m.lines[..|m.lines| - 1] + [MergedLine(Last(m.lines), line)],
      m.comments[..|m.comments| - 1] + [MergedComment(Last(m.comments), Last(m.lines))])
  {
  }

  /** Otherwise it starts a new logical line with an empty comment. */
  lemma StepAppends(m: Merged, line: string)
    requires |m.comments| == |m.lines| && !(m.lines != [] && Continues(Last(m.lines)))
    ensures Step(m, line) == Merged(m.lines + [line], m.comments + [""])
  {
  }

  /** No logical line before the last one continues. */
  predicate OnlyLastMayContinue(xs: seq<string>)
  {
    forall i :: 0 <= i < |xs| - 1 ==> !Continues(xs[i])
  }

  /** A line appended after lines that do not continue is the only one that may. */
  lemma OnlyLastSnoc(front: seq<string>, x: string)
    requires forall i :: 0 <= i < |front| ==> !Continues(front[i])
    ensures OnlyLastMayContinue(front + [x])
  {
    var r := front + [x];
    forall i | 0 <= i < |r| - 1
      ensures !Continues(r[i])
    {
      assert r[i] == front[i];
    }
  }

  lemma StepKeepsOnlyLast(m: Merged, line: string)
    requires |m.comments| == |m.lines| && OnlyLastMayContinue(m.lines)
    ensures OnlyLastMayContinue(Step(m, line).lines)
  {
    if m.lines != [] && Continues(Last(m.lines)) {
      StepMerges(m, line);
      var front := m.lines[..|m.lines| - 1];
      assert forall i :: 0 <= i < |front| ==> front[i] == m.lines[i];
      OnlyLastSnoc(front, MergedLine(Last(m.lines), line));
    } else {
      StepAppends(m, line);
      OnlyLastSnoc(m.lines, line);
    }
  }

  /** Only the last logical line can still continue: any earlier one had the next input
      line merged into it. */
  lemma {:induction false} OnlyLastContinues(lines: seq<string>)
    ensures OnlyLastMayContinue(Reorder(lines).lines)
  {
    if lines != [] {
      var init := lines[..|lines| - 1];
      assert lines == init + [Last(lines)];
      ReorderSnoc(init, Last(lines));
      OnlyLastContinues(init);
      StepKeepsOnlyLast(Reorder(init), Last(lines));
    }
  }

  /** Without any `///`, nothing is merged: the lines come back unchanged, each with an
      empty comment. */
  lemma {:induction false} NoMarkerNoMerge(lines: seq<string>)
    requires forall i :: 0 <= i < |lines| ==> !Contains(lines[i], "///")
    ensures Reorder(lines).lines == lines
    ensures forall i :: 0 <= i < |lines| ==> Reorder(lines).comments[i] == ""
  {
    if lines != [] {
      var init := lines[..|lines| - 1];
      assert lines == init + [Last(lines)];
      NoMarkerNoMerge(init);
      StepAppends(Reorder(init), Last(lines));
    }
  }

  /** How often `c` occurs outside whitespace in a list of strings. */
  function Occurrences(xs: seq<string>, c: char): nat
  {
    if xs == [] then 0 else Occurrences(xs[..|xs| - 1], c) + Count(NonSpace(Last(xs)), c)
  }

  lemma Occurrences1(xs: seq<string>, x: string, c: char)
    ensures Occurrences(xs + [x], c) == Occurrences(xs, c) + Count(NonSpace(x), c)
  {
    assert (xs + [x])[..|xs|] == xs;
  }

  /** The three slashes of each merged marker, when counting slashes. */
  function MarkerCount(c: char, merges: nat): nat
  {
    if c == '/' then 3 * merges else 0
  }

  lemma NonSpaceMarker()
    ensures NonSpace("///") == "///"
  {
    assert "///"[1..] == "//";
    assert "//"[1..] == "/";
    assert "/"[1..] == [];
  }

  lemma CountMarker(c: char)
    ensures Count("///", c) == MarkerCount(c, 1)
  {
    var one := if c == '/' then 1 else 0;
    assert Count("/", c) == one + Count([], c);
    assert Count("//", c) == one + Count("/", c);
    assert Count("///", c) == one + Count("//", c);
  }

  lemma NonSpaceJoinedBySpace(x: string, y: string)
    ensures NonSpace(x + " " + y) == NonSpace(x) + NonSpace(y)
  {
    assert x + " " + y == x + ([' '] + y);
    NonSpaceAppend(x, [' '] + y);
    NonSpaceCons(' ', y);
  }

  /** A merge moves the text of the continued line into the merged line and the comment,
      except the three slashes of its first marker, and adds the text of the new line. */
  lemma MergeCount(prev: string, line: string, comment: string, c: char)
    requires Contains(prev, "///")
    ensures Count(NonSpace(prev), c) + Count(NonSpace(line), c) + Count(NonSpace(comment), c)
      == Count(NonSpace(MergedLine(prev, line)), c) + Count(NonSpace(MergedComment(comment, prev)), c) + MarkerCount(c, 1)
  {
    var b, a := Before(prev, "///"), After(prev, "///");
    SplitAtSeparator(prev, "///");
    NonSpaceAppend(b + "///", a);
    NonSpaceAppend(b, "///");
    NonSpaceMarker();
    CountAppend(NonSpace(b) + "///", NonSpace(a), c);
    CountAppend(NonSpace(b), "///", c);
    CountMarker(c);
    NonSpaceJoinedBySpace(Strip(b), Strip(line));
    NonSpaceStrip(b);
    NonSpaceStrip(line);
    CountAppend(NonSpace(b), NonSpace(line), c);
    NonSpaceAppend(comment, Strip(a));
    NonSpaceStrip(a);
    CountAppend(NonSpace(comment), NonSpace(a), c);
  }

  /** The text balance of `c` after the input lines `src` have produced `m`. */
  predicate Balanced(src: seq<string>, m: Merged, c: char)
  {
    && |m.lines| == |m.comments| <= |src|
    && Occurrences(src, c) == Occurrences(m.lines, c) + Occurrences(m.comments, c) + MarkerCount(c, |src| - |m.lines|)
  }

  lemma MergeKeepsText(src: seq<string>, m: Merged, line: string, c: char)
    requires Balanced(src, m, c) && m.lines != [] && Continues(Last(m.lines))
    ensures Balanced(src + [line], Step(m, line), c)
  {
    var n := |m.lines|;
    var front, last := m.lines[..n - 1], Last(m.lines);
    var notes, note := m.comments[..n - 1], Last(m.comments);
    StepMerges(m, line);
    var merged, comment := MergedLine(last, line), MergedComment(note, last);
    assert Occurrences(m.lines, c) == Occurrences(front, c) + Count(NonSpace(last), c);
    assert Occurrences(m.comments, c) == Occurrences(notes, c) + Count(NonSpace(note), c);
    Occurrences1(src, line, c);
    Occurrences1(front, merged, c);
    Occurrences1(notes, comment, c);
    MergeCount(last, line, note, c);
  }

  lemma AppendKeepsText(src: seq<string>, m: Merged, line: string, c: char)
    requires Balanced(src, m, c) && !(m.lines != [] && Continues(Last(m.lines)))
    ensures Balanced(src + [line], Step(m, line), c)
  {
    StepAppends(m, line);
    Occurrences1(src, line, c);
    Occurrences1(m.lines, line, c);
    Occurrences1(m.comments, "", c);
  }

  lemma StepKeepsText(src: seq<string>, m: Merged, line: string, c: char)
    requires Balanced(src, m, c)
    ensures Balanced(src + [line], Step(m, line), c)
  {
    if m.lines != [] && Continues(Last(m.lines)) {
      MergeKeepsText(src, m, line, c);
    } else {
      AppendKeepsText(src, m, line, c);
    }
  }

  /** Merging loses no text: every non-whitespace character of the input is in a logical
      line or a comment, except three slashes for every merge performed. */
  lemma {:induction false} ReorderKeepsText(lines: seq<string>, c: char)
    ensures Balanced(lines, Reorder(lines), c)
  {
    if lines != [] {
      var init := lines[..|lines| - 1];
      assert lines == init + [Last(lines)];
      ReorderSnoc(init, Last(lines));
      ReorderKeepsText(init, c);
      StepKeepsText(init, Reorder(init), Last(lines), c);
    }
  }
}
