/** `_apply_indentation`: each output line is its input line behind a run of spaces, set by a
    brace-depth counter and by an extra indent after a continued line. */
module Indenting {
  import opened PyStrings
  import opened Seqs

  /** The output so far and the brace-depth counter `open_parenthesis`, which may go
      negative. */
  datatype Indented = Indented(lines: seq<string>, depth: int)

  /** `" " * d * size`: `d` copies of one space, each repeated `size` times, so nothing
      when either factor is not positive. */
  function Pad(d: int, size: int): (r: string)
    ensures |r| == if d > 0 && size > 0 then d * size else 0
    ensures forall i :: 0 <= i < |r| ==> r[i] == ' '
  {
    if d > 0 && size > 0 then Spaces(d * size) else []
  }

  /** The previous output line opens a block: it holds `{` and no `}`. */
  predicate Opens(prev: string)
  {
    Contains(prev, "{") && !Contains(prev, "}")
  }

  /** The current line closes a block: it holds `}` and no `{`. */
  predicate Closes(line: string)
  {
    Contains(line, "}") && !Contains(line, "{")
  }

  /** The depth after the `if`/`elif` chain of one pass. */
  function NextDepth(depth: int, prev: string, line: string): int
  {
    if Opens(prev) then depth + 1
    else if depth > 0 && !Contains(line, "}") then depth
    else if Closes(line) then depth - 1
    else depth
  }

  /** The line after the `if`/`elif` chain: padded by the new depth when one of the
      branches fired, unchanged otherwise. */
  function Padded(depth: int, prev: string, line: string, size: int): string
  {
    if Opens(prev) || (depth > 0 && !Contains(line, "}")) || Closes(line) then
      Pad(NextDepth(depth, prev, line), size) + line
    else line
  }

  /** The line after the continuation rule: one more `" " * size` when the previous output
      line holds `///` and the line, as padded so far, is not a `^\*\s` star comment. */
  function Continued(prev: string, padded: string, size: int): string
  {
    if Contains(prev, "///") && !IsStarComment(padded) then Spaces(size) + padded else padded
  }

  /** One pass of the loop in `_apply_indentation`. The first line is taken as it is. */
  function Step(st: Indented, line: string, size: int): (r: Indented)
    ensures |r.lines| == |st.lines| + 1
    ensures r.lines[..|st.lines|] == st.lines
  {
    if st.lines == [] then Indented([line], st.depth)
    else
      var prev := Last(st.lines);
      var padded := Padded(st.depth, prev, line, size);
      Indented(st.lines + [Continued(prev, padded, size)], NextDepth(st.depth, prev, line))
  }

  /** The output of `_apply_indentation` and the final counter. */
  function Indent(lines: seq<string>, size: int): (r: Indented)
    ensures |r.lines| == |lines|
  {
    if lines == [] then Indented([], 0)
    else Step(Indent(lines[..|lines| - 1], size), Last(lines), size)
  }

  lemma IndentSnoc(lines: seq<string>, line: string, size: int)
    ensures Indent(lines + [line], size) == Step(Indent(lines, size), line, size)
  {
    assert (lines + [line])[..|lines|] == lines;
  }

  /** The pass over a line after the first appends the continued, padded line. */
  lemma StepAfterFirst(st: Indented, line: string, size: int)
    requires st.lines != []
    ensures Step(st, line, size) == Indented(st.lines + [Continued(Last(st.lines), Padded(st.depth, Last(st.lines), line, size), size)],
      NextDepth(st.depth, Last(st.lines), line))
  {
  }

  /** The counter goes up by one exactly when the previous output line opens a block, and
      down by one exactly when it does not and the line closes one. */
  lemma NextDepthCases(depth: int, prev: string, line: string)
    ensures NextDepth(depth, prev, line) == depth + 1 <==> Opens(prev)
    ensures NextDepth(depth, prev, line) == depth - 1 <==> !Opens(prev) && Closes(line)
    ensures NextDepth(depth, prev, line) == depth <==> !Opens(prev) && !Closes(line)
  {
  }

  /** `s` is a run of spaces followed by `line`. */
  predicate SpacesThen(s: string, line: string)
  {
    |line| <= |s| && s[|s| - |line|..] == line && forall k :: 0 <= k < |s| - |line| ==> s[k] == ' '
  }

  lemma SpacesThenPrefix(pad: string, line: string)
    requires forall k :: 0 <= k < |pad| ==> pad[k] == ' '
    ensures SpacesThen(pad + line, line)
  {
    assert (pad + line)[|pad|..] == line;
  }

  lemma SpacesThenMore(pad: string, s: string, line: string)
    requires forall k :: 0 <= k < |pad| ==> pad[k] == ' '
    requires SpacesThen(s, line)
    ensures SpacesThen(pad + s, line)
  {
    var t := pad + s;
    assert t[|t| - |line|..] == s[|s| - |line|..];
    forall k | 0 <= k < |t| - |line|
      ensures t[k] == ' '
    {
      if k >= |pad| {
        assert t[k] == s[k - |pad|];
      }
    }
  }

  /** Padding and the continuation rule only ever put spaces in front of the line. */
  lemma ContinuedSpacesThen(prev: string, depth: int, line: string, size: int)
    ensures SpacesThen(Continued(prev, Padded(depth, prev, line, size), size), line)
  {
    var padded := Padded(depth, prev, line, size);
    if Opens(prev) || (depth > 0 && !Contains(line, "}")) || Closes(line) {
      SpacesThenPrefix(Pad(NextDepth(depth, prev, line), size), line);
    } else {
      SpacesThenPrefix([], line);
      assert [] + line == line;
    }
    if Contains(prev, "///") && !IsStarComment(padded) {
      SpacesThenMore(Spaces(size), padded, line);
    }
  }

  /** One pass after the first keeps the output so far and appends the line behind spaces. */
  lemma StepPads(st: Indented, line: string, size: int)
    requires st.lines != []
    ensures Step(st, line, size).lines == st.lines + [Last(Step(st, line, size).lines)]
    ensures SpacesThen(Last(Step(st, line, size).lines), line)
  {
    StepAfterFirst(st, line, size);
    ContinuedSpacesThen(Last(st.lines), st.depth, line, size);
  }

  /** Appending a line and its padded form keeps every line padded. */
  lemma PadsSnoc(init: seq<string>, line: string, prev: seq<string>, x: string)
    requires |prev| == |init| && forall i :: 0 <= i < |init| ==> SpacesThen(prev[i], init[i])
    requires SpacesThen(x, line)
    ensures forall i :: 0 <= i < |init| + 1 ==> SpacesThen((prev + [x])[i], (init + [line])[i])
  {
    forall i | 0 <= i < |init| + 1
      ensures SpacesThen((prev + [x])[i], (init + [line])[i])
    {
      if i < |init| {
        assert (prev + [x])[i] == prev[i] && (init + [line])[i] == init[i];
      }
    }
  }

  /** Every output line is its input line behind a run of spaces, and the first line is
      left as it is. */
  lemma {:induction false} IndentOnlyPads(lines: seq<string>, size: int)
    ensures forall i :: 0 <= i < |lines| ==> SpacesThen(Indent(lines, size).lines[i], lines[i])
    ensures lines != [] ==> Indent(lines, size).lines[0] == lines[0]
  {
    if lines != [] {
      var init, line := lines[..|lines| - 1], Last(lines);
      SplitLast(lines);
      IndentSnoc(init, line, size);
      IndentOnlyPads(init, size);
      var st := Indent(init, size);
      var x: string;
      if st.lines == [] {
        x := line;
        SpacesThenPrefix([], line);
        assert [] + line == line;
        assert Step(st, line, size).lines == st.lines + [x];
      } else {
        StepPads(st, line, size);
        x := Last(Step(st, line, size).lines);
        assert st.lines[0] == init[0];
      }
      PadsSnoc(init, line, st.lines, x);
    }
  }

  /** Text without braces and without the continuation marker is left exactly as it is, and
      the counter stays at zero. */
  lemma {:induction false} PlainTextUnchanged(lines: seq<string>, size: int)
    requires forall i :: 0 <= i < |lines| ==>
      !Contains(lines[i], "{") && !Contains(lines[i], "}") && !Contains(lines[i], "///")
    ensures Indent(lines, size) == Indented(lines, 0)
  {
    if lines != [] {
      var init := lines[..|lines| - 1];
      var line := Last(lines);
      assert lines == init + [line];
      IndentSnoc(init, line, size);
      PlainTextUnchanged(init, size);
      if init != [] {
        StepAfterFirst(Indent(init, size), line, size);
        assert Last(init) == lines[|lines| - 2];
      }
    }
  }

  /** A line with no brace and no continuation marker. */
  predicate Plain(line: string)
  {
    !Contains(line, "{") && !Contains(line, "}") && !Contains(line, "///")
  }

  /** Spaces in front keep a line plain. */
  lemma PlainPadded(pad: string, line: string)
    requires forall k :: 0 <= k < |pad| ==> pad[k] == ' '
    requires Plain(line)
    ensures Plain(pad + line)
  {
    ContainsAfterSpaces(pad, line, "{");
    ContainsAfterSpaces(pad, line, "}");
    ContainsAfterSpaces(pad, line, "///");
  }

  /** Each line one level in. */
  function Nested(body: seq<string>, size: int): (r: seq<string>)
    ensures |r| == |body|
    ensures forall i :: 0 <= i < |body| ==> r[i] == Pad(1, size) + body[i]
  {
    if body == [] then [] else Nested(body[..|body| - 1], size) + [Pad(1, size) + Last(body)]
  }

  /** The pass over a plain line inside a block once the block has been entered. */
  lemma StepInBlock(st: Indented, line: string, size: int)
    requires st.lines != [] && st.depth == 1 && Plain(line)
    requires !Contains(Last(st.lines), "{") && !Contains(Last(st.lines), "///")
    ensures Step(st, line, size) == Indented(st.lines + [Pad(1, size) + line], 1)
  {
    StepAfterFirst(st, line, size);
  }

  /** The pass over the first body line: the previous line opened the block. */
  lemma StepIntoBlock(st: Indented, line: string, size: int)
    requires st.lines != [] && st.depth == 0 && Plain(line)
    requires Opens(Last(st.lines)) && !Contains(Last(st.lines), "///")
    ensures Step(st, line, size) == Indented(st.lines + [Pad(1, size) + line], 1)
  {
    StepAfterFirst(st, line, size);
  }

  lemma NestedSnoc(body: seq<string>, line: string, size: int)
    ensures Nested(body + [line], size) == Nested(body, size) + [Pad(1, size) + line]
  {
    assert (body + [line])[..|body|] == body;
  }

  /** The output so far leaves the next line where it is: the counter is at zero and the
      last output line, if any, neither opens a block nor is continued with `///`. */
  predicate AtTopLevel(st: Indented)
  {
    st.depth == 0 && (st.lines != [] ==> !Opens(Last(st.lines)) && !Contains(Last(st.lines), "///"))
  }

  /** A line that does not close a block is taken as it is at top level, and the counter
      stays at zero. */
  lemma HeadAtTopLevel(pre: seq<string>, head: string, size: int)
    requires AtTopLevel(Indent(pre, size)) && !Closes(head)
    ensures Indent(pre + [head], size) == Indented(Indent(pre, size).lines + [head], 0)
  {
    IndentSnoc(pre, head, size);
    var st := Indent(pre, size);
    if st.lines == [] {
      JoinOne([head]);
    } else {
      StepAfterFirst(st, head, size);
    }
  }

  /** The first body line after the opening line. */
  lemma BodyFirst(lead: seq<string>, out: seq<string>, line: string, body: seq<string>, size: int)
    requires Indent(lead, size) == Indented(out, 0)
    requires out != [] && Opens(Last(out)) && !Contains(Last(out), "///") && Plain(line)
    requires body == [line]
    ensures Indent(lead + body, size) == Indented(out + Nested(body, size), 1)
  {
    IndentSnoc(lead, line, size);
    StepIntoBlock(Indent(lead, size), line, size);
    assert Nested(body, size) == [Pad(1, size) + line];
  }

  /** A further body line, after a body line that was indented one level. */
  lemma BodyNext(lead: seq<string>, out: seq<string>, init: seq<string>, line: string, body: seq<string>, size: int)
    requires init != [] && Plain(Last(init)) && Plain(line)
    requires body == init + [line]
    requires Indent(lead + init, size) == Indented(out + Nested(init, size), 1)
    ensures Indent(lead + body, size) == Indented(out + Nested(body, size), 1)
  {
    AppendAssoc(lead, init, [line]);
    IndentSnoc(lead + init, line, size);
    NestedSnoc(init, line, size);
    var st := Indent(lead + init, size);
    assert Last(st.lines) == Pad(1, size) + Last(init);
    PlainPadded(Pad(1, size), Last(init));
    StepInBlock(st, line, size);
    AppendAssoc(out, Nested(init, size), [Pad(1, size) + line]);
  }

  /** Every line is plain. */
  predicate PlainRun(body: seq<string>)
  {
    forall i :: 0 <= i < |body| ==> Plain(body[i])
  }

  /** Dropping the last line of a plain run leaves a plain run. */
  lemma PlainRunInit(body: seq<string>)
    requires PlainRun(body) && |body| >= 2
    ensures PlainRun(body[..|body| - 1])
    ensures Plain(body[|body| - 2]) && Plain(Last(body))
  {
  }

  /** After an output line that opens a block at depth zero, every plain line is indented
      one level. */
  lemma {:induction false} BodyFrom(lead: seq<string>, out: seq<string>, body: seq<string>, size: int)
    requires Indent(lead, size) == Indented(out, 0)
    requires out != [] && Opens(Last(out)) && !Contains(Last(out), "///")
    requires body != [] && PlainRun(body)
    ensures Indent(lead + body, size) == Indented(out + Nested(body, size), 1)
    decreases |body|
  {
    if |body| == 1 {
      assert Plain(body[0]);
      BodyFirst(lead, out, body[0], body, size);
    } else {
      var init := body[..|body| - 1];
      PlainRunInit(body);
      SplitLast(body);
      BodyFrom(lead, out, init, size);
      assert Last(init) == body[|body| - 2];
      BodyNext(lead, out, init, Last(body), body, size);
    }
  }

  /** Inside a block opened at top level, after whatever came before, every plain line is
      indented one level and the opening line is left as it is. */
  lemma BodyIndented(pre: seq<string>, head: string, body: seq<string>, size: int)
    requires AtTopLevel(Indent(pre, size))
    requires Opens(head) && !Contains(head, "///")
    requires body != [] && PlainRun(body)
    ensures Indent(pre + [head] + body, size) == Indented(Indent(pre, size).lines + [head] + Nested(body, size), 1)
  {
    HeadAtTopLevel(pre, head, size);
    var out := Indent(pre, size).lines + [head];
    assert Last(out) == head;
    BodyFrom(pre + [head], out, body, size);
  }

  /** A block opened at top level whose opening line is followed by plain lines and then by a
      closing line: the body is indented one level, the opening and closing lines are not,
      and the counter is back at zero. */
  lemma BlockIndented(pre: seq<string>, head: string, body: seq<string>, close: string, size: int)
    requires AtTopLevel(Indent(pre, size))
    requires Opens(head) && !Contains(head, "///")
    requires body != [] && PlainRun(body)
    requires Closes(close)
    ensures Indent(pre + [head] + body + [close], size)
      == Indented(Indent(pre, size).lines + [head] + Nested(body, size) + [close], 0)
  {
    BodyIndented(pre, head, body, size);
    IndentSnoc(pre + [head] + body, close, size);
    var st := Indent(pre + [head] + body, size);
    StepAfterFirst(st, close, size);
    var prev := Last(st.lines);
    assert prev == Pad(1, size) + Last(body);
    PlainPadded(Pad(1, size), Last(body));
    assert Pad(0, size) + close == close;
  }

  /** A closing line directly after an output line that opens a block at depth zero: the
      first branch fires, so the closing line is indented one level and the counter goes to
      one. */
  lemma CloseAfterOpen(lead: seq<string>, out: seq<string>, close: string, size: int)
    requires Indent(lead, size) == Indented(out, 0)
    requires out != [] && Opens(Last(out)) && !Contains(Last(out), "///")
    ensures Indent(lead + [close], size) == Indented(out + [Pad(1, size) + close], 1)
  {
    IndentSnoc(lead, close, size);
    StepAfterFirst(Indented(out, 0), close, size);
  }

  /** As written, an empty block does not close: when the opening line is directly followed
      by the closing one, the first branch fires, the closing line is indented and the
      counter stays at one. */
  lemma EmptyBlockStaysOpen(pre: seq<string>, head: string, close: string, size: int)
    requires AtTopLevel(Indent(pre, size))
    requires Opens(head) && !Contains(head, "///") && Closes(close)
    ensures Indent(pre + [head] + [close], size) == Indented(Indent(pre, size).lines + [head] + [Pad(1, size) + close], 1)
  {
    HeadAtTopLevel(pre, head, size);
    var out := Indent(pre, size).lines + [head];
    assert Last(out) == head;
    CloseAfterOpen(pre + [head], out, close, size);
  }

  /** A line without braces, which leaves the counter alone outside a block. */
  predicate BraceFree(line: string)
  {
    !Contains(line, "{") && !Contains(line, "}")
  }

  /** Spaces in front keep a line brace-free and keep whether it holds `///`. */
  lemma PaddedBraceFree(pad: string, line: string)
    requires forall k :: 0 <= k < |pad| ==> pad[k] == ' '
    requires BraceFree(line)
    ensures BraceFree(pad + line)
    ensures Contains(pad + line, "///") <==> Contains(line, "///")
  {
    ContainsAfterSpaces(pad, line, "{");
    ContainsAfterSpaces(pad, line, "}");
    ContainsAfterSpaces(pad, line, "///");
  }

  /** The pass over a brace-free line after a brace-free continued line outside any block:
      one `" " * size` in front, and the counter stays at zero. */
  lemma StepContinued(st: Indented, line: string, size: int)
    requires st.lines != [] && st.depth == 0
    requires BraceFree(Last(st.lines)) && Contains(Last(st.lines), "///")
    requires BraceFree(line) && !IsStarComment(line)
    ensures Step(st, line, size) == Indented(st.lines + [Pad(1, size) + line], 0)
  {
    StepAfterFirst(st, line, size);
    assert Spaces(size) == Pad(1, size);
  }

  /** The first continued line after the head. */
  lemma ContinuedFirst(lead: seq<string>, out: seq<string>, line: string, rest: seq<string>, size: int)
    requires Indent(lead, size) == Indented(out, 0)
    requires out != [] && BraceFree(Last(out)) && Contains(Last(out), "///")
    requires BraceFree(line) && !IsStarComment(line)
    requires rest == [line]
    ensures Indent(lead + rest, size) == Indented(out + Nested(rest, size), 0)
  {
    IndentSnoc(lead, line, size);
    StepContinued(Indent(lead, size), line, size);
    assert Nested(rest, size) == [Pad(1, size) + line];
  }

  /** A further continued line, after one that was indented by one step. */
  lemma ContinuedNext(lead: seq<string>, out: seq<string>, init: seq<string>, line: string, rest: seq<string>, size: int)
    requires init != [] && BraceFree(Last(init)) && Contains(Last(init), "///")
    requires BraceFree(line) && !IsStarComment(line)
    requires rest == init + [line]
    requires Indent(lead + init, size) == Indented(out + Nested(init, size), 0)
    ensures Indent(lead + rest, size) == Indented(out + Nested(rest, size), 0)
  {
    AppendAssoc(lead, init, [line]);
    IndentSnoc(lead + init, line, size);
    NestedSnoc(init, line, size);
    var st := Indent(lead + init, size);
    assert Last(st.lines) == Pad(1, size) + Last(init);
    PaddedBraceFree(Pad(1, size), Last(init));
    StepContinued(st, line, size);
    AppendAssoc(out, Nested(init, size), [Pad(1, size) + line]);
  }

  /** Every line is brace-free and none is a star comment; every line but the last is
      continued with `///`. */
  predicate ContinuedRun(rest: seq<string>)
  {
    (forall i :: 0 <= i < |rest| ==> BraceFree(rest[i]) && !IsStarComment(rest[i]))
    && (forall i :: 0 <= i < |rest| - 1 ==> Contains(rest[i], "///"))
  }

  /** Dropping the last line of a continued run leaves a continued run ending in `///`. */
  lemma ContinuedRunInit(rest: seq<string>)
    requires ContinuedRun(rest) && |rest| >= 2
    ensures ContinuedRun(rest[..|rest| - 1])
    ensures BraceFree(rest[|rest| - 2]) && Contains(rest[|rest| - 2], "///")
    ensures BraceFree(Last(rest)) && !IsStarComment(Last(rest))
  {
  }

  /** After a brace-free output line continued with `///` at depth zero, every line of a
      continued run is indented by exactly one `" " * size`. */
  lemma {:induction false} ContinuedFrom(lead: seq<string>, out: seq<string>, rest: seq<string>, size: int)
    requires Indent(lead, size) == Indented(out, 0)
    requires out != [] && BraceFree(Last(out)) && Contains(Last(out), "///")
    requires ContinuedRun(rest)
    ensures Indent(lead + rest, size) == Indented(out + Nested(rest, size), 0)
    decreases |rest|
  {
    if rest == [] {
      assert lead + rest == lead && out + Nested(rest, size) == out;
    } else if |rest| == 1 {
      assert BraceFree(rest[0]) && !IsStarComment(rest[0]);
      ContinuedFirst(lead, out, rest[0], rest, size);
    } else {
      var init := rest[..|rest| - 1];
      ContinuedRunInit(rest);
      SplitLast(rest);
      ContinuedFrom(lead, out, init, size);
      assert Last(init) == rest[|rest| - 2];
      ContinuedNext(lead, out, init, Last(rest), rest, size);
    }
  }

  /** A run of brace-free lines at top level, each but the last continued with `///` and
      none a star comment: the first line is left as it is, every later line is indented by
      exactly one `" " * size`, however many continuations come before it, and the counter
      stays at zero. */
  lemma ContinuationIndented(pre: seq<string>, head: string, rest: seq<string>, size: int)
    requires AtTopLevel(Indent(pre, size))
    requires BraceFree(head) && Contains(head, "///")
    requires ContinuedRun(rest)
    ensures Indent(pre + [head] + rest, size) == Indented(Indent(pre, size).lines + [head] + Nested(rest, size), 0)
  {
    HeadAtTopLevel(pre, head, size);
    var out := Indent(pre, size).lines + [head];
    assert Last(out) == head;
    ContinuedFrom(pre + [head], out, rest, size);
  }
}
