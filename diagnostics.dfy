/** The style checker of `refresh_diagnostics`: one pass over the lines of a document that
    carries a small state from one line to the next, collects on each line the spans to
    leave alone (block-comment groups, inline comments, strings) and reports line-length,
    operator-spacing, comma-spacing and indentation findings.

    The patterns of the server's constants module are not part of this model: each one is
    a matcher on a line, a field of `Matchers`, that says whether the pattern matches and
    where its groups are. */
module Diagnostics {
  import opened PyStrings
  import opened Seqs

  /** `DiagnosticSeverity` of the language server protocol. */
  datatype Severity = Error | Warning | Information | Hint

  datatype Position = Position(line: int, character: int)

  datatype Range = Range(start: Position, end: Position)

  datatype Diagnostic = Diagnostic(range: Range, message: string, severity: Severity)

  /** A `[start, end]` entry of `skip_tokens`, in Python string indices. */
  datatype Span = Span(start: int, end: int)

  /** A numbered group of a match: `Unmatched` when it took no part in the match, so that
      `start()` and `end()` give -1 and `group()` gives `None`. */
  datatype Group = Unmatched | Matched(start: int, end: int)

  function GroupStart(g: Group): int
  {
    if g.Matched? then g.start else -1
  }

  function GroupEnd(g: Group): int
  {
    if g.Matched? then g.end else -1
  }

  /** `group(1) == ""`: the group took part and matched nothing. */
  predicate GroupIsEmpty(g: Group)
  {
    g.Matched? && g.start == g.end
  }

  /** `[match.start(1), match.end(1)]`. */
  function SpanOf(g: Group): Span
  {
    Span(GroupStart(g), GroupEnd(g))
  }

  /** The patterns, each as a matcher on one line:
      `re.match` gives no match or group 1 of the match, `re.finditer` gives the matches in
      order (the whole span for strings, groups 1 and 2 for operators, group 1 for commas),
      and a pattern that is only tested gives whether it matches. */
  datatype Matchers = Matchers(
    blockCommentsBegin: string -> Option<Group>,
    blockCommentsEnd: string -> Option<Group>,
    starComments: string -> bool,
    inlineComment: string -> Option<Group>,
    strings: string -> seq<Span>,
    operators: string -> seq<(Group, Group)>,
    commas: string -> seq<Group>,
    loopEnd: string -> bool,
    indent: string -> Option<Group>,
    loopStart: string -> bool,
    inlineCommentLong: string -> bool)

  /** The settings the checks read: the limits, and the message and severity of each kind
      of finding. */
  datatype Settings = Settings(
    maxLineLength: int,
    indentSpace: int,
    maxLineLengthMessage: string,
    maxLineLengthSeverity: Severity,
    opWhitespaceMessage: string,
    opWhitespaceSeverity: Severity,
    commaWhitespaceMessage: string,
    commaWhitespaceSeverity: Severity,
    inapIndentMessage: string,
    inapIndentSeverity: Severity)

  /** `LINE_STATE`: inside a block comment, the loop depth, and whether the previous line
      carried a long inline comment. */
  datatype LineState = LineState(isInComm: bool, loopLevel: int, prevComm: int)

  /** The state every scan starts from. */
  const Initial: LineState := LineState(false, 0, 0)

  /** `create_diagnostic`: a finding on one line, from column `stIndex` to `enIndex`. */
  function CreateDiagnostic(line: int, stIndex: int, enIndex: int, msg: string, severity: Severity): (d: Diagnostic)
    ensures d.range.start.line == line && d.range.end.line == line
    ensures d.range.start.character == stIndex && d.range.end.character == enIndex
    ensures d.message == msg && d.severity == severity
  {
    Diagnostic(Range(Position(line, stIndex), Position(line, enIndex)), msg, severity)
  }

  /** `[start, end]` lies inside some span: the span starts at or before `start` and ends at
      or after `end`. Containment, not overlap. */
  predicate Covered(start: int, end: int, spans: seq<Span>)
  {
    exists k :: 0 <= k < |spans| && spans[k].start <= start && end <= spans[k].end
  }

  /** `inSkipTokens`: the spans are tried in order and the first that contains the pair
      answers. */
  method InSkipTokens(start: int, end: int, skipTokens: seq<Span>) returns (r: bool)
    ensures r <==> Covered(start, end, skipTokens)
  {
    for k := 0 to |skipTokens|
      invariant forall j :: 0 <= j < k ==> !(skipTokens[j].start <= start && end <= skipTokens[j].end)
    {
      var token := skipTokens[k];
      if start >= token.start && end <= token.end {
        return true;
      }
    }
    return false;
  }

  /** One more span covers exactly what it contains, besides what the others covered. */
  lemma CoveredSnoc(start: int, end: int, spans: seq<Span>, t: Span)
    ensures Covered(start, end, spans + [t]) <==> Covered(start, end, spans) || (t.start <= start && end <= t.end)
  {
    if Covered(start, end, spans) {
      var k :| 0 <= k < |spans| && spans[k].start <= start && end <= spans[k].end;
      assert (spans + [t])[k] == spans[k];
    }
    if t.start <= start && end <= t.end {
      assert (spans + [t])[|spans|] == t;
    }
  }

  /** A span that only overlaps the pair does not cover it. */
  lemma OverlapIsNotCovered(start: int, end: int, t: Span)
    requires t.start <= start < t.end < end
    ensures !Covered(start, end, [t])
  {
  }

  /** The decimal digits of `n`, as `str(n)` writes them. */
  function NatToString(n: nat): (r: string)
    ensures r != [] && forall i :: 0 <= i < |r| ==> '0' <= r[i] <= '9'
    decreases n
  {
    if n < 10 then [Digit(n)] else NatToString(n / 10) + [Digit(n % 10)]
  }

  function Digit(n: nat): (c: char)
    requires n < 10
    ensures '0' <= c <= '9' && c as int - '0' as int == n
  {
    (n + '0' as int) as char
  }

  /** The number a string of decimal digits stands for. */
  function DecimalValue(s: string): int
  {
    if s == [] then 0 else DecimalValue(s[..|s| - 1]) * 10 + (s[|s| - 1] as int - '0' as int)
  }

  lemma {:induction false} NatToStringValue(n: nat)
    ensures DecimalValue(NatToString(n)) == n
    decreases n
  {
    if n >= 10 {
      NatToStringValue(n / 10);
      var r := NatToString(n);
      assert r[..|r| - 1] == NatToString(n / 10);
    }
  }

  /** `str(i)` of an integer, with a `-` in front of a negative one. */
  function IntToString(i: int): string
  {
    if i < 0 then "-" + NatToString(-i) else NatToString(i)
  }

  // ---------------------------------------------------------------------------------------
  // The specification of one line

  /** `re.findall(r"^\s*\*\s", s)` finds something: after the leading whitespace, a `*` and
      one more whitespace character. */
  predicate LeadingStarComment(s: string)
  {
    var w := SpaceRun(s);
    w + 1 < |s| && s[w] == '*' && IsSpace(s[w + 1])
  }

  /** The condition of the line-length check, on the text before the first `//`. */
  predicate TooLong(cfg: Settings, line: string)
  {
    var remaining := Before(line, "//");
    |remaining| > cfg.maxLineLength && !LeadingStarComment(remaining)
    && !StartsWith(remaining, "// ") && !StartsWith(remaining, "/* ") && !StartsWith(remaining, "*/ ")
  }

  /** The line-length finding: none, or one of zero width at column `MAX_LINE_LENGTH`. */
  function LengthFindings(cfg: Settings, lineno: int, line: string): seq<Diagnostic>
  {
    if TooLong(cfg, line) then
      [CreateDiagnostic(lineno, cfg.maxLineLength, cfg.maxLineLength, cfg.maxLineLengthMessage, cfg.maxLineLengthSeverity)]
    else []
  }

  /** What block-comment tracking decides about a line: skip it (`continue`), or go on
      checking it with the skip spans collected so far. Either way it sets `isInComm`. */
  datatype Tracked = Skip(isInComm: bool) | Check(isInComm: bool, spans: seq<Span>)

  function TrackComment(m: Matchers, isInComm: bool, line: string): Tracked
  {
    if !isInComm then
      match m.blockCommentsBegin(line)
      case None => Check(false, [])
      case Some(g) => if GroupIsEmpty(g) then Skip(true) else Check(true, [SpanOf(g)])
    else
      match m.blockCommentsEnd(line)
      case None => Skip(true)
      case Some(g) => if GroupIsEmpty(g) then Skip(false) else Check(false, [SpanOf(g)])
  }

  /** The inline-comment group is skipped unless it is the empty string. */
  function WithInlineComment(m: Matchers, line: string, spans: seq<Span>): seq<Span>
  {
    match m.inlineComment(line)
    case None => spans
    case Some(g) => if GroupIsEmpty(g) then spans else spans + [SpanOf(g)]
  }

  /** Each string span, in order, joins the skip spans unless one already contains it. */
  function WithStrings(spans: seq<Span>, strs: seq<Span>): (r: seq<Span>)
    decreases |strs|
  {
    if strs == [] then spans
    else
      var before := WithStrings(spans, strs[..|strs| - 1]);
      var t := strs[|strs| - 1];
      if Covered(t.start, t.end, before) then before else before + [t]
  }

  /** A gap is reported when no skip span contains it and it is not exactly one character
      wide. */
  predicate Flagged(g: Group, spans: seq<Span>)
  {
    !Covered(GroupStart(g), GroupEnd(g), spans) && GroupEnd(g) - GroupStart(g) != 1
  }

  /** The findings for a list of gaps, in order, each of zero width at the gap's end. */
  function GapFindings(lineno: int, gaps: seq<Group>, spans: seq<Span>, msg: string, severity: Severity): seq<Diagnostic>
    decreases |gaps|
  {
    if gaps == [] then []
    else
      var g := gaps[|gaps| - 1];
      GapFindings(lineno, gaps[..|gaps| - 1], spans, msg, severity)
      + (if Flagged(g, spans) then [CreateDiagnostic(lineno, GroupEnd(g), GroupEnd(g), msg, severity)] else [])
  }

  /** The gaps of the operator matches: groups 1 and 2 of each match, in order. */
  function OperatorGaps(ops: seq<(Group, Group)>): (r: seq<Group>)
    decreases |ops|
  {
    if ops == [] then [] else OperatorGaps(ops[..|ops| - 1]) + [ops[|ops| - 1].0, ops[|ops| - 1].1]
  }

  /** The loop depth after the loop-end adjustment. */
  function AfterLoopEnd(m: Matchers, level: int, line: string): int
  {
    if m.loopEnd(line) && level > 0 then level - 1 else level
  }

  /** The indentation a checked line is measured against. */
  function ExpectedIndent(m: Matchers, cfg: Settings, st: LineState, line: string): int
  {
    (AfterLoopEnd(m, st.loopLevel, line) + st.prevComm) * cfg.indentSpace
  }

  /** The indentation finding: none unless the indentation group exists and its width is
      not the expected one. */
  function IndentFindings(m: Matchers, cfg: Settings, lineno: int, line: string, expected: int): seq<Diagnostic>
  {
    match m.indent(line)
    case None => []
    case Some(g) =>
      if GroupEnd(g) - GroupStart(g) != expected then
        [CreateDiagnostic(lineno, GroupEnd(g), GroupEnd(g),
          cfg.inapIndentMessage + " (expected " + IntToString(expected) + " spaces)", cfg.inapIndentSeverity)]
      else []
  }

  /** The skip spans of a checked line. */
  function SkipSpans(m: Matchers, line: string, tracked: seq<Span>): seq<Span>
  {
    WithStrings(WithInlineComment(m, line, tracked), m.strings(line))
  }

  /** The spacing and indentation findings of a line that is checked. */
  function CheckedFindings(m: Matchers, cfg: Settings, st: LineState, lineno: int, line: string, tracked: seq<Span>): seq<Diagnostic>
  {
    var spans := SkipSpans(m, line, tracked);
    GapFindings(lineno, OperatorGaps(m.operators(line)), spans, cfg.opWhitespaceMessage, cfg.opWhitespaceSeverity)
    + GapFindings(lineno, m.commas(line), spans, cfg.commaWhitespaceMessage, cfg.commaWhitespaceSeverity)
    + IndentFindings(m, cfg, lineno, line, ExpectedIndent(m, cfg, st, line))
  }

  /** `prevComm` after a checked line. */
  function NextPrevComm(prevComm: int, hasLongComment: bool): int
  {
    if hasLongComment then 1 else if prevComm > 0 then prevComm - 1 else prevComm
  }

  /** The state after a checked line. */
  function CheckedState(m: Matchers, st: LineState, line: string, isInComm: bool): LineState
  {
    var level := AfterLoopEnd(m, st.loopLevel, line);
    LineState(isInComm, if m.loopStart(line) then level + 1 else level, NextPrevComm(st.prevComm, m.inlineCommentLong(line)))
  }

  /** A state and the findings so far. */
  datatype Scanned = Scanned(state: LineState, diagnostics: seq<Diagnostic>)

  /** A line gets the spacing and indentation checks when comment tracking keeps it and it
      is no star comment. */
  predicate Checked(m: Matchers, st: LineState, line: string)
  {
    TrackComment(m, st.isInComm, line).Check? && !m.starComments(line)
  }

  /** One pass of the loop in `refresh_diagnostics`: the next state and the line's findings. */
  function ScanLine(m: Matchers, cfg: Settings, st: LineState, lineno: int, line: string): Scanned
  {
    var length := LengthFindings(cfg, lineno, line);
    var tracked := TrackComment(m, st.isInComm, line);
    if tracked.Skip? || m.starComments(line) then Scanned(st.(isInComm := tracked.isInComm), length)
    else Scanned(CheckedState(m, st, line, tracked.isInComm), length + CheckedFindings(m, cfg, st, lineno, line, tracked.spans))
  }

  /** The state and the findings after the first `n` lines. */
  function ScanPrefix(m: Matchers, cfg: Settings, lines: seq<string>, n: nat): Scanned
    requires n <= |lines|
  {
    if n == 0 then Scanned(Initial, [])
    else
      var before := ScanPrefix(m, cfg, lines, n - 1);
      var here := ScanLine(m, cfg, before.state, n - 1, lines[n - 1]);
      Scanned(here.state, before.diagnostics + here.diagnostics)
  }

  /** The findings `refresh_diagnostics` publishes for a document's lines. */
  function Scan(m: Matchers, cfg: Settings, lines: seq<string>): Scanned
  {
    ScanPrefix(m, cfg, lines, |lines|)
  }

  // ---------------------------------------------------------------------------------------
  // The scanner

  /** `refresh_diagnostics` without the workspace lookup and the publishing: the findings for
      the document's lines, in order. */
  method RefreshDiagnostics(m: Matchers, cfg: Settings, lines: seq<string>) returns (diagnostics: seq<Diagnostic>)
    ensures diagnostics == Scan(m, cfg, lines).diagnostics
  {
    diagnostics := [];
    var lineState := Initial;
    for lineno := 0 to |lines|
      invariant Scanned(lineState, diagnostics) == ScanPrefix(m, cfg, lines, lineno)
    {
      diagnostics, lineState := CheckLine(m, cfg, diagnostics, lineState, lineno, lines[lineno]);
    }
  }

  /** The body of the loop in `refresh_diagnostics` for one line; each `continue` there is a
      `return` here. */
  method CheckLine(m: Matchers, cfg: Settings, diagnostics: seq<Diagnostic>, lineState: LineState, lineno: int, line: string)
    returns (found: seq<Diagnostic>, next: LineState)
    ensures Scanned(next, found) == Scanned(ScanLine(m, cfg, lineState, lineno, line).state,
      diagnostics + ScanLine(m, cfg, lineState, lineno, line).diagnostics)
  {
    found := diagnostics;
    next := lineState;
    var length := CheckLength(cfg, lineno, line);
    found := found + length;
    var skipTokens: seq<Span> := [];
    if !next.isInComm {
      var opener := m.blockCommentsBegin(line);
      if opener.None? {
      } else if GroupIsEmpty(opener.value) {
        next := next.(isInComm := true);
        return;
      } else {
        next := next.(isInComm := true);
        skipTokens := skipTokens + [SpanOf(opener.value)];
      }
    } else {
      var closer := m.blockCommentsEnd(line);
      if closer.None? {
        return;
      } else if GroupIsEmpty(closer.value) {
        next := next.(isInComm := false);
        return;
      } else {
        next := next.(isInComm := false);
        skipTokens := skipTokens + [SpanOf(closer.value)];
      }
    }
    assert TrackComment(m, lineState.isInComm, line) == Check(next.isInComm, skipTokens);
    if m.starComments(line) {
      return;
    }
    var checked, loopLevel := CheckRules(m, cfg, lineState, lineno, line, skipTokens);
    CheckedLine(m, cfg, lineState, lineno, line);
    AppendAssoc(diagnostics, length, checked);
    found := found + checked;
    next := next.(loopLevel := loopLevel);
    if m.loopStart(line) {
      next := next.(loopLevel := next.loopLevel + 1);
    }
    var hasLongComment := m.inlineCommentLong(line);
    if next.prevComm > 0 && !hasLongComment {
      next := next.(prevComm := next.prevComm - 1);
    }
    if hasLongComment {
      next := next.(prevComm := 1);
    }
  }

  /** A checked line: its state after the rules and its findings after the length rule. */
  lemma CheckedLine(m: Matchers, cfg: Settings, st: LineState, lineno: int, line: string)
    requires Checked(m, st, line)
    ensures var tracked := TrackComment(m, st.isInComm, line);
      ScanLine(m, cfg, st, lineno, line)
      == Scanned(CheckedState(m, st, line, tracked.isInComm), LengthFindings(cfg, lineno, line) + CheckedFindings(m, cfg, st, lineno, line, tracked.spans))
  {
  }

  /** The checks after comment tracking, with the loop-end adjustment that comes before the
      indentation rule. */
  method CheckRules(m: Matchers, cfg: Settings, lineState: LineState, lineno: int, line: string, tracked: seq<Span>)
    returns (found: seq<Diagnostic>, loopLevel: int)
    ensures found == CheckedFindings(m, cfg, lineState, lineno, line, tracked)
    ensures loopLevel == AfterLoopEnd(m, lineState.loopLevel, line)
  {
    var skipTokens := CollectSkipTokens(m, line, tracked);
    var operators := CheckOperators(lineno, m.operators(line), skipTokens, cfg.opWhitespaceMessage, cfg.opWhitespaceSeverity);
    var commas := CheckGaps(lineno, m.commas(line), skipTokens, cfg.commaWhitespaceMessage, cfg.commaWhitespaceSeverity);
    var indentation;
    indentation, loopLevel := CheckIndentation(m, cfg, lineState, lineno, line);
    found := operators + commas + indentation;
  }

  /** The inline comment and the strings join the skip spans of comment tracking. */
  method CollectSkipTokens(m: Matchers, line: string, tracked: seq<Span>) returns (skipTokens: seq<Span>)
    ensures skipTokens == SkipSpans(m, line, tracked)
  {
    skipTokens := tracked;
    var inline := m.inlineComment(line);
    if inline.Some? && !GroupIsEmpty(inline.value) {
      skipTokens := skipTokens + [SpanOf(inline.value)];
    }
    skipTokens := CollectStrings(skipTokens, m.strings(line));
  }

  /** The loop-end adjustment and the indentation rule. */
  method CheckIndentation(m: Matchers, cfg: Settings, lineState: LineState, lineno: int, line: string)
    returns (found: seq<Diagnostic>, loopLevel: int)
    ensures found == IndentFindings(m, cfg, lineno, line, ExpectedIndent(m, cfg, lineState, line))
    ensures loopLevel == AfterLoopEnd(m, lineState.loopLevel, line)
  {
    found := [];
    loopLevel := lineState.loopLevel;
    if m.loopEnd(line) && loopLevel > 0 {
      loopLevel := loopLevel - 1;
    }
    var indent := m.indent(line);
    if indent.Some? {
      var start, end := GroupStart(indent.value), GroupEnd(indent.value);
      var actualSpace := end - start;
      var expectedSpace := (loopLevel + lineState.prevComm) * cfg.indentSpace;
      if actualSpace != expectedSpace {
        found := found + [CreateDiagnostic(lineno, end, end,
          cfg.inapIndentMessage + " (expected " + IntToString(expectedSpace) + " spaces)", cfg.inapIndentSeverity)];
      }
    }
  }

  /** The line-length rule. */
  method CheckLength(cfg: Settings, lineno: int, line: string) returns (found: seq<Diagnostic>)
    ensures found == LengthFindings(cfg, lineno, line)
  {
    found := [];
    var remaining := Before(line, "//");
    if |remaining| > cfg.maxLineLength && !LeadingStarComment(remaining)
      && !StartsWith(remaining, "// ") && !StartsWith(remaining, "/* ") && !StartsWith(remaining, "*/ ")
    {
      found := found + [CreateDiagnostic(lineno, cfg.maxLineLength, cfg.maxLineLength, cfg.maxLineLengthMessage, cfg.maxLineLengthSeverity)];
    }
  }

  /** The loop over the string matches. */
  method CollectStrings(spans: seq<Span>, strs: seq<Span>) returns (skipTokens: seq<Span>)
    ensures skipTokens == WithStrings(spans, strs)
  {
    skipTokens := spans;
    for i := 0 to |strs|
      invariant skipTokens == WithStrings(spans, strs[..i])
    {
      var start, end := strs[i].start, strs[i].end;
      var inside := InSkipTokens(start, end, skipTokens);
      if !inside {
        skipTokens := skipTokens + [Span(start, end)];
      }
      TakeOneMore(strs, i);
    }
    assert strs[..|strs|] == strs;
  }

  /** The loop over the operator matches, with its inner loop over groups 1 and 2. */
  method CheckOperators(lineno: int, ops: seq<(Group, Group)>, spans: seq<Span>, msg: string, severity: Severity)
    returns (found: seq<Diagnostic>)
    ensures found == GapFindings(lineno, OperatorGaps(ops), spans, msg, severity)
  {
    found := [];
    for i := 0 to |ops|
      invariant found == GapFindings(lineno, OperatorGaps(ops[..i]), spans, msg, severity)
    {
      var done := OperatorGaps(ops[..i]);
      var pair := [ops[i].0, ops[i].1];
      assert done + pair[..0] == done;
      for sindex := 1 to 3
        invariant found == GapFindings(lineno, done + pair[..sindex - 1], spans, msg, severity)
      {
        var g := if sindex == 1 then ops[i].0 else ops[i].1;
        found := CheckGap(found, lineno, g, spans, msg, severity);
        GapAdvance(lineno, done, pair, sindex - 1, spans, msg, severity);
      }
      assert pair[..2] == pair;
      TakeOneMore(ops, i);
      assert OperatorGaps(ops[..i + 1]) == done + pair;
    }
    assert ops[..|ops|] == ops;
  }

  /** The loop over the comma matches. */
  method CheckGaps(lineno: int, gaps: seq<Group>, spans: seq<Span>, msg: string, severity: Severity)
    returns (found: seq<Diagnostic>)
    ensures found == GapFindings(lineno, gaps, spans, msg, severity)
  {
    found := [];
    for i := 0 to |gaps|
      invariant found == GapFindings(lineno, gaps[..i], spans, msg, severity)
    {
      found := CheckGap(found, lineno, gaps[i], spans, msg, severity);
      GapAdvance(lineno, [], gaps, i, spans, msg, severity);
      JoinOne(gaps[..i]);
      JoinOne(gaps[..i + 1]);
    }
    assert gaps[..|gaps|] == gaps;
  }

  /** The test of one gap. */
  method CheckGap(found: seq<Diagnostic>, lineno: int, g: Group, spans: seq<Span>, msg: string, severity: Severity)
    returns (extended: seq<Diagnostic>)
    ensures extended == found + (if Flagged(g, spans) then [CreateDiagnostic(lineno, GroupEnd(g), GroupEnd(g), msg, severity)] else [])
  {
    extended := found;
    var start, end := GroupStart(g), GroupEnd(g);
    var inside := InSkipTokens(start, end, spans);
    if !inside {
      if end - start != 1 {
        extended := extended + [CreateDiagnostic(lineno, end, end, msg, severity)];
      }
    }
  }

  lemma GapAdvance(lineno: int, done: seq<Group>, more: seq<Group>, k: nat, spans: seq<Span>, msg: string, severity: Severity)
    requires k < |more|
    ensures GapFindings(lineno, done + more[..k + 1], spans, msg, severity)
      == GapFindings(lineno, done + more[..k], spans, msg, severity)
        + (if Flagged(more[k], spans) then [CreateDiagnostic(lineno, GroupEnd(more[k]), GroupEnd(more[k]), msg, severity)] else [])
  {
    var gaps := done + more[..k + 1];
    assert gaps[..|gaps| - 1] == done + more[..k];
  }

  // ---------------------------------------------------------------------------------------
  // Properties of the scan

  /** The state stays in range: the loop depth never goes negative and `prevComm` is 0 or 1. */
  predicate Sane(st: LineState)
  {
    st.loopLevel >= 0 && 0 <= st.prevComm <= 1
  }

  lemma ScanLineKeepsSane(m: Matchers, cfg: Settings, st: LineState, lineno: int, line: string)
    requires Sane(st)
    ensures Sane(ScanLine(m, cfg, st, lineno, line).state)
  {
  }

  lemma {:induction false} ScanSane(m: Matchers, cfg: Settings, lines: seq<string>, n: nat)
    requires n <= |lines|
    ensures Sane(ScanPrefix(m, cfg, lines, n).state)
  {
    if n > 0 {
      ScanSane(m, cfg, lines, n - 1);
      ScanLineKeepsSane(m, cfg, ScanPrefix(m, cfg, lines, n - 1).state, n - 1, lines[n - 1]);
    }
  }

  /** A line that is skipped, inside a block comment or as a star comment, gets at most the
      length finding and leaves the loop depth and `prevComm` alone. */
  lemma SkippedLine(m: Matchers, cfg: Settings, st: LineState, lineno: int, line: string)
    requires !Checked(m, st, line)
    ensures var r := ScanLine(m, cfg, st, lineno, line);
      r.diagnostics == LengthFindings(cfg, lineno, line)
      && r.state.loopLevel == st.loopLevel && r.state.prevComm == st.prevComm
  {
  }

  /** Block comments: outside one, a line with an opener starts one; inside one, a line
      without a closer stays in it. */
  lemma BlockCommentState(m: Matchers, cfg: Settings, st: LineState, lineno: int, line: string)
    ensures ScanLine(m, cfg, st, lineno, line).state.isInComm
      == if st.isInComm then m.blockCommentsEnd(line).None? else m.blockCommentsBegin(line).Some?
  {
  }

  /** Which lines comment tracking skips: an opener whose group is empty, and inside a
      comment a line with no closer or a closer whose group is empty. A non-empty group
      becomes the first skip span of the line. */
  lemma BlockCommentSkips(m: Matchers, st: LineState, line: string)
    ensures TrackComment(m, st.isInComm, line).Skip? <==>
      if st.isInComm then m.blockCommentsEnd(line).None? || GroupIsEmpty(m.blockCommentsEnd(line).value)
      else m.blockCommentsBegin(line).Some? && GroupIsEmpty(m.blockCommentsBegin(line).value)
    ensures var g := if st.isInComm then m.blockCommentsEnd(line) else m.blockCommentsBegin(line);
      TrackComment(m, st.isInComm, line).Check? && g.Some? ==> TrackComment(m, st.isInComm, line).spans == [SpanOf(g.value)]
  {
  }

  /** The loop depth goes down by one on a checked loop-end line when it is positive, and up
      by one on a checked loop-start line; nothing else changes it. */
  lemma LoopLevelSteps(m: Matchers, cfg: Settings, st: LineState, lineno: int, line: string)
    ensures ScanLine(m, cfg, st, lineno, line).state.loopLevel
      == st.loopLevel - (if Checked(m, st, line) && m.loopEnd(line) && st.loopLevel > 0 then 1 else 0)
        + (if Checked(m, st, line) && m.loopStart(line) then 1 else 0)
  {
  }

  /** After a checked line `prevComm` records exactly whether it carried a long inline
      comment. */
  lemma PrevCommSteps(m: Matchers, cfg: Settings, st: LineState, lineno: int, line: string)
    requires Sane(st)
    ensures ScanLine(m, cfg, st, lineno, line).state.prevComm
      == if !Checked(m, st, line) then st.prevComm else if m.inlineCommentLong(line) then 1 else 0
  {
  }

  /** The length rule runs before comment tracking: every line's findings start with it,
      whether the line is checked further or not. */
  lemma LengthFindingFirst(m: Matchers, cfg: Settings, st: LineState, lineno: int, line: string)
    ensures var r := ScanLine(m, cfg, st, lineno, line).diagnostics;
      var l := LengthFindings(cfg, lineno, line);
      |l| <= |r| && r[..|l|] == l
  {
  }

  /** A line gets a length finding exactly when the text before its first `//` is longer
      than the limit and none of the exemptions applies; the finding has zero width at
      column `MAX_LINE_LENGTH`. */
  lemma LengthRule(cfg: Settings, lineno: int, line: string)
    ensures |LengthFindings(cfg, lineno, line)| == if TooLong(cfg, line) then 1 else 0
    ensures forall d :: d in LengthFindings(cfg, lineno, line) ==>
      d.range.start == d.range.end == Position(lineno, cfg.maxLineLength) && d.message == cfg.maxLineLengthMessage
  {
  }

  /** The `// ` exemption of the length rule never applies: the text before the first `//`
      holds no `//`. */
  lemma SlashExemptionNeverApplies(line: string)
    ensures !StartsWith(Before(line, "//"), "// ")
  {
    var remaining := Before(line, "//");
    BeforeHasNoSeparator(line, "//");
    assert !OccursAt(remaining, "//", 0);
  }

  /** Every flagged gap is reported, at its end. */
  lemma {:induction false} GapFindingsComplete(lineno: int, gaps: seq<Group>, spans: seq<Span>, msg: string, severity: Severity, i: nat)
    requires i < |gaps| && Flagged(gaps[i], spans)
    ensures CreateDiagnostic(lineno, GroupEnd(gaps[i]), GroupEnd(gaps[i]), msg, severity) in GapFindings(lineno, gaps, spans, msg, severity)
    decreases |gaps|
  {
    var n := |gaps| - 1;
    if i < n {
      var init := gaps[..n];
      assert init[i] == gaps[i];
      GapFindingsComplete(lineno, init, spans, msg, severity, i);
    }
  }

  /** Every finding reported is a flagged gap's. */
  lemma {:induction false} GapFindingsSound(lineno: int, gaps: seq<Group>, spans: seq<Span>, msg: string, severity: Severity, d: Diagnostic)
    requires d in GapFindings(lineno, gaps, spans, msg, severity)
    ensures exists i :: 0 <= i < |gaps| && Flagged(gaps[i], spans) && d == CreateDiagnostic(lineno, GroupEnd(gaps[i]), GroupEnd(gaps[i]), msg, severity)
    decreases |gaps|
  {
    var n := |gaps| - 1;
    var init := gaps[..n];
    if d in GapFindings(lineno, init, spans, msg, severity) {
      GapFindingsSound(lineno, init, spans, msg, severity, d);
      var i :| 0 <= i < |init| && Flagged(init[i], spans) && d == CreateDiagnostic(lineno, GroupEnd(init[i]), GroupEnd(init[i]), msg, severity);
      assert gaps[i] == init[i];
    } else {
      assert Flagged(gaps[n], spans) && d == CreateDiagnostic(lineno, GroupEnd(gaps[n]), GroupEnd(gaps[n]), msg, severity);
    }
  }

  /** The gaps reported are exactly the flagged ones, each at its end. */
  lemma GapFindingsIff(lineno: int, gaps: seq<Group>, spans: seq<Span>, msg: string, severity: Severity, d: Diagnostic)
    ensures d in GapFindings(lineno, gaps, spans, msg, severity) <==>
      exists i :: 0 <= i < |gaps| && Flagged(gaps[i], spans) && d == CreateDiagnostic(lineno, GroupEnd(gaps[i]), GroupEnd(gaps[i]), msg, severity)
  {
    if d in GapFindings(lineno, gaps, spans, msg, severity) {
      GapFindingsSound(lineno, gaps, spans, msg, severity, d);
    }
    if exists i :: 0 <= i < |gaps| && Flagged(gaps[i], spans) && d == CreateDiagnostic(lineno, GroupEnd(gaps[i]), GroupEnd(gaps[i]), msg, severity) {
      var i :| 0 <= i < |gaps| && Flagged(gaps[i], spans) && d == CreateDiagnostic(lineno, GroupEnd(gaps[i]), GroupEnd(gaps[i]), msg, severity);
      GapFindingsComplete(lineno, gaps, spans, msg, severity, i);
    }
  }

  /** The operator gaps are groups 1 and 2 of each match, in order. */
  lemma {:induction false} OperatorGapsIndex(ops: seq<(Group, Group)>)
    ensures |OperatorGaps(ops)| == 2 * |ops|
    ensures forall i :: 0 <= i < |ops| ==> OperatorGaps(ops)[2 * i] == ops[i].0 && OperatorGaps(ops)[2 * i + 1] == ops[i].1
    decreases |ops|
  {
    if ops != [] {
      var n := |ops| - 1;
      OperatorGapsIndex(ops[..n]);
      forall i | 0 <= i < |ops|
        ensures OperatorGaps(ops)[2 * i] == ops[i].0 && OperatorGaps(ops)[2 * i + 1] == ops[i].1
      {
        if i < n {
          assert ops[..n][i] == ops[i];
        }
      }
    }
  }

  /** The skip spans of a checked line keep the span from comment tracking first, and every
      string match ends up inside one of them. */
  lemma {:induction false} WithStringsCovers(spans: seq<Span>, strs: seq<Span>)
    ensures |spans| <= |WithStrings(spans, strs)| && WithStrings(spans, strs)[..|spans|] == spans
    ensures forall t :: t in strs ==> Covered(t.start, t.end, WithStrings(spans, strs))
    decreases |strs|
  {
    if strs != [] {
      var init := strs[..|strs| - 1];
      var last := strs[|strs| - 1];
      var before := WithStrings(spans, init);
      WithStringsCovers(spans, init);
      CoveredSnoc(last.start, last.end, before, last);
      forall t | t in strs
        ensures Covered(t.start, t.end, WithStrings(spans, strs))
      {
        if t != last {
          assert t in init;
          if !Covered(last.start, last.end, before) {
            var k :| 0 <= k < |before| && before[k].start <= t.start && t.end <= before[k].end;
            assert (before + [last])[k] == before[k];
          }
        }
      }
    }
  }

  /** The indentation finding: present exactly when the indentation group exists and its
      width differs from the expected width, which the message names. */
  lemma IndentRule(m: Matchers, cfg: Settings, lineno: int, line: string, expected: int)
    ensures var f := IndentFindings(m, cfg, lineno, line, expected);
      |f| == (if m.indent(line).Some? && GroupEnd(m.indent(line).value) - GroupStart(m.indent(line).value) != expected then 1 else 0)
      && forall d :: d in f ==>
        d.range.start.character == GroupEnd(m.indent(line).value)
        && d.message == cfg.inapIndentMessage + " (expected " + IntToString(expected) + " spaces)"
  {
  }

  /** The line after a checked loop start that carries no long comment is expected one
      indentation step deeper, unless it ends the loop, in which case it is expected where
      the loop start was. */
  lemma LoopIndentation(m: Matchers, cfg: Settings, st: LineState, lineno: int, opening: string, next: string)
    requires Sane(st) && st.prevComm == 0
    requires Checked(m, st, opening) && m.loopStart(opening) && !m.loopEnd(opening) && !m.inlineCommentLong(opening)
    ensures var after := ScanLine(m, cfg, st, lineno, opening).state;
      ExpectedIndent(m, cfg, after, next)
      == ExpectedIndent(m, cfg, st, opening) + (if m.loopEnd(next) then 0 else cfg.indentSpace)
  {
    CheckedLine(m, cfg, st, lineno, opening);
    var after := ScanLine(m, cfg, st, lineno, opening).state;
    assert after.loopLevel == st.loopLevel + 1 && after.prevComm == 0;
    OneMoreStep(st.loopLevel, cfg.indentSpace);
  }

  lemma OneMoreStep(level: int, size: int)
    ensures (level + 1 + 0) * size == (level + 0) * size + size
  {
  }

  /** The line after a checked line with a long inline comment is expected one indentation
      step deeper. */
  lemma CommentIndentation(m: Matchers, cfg: Settings, st: LineState, lineno: int, commented: string, next: string)
    requires Sane(st)
    requires Checked(m, st, commented) && m.inlineCommentLong(commented)
    ensures var after := ScanLine(m, cfg, st, lineno, commented).state;
      ExpectedIndent(m, cfg, after, next) == (AfterLoopEnd(m, after.loopLevel, next) + 1) * cfg.indentSpace
  {
  }

  /** Every finding of a line sits on that line. */
  lemma {:induction false} GapFindingsOnLine(lineno: int, gaps: seq<Group>, spans: seq<Span>, msg: string, severity: Severity)
    ensures forall d :: d in GapFindings(lineno, gaps, spans, msg, severity) ==> d.range.start.line == d.range.end.line == lineno
    decreases |gaps|
  {
    if gaps != [] {
      GapFindingsOnLine(lineno, gaps[..|gaps| - 1], spans, msg, severity);
    }
  }

  /** Every finding reported while scanning a line is on that line. */
  lemma LineFindingsOnLine(m: Matchers, cfg: Settings, st: LineState, lineno: int, line: string)
    ensures forall d :: d in ScanLine(m, cfg, st, lineno, line).diagnostics ==> d.range.start.line == d.range.end.line == lineno
  {
    if Checked(m, st, line) {
      CheckedLine(m, cfg, st, lineno, line);
      var spans := SkipSpans(m, line, TrackComment(m, st.isInComm, line).spans);
      GapFindingsOnLine(lineno, OperatorGaps(m.operators(line)), spans, cfg.opWhitespaceMessage, cfg.opWhitespaceSeverity);
      GapFindingsOnLine(lineno, m.commas(line), spans, cfg.commaWhitespaceMessage, cfg.commaWhitespaceSeverity);
    } else {
      SkippedLine(m, cfg, st, lineno, line);
    }
  }
}
