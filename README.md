# Stata language server: formatter and style checker

This project models two line-oriented text engines of a language server for Stata source.
Each model is proved against a specification of what the engine computes.

**The formatter.** `StataFormatter.format_code` runs four stages over the lines of a
program:
- **Merge.** Physical lines that end in the `///` continuation marker are merged into
  logical lines. The text after each marker goes into a parallel list of comments
  (module `Reordering`).
- **Respace.** Whitespace around commas and operators is normalised and runs of
  whitespace are collapsed (module `Respace`).
- **Break.** Lines longer than the limit are cut at the furthest balanced position. The
  cut is after a bracket, a comma or a logical operator if one qualifies, and otherwise
  after a whitespace character. Every cut-off piece ends in ` ///` (module `Breaking`).
- **Indent.** Lines are re-indented by a brace-depth counter, with one more indentation
  step after a continuation line (module `Indenting`).

The class itself is `Formatter.StataFormatter`. Its methods keep the loops of the
original, and each is proved equal to the specification function of its stage.
`PyStrings` gives the Python string semantics the stages rely on: `strip`, `split` with a
separator, `find`, `in`, `count`, `" " * n`, the prefix slice `t[:n]` with a negative `n`,
and `split("\n")` with `"\n".join`. `Seqs` holds small generic lemmas about sequences.

**The style checker.** `refresh_diagnostics` makes one pass over the lines of a document
(module `Diagnostics`). It carries three pieces of state from line to line:
- whether it is inside a block comment;
- the loop depth;
- whether the previous line had a long inline comment.

On each line it collects the spans to ignore: block-comment parts, an inline comment and
strings. It then reports four kinds of findings: line length, spacing around operators,
spacing after commas, and indentation. The regular expressions of the checker's
configuration are not part of this model. Each one is a function field of `Matchers`:
- a `re.match` gives no match or group 1 of its match;
- a `re.finditer` gives the matches in order;
- a pattern that is only tested gives a boolean.

A group that took no part in a match is `Unmatched`, and its start and end are -1, as in
Python.

Two behaviours of the code as written are stated as lemmas rather than corrected:
- An opening line followed directly by a closing line does not close the block
  (`Indenting.EmptyBlockStaysOpen`). The `{` of the previous line takes the first branch
  of the depth chain, so the `}` is indented and the depth stays at one.
- The `// ` exemption of the length rule can never apply
  (`Diagnostics.SlashExemptionNeverApplies`). The text before the first `//` never
  starts with `//`.

## Model

| member | source | states |
|---|---|---|
| PyStrings.Strip | server/formatter.py:101 | `strip()` leaves no whitespace at either end and never lengthens the string |
| PyStrings.StripIsInfix | server/formatter.py:101 | what `strip()` keeps is an infix of the input, with only whitespace before and after it |
| PyStrings.NonSpaceStrip | server/formatter.py:48 | stripping removes whitespace only: the non-whitespace characters stay the same, in order |
| PyStrings.Find | server/formatter.py:105 | the first occurrence of the separator, or -1, with no occurrence before the one returned |
| PyStrings.ContainsIff | server/formatter.py:23 | `pat in s` holds exactly when the pattern occurs at some index |
| PyStrings.ContainsAfterSpaces | server/formatter.py:79 | spaces put in front of a line neither create nor hide an occurrence of a pattern that does not start with a space |
| PyStrings.Before | server/formatter.py:105-106 | `split(sep, 1)[0]` is the whole string when there is no separator and the text up to the first one otherwise |
| PyStrings.After | server/formatter.py:27 | `split(sep, 1)[1]` is the text after the first separator |
| PyStrings.SplitAtSeparator | server/formatter.py:105 | the part before, the separator and the part after put together give the string back |
| PyStrings.BeforeHasNoSeparator | server/server.py:168 | the text before the first `//` contains no `//` |
| PyStrings.CountAppend | server/formatter.py:176-179 | `count` of a concatenation is the sum of the counts |
| PyStrings.Spaces | server/formatter.py:82 | `" " * n` is `n` spaces, and empty for `n <= 0` |
| PyStrings.Head | server/formatter.py:149 | `t[:n]` is a prefix of `t` of length `min(n, len(t))` for `n >= 0` and `max(0, len(t) + n)` for `n < 0` |
| PyStrings.SplitLines | server/formatter.py:10 | `split("\n")` gives at least one line and no line holds a newline |
| PyStrings.JoinSplit | server/formatter.py:10-14 | joining the split lines with newlines gives the code back |
| PyStrings.SplitJoin | server/formatter.py:10-14 | splitting joined lines gives the lines back when none holds a newline |
| Respace.OperatorLength | server/formatter.py:95 | the operator alternation matches a token that fits in the string and does not start with whitespace |
| Respace.OperatorLongestMatch | server/formatter.py:95 | trying the alternatives in order gives the longest match: what is matched is an operator, and no longer prefix of the text is one, so `>=` is never split into `>` and `=` |
| Respace.FormatLine | server/formatter.py:88-101 | `_format_line` leaves no whitespace at the ends and no two whitespace characters in a row, and keeps every non-whitespace character in order |
| Respace.SpaceCommasKeepsText | server/formatter.py:92 | the comma substitution changes only whitespace |
| Respace.SpaceOperatorsKeepsText | server/formatter.py:95 | the operator substitution changes only whitespace |
| Respace.CollapseKeepsText | server/formatter.py:99 | collapsing whitespace runs changes only whitespace |
| Respace.CollapseNoDoubleSpace | server/formatter.py:99 | after `\s{2,}` becomes one space, no two whitespace characters stand together |
| Respace.StripNoDoubleSpace | server/formatter.py:101 | stripping keeps a string free of double whitespace |
| Breaking.ValidConcat | server/formatter.py:174-186 | two segments that pass `_is_valid_break_point` pass it when joined |
| Breaking.BracketEnds | server/formatter.py:149 | every reported position is the end of a `[)\]][,\|\s]` match inside the searched prefix |
| Breaking.BracketEndsComplete | server/formatter.py:149 | every bracket match in the prefix is reported |
| Breaking.CommaEnds | server/formatter.py:153 | every reported position follows a comma of the prefix |
| Breaking.CommaEndsComplete | server/formatter.py:153 | every comma of the prefix is reported |
| Breaking.OperatorEnds | server/formatter.py:157 | every reported position ends a `\s(&\|\|\|/\|:)\s` match of the prefix |
| Breaking.OperatorEndsApart | server/formatter.py:157 | the reported operator matches do not overlap: each ends at least three characters after the one before |
| Breaking.OperatorEndsComplete | server/formatter.py:157 | every operator match is reported or overlaps one that is reported |
| Breaking.SpaceEnds | server/formatter.py:167 | every reported position follows a whitespace character of the prefix |
| Breaking.SpaceEndsComplete | server/formatter.py:167 | every whitespace character of the prefix is reported |
| Breaking.LogicalCandidates | server/formatter.py:144-162 | bracket, comma and operator candidates lie in `1..len(text[:max_length])` |
| Breaking.SpaceCandidates | server/formatter.py:164-172 | whitespace candidates lie in `1..len(text[:max_length - 3])` |
| Breaking.MaxValid | server/formatter.py:195-201 | a chosen position is a candidate within the text whose prefix is a valid break |
| Breaking.MaxValidIsFurthest | server/formatter.py:195-201 | no valid candidate lies beyond the chosen one, and there is a choice whenever some candidate is valid |
| Breaking.LogicalCut | server/formatter.py:188-201 | a logical cut lies within `text[:max_line_length]` |
| Breaking.SpaceCut | server/formatter.py:203-216 | a whitespace cut lies within `text[:max_line_length - 3]` |
| Breaking.BestCut | server/formatter.py:120-133 | a cut is valid and at least 1; it leaves something when the text is longer than the limit, stays within the limit for a limit of at least 3, and exists exactly when one of the two searches finds one |
| Breaking.SegmentsConcat | server/formatter.py:118-142 | the chunks put back together are exactly the code that was cut |
| Breaking.PiecesOfSegments | server/formatter.py:118-142 | each physical line is its chunk, stripped, followed by ` ///`, except the last, which carries the comment |
| Breaking.SegmentsValid | server/formatter.py:197 | every chunk but the last passes `_is_valid_break_point` |
| Breaking.PrefixesBalanced | server/formatter.py:212 | everything before any inserted marker is balanced |
| Breaking.LastSegmentSettled | server/formatter.py:120-140 | the last chunk is never cut further: the loop stops cutting only when the rest fits in `max_line_length + 4` characters or has no valid cut |
| Breaking.PiecesWithinWidth | server/formatter.py:120-137 | every line but the last ends in ` ///` and is at most `max_line_length + 4` long |
| Breaking.CommentSuffix | server/formatter.py:105-113 | the suffix is `" //" + comment + rest` when there is a `//`, `" // " + comment` when only a carried comment exists, and empty exactly when there is neither |
| Breaking.BreakLineShape | server/formatter.py:103-142 | at least one line comes back; only the last carries the comment suffix and all others end in ` ///`; a long line's chunks concatenate to its code |
| Reordering.Step | server/formatter.py:22-39 | one pass keeps the two lists the same length; it keeps their length on a merge and adds one entry otherwise |
| Reordering.Reorder | server/formatter.py:16-41 | the two lists have the same length, at most the number of input lines, and are non-empty for non-empty input |
| Reordering.OnlyLastContinues | server/formatter.py:21-39 | no logical line but the last still holds an unresolved continuation |
| Reordering.NoMarkerNoMerge | server/formatter.py:16-41 | without any `///` the lines come back unchanged, each with an empty comment |
| Reordering.MergeCount | server/formatter.py:26-33 | a merge keeps every non-whitespace character of the two lines, apart from the three slashes of the marker |
| Reordering.StepKeepsText | server/formatter.py:21-39 | each pass keeps the balance between the input's characters and those of the lines, the comments and the consumed markers |
| Reordering.ReorderKeepsText | server/formatter.py:16-41 | merging loses no non-whitespace character of the input |
| Indenting.Pad | server/formatter.py:70 | `" " * d * size` is `d * size` spaces, and empty when either factor is not positive |
| Indenting.Step | server/formatter.py:64-84 | one pass appends exactly one line and keeps the lines before it |
| Indenting.Indent | server/formatter.py:59-86 | the output has as many lines as the input |
| Indenting.NextDepthCases | server/formatter.py:65-75 | the depth goes up exactly when the previous output line opens a block, down exactly when the current line closes one and the first branch did not fire, and stays otherwise |
| Indenting.ContinuedSpacesThen | server/formatter.py:77-82 | the depth padding and the continuation indent only put spaces in front of the line |
| Indenting.IndentOnlyPads | server/formatter.py:59-86 | every output line is its input line behind a run of spaces, and the first line is unchanged |
| Indenting.PlainTextUnchanged | server/formatter.py:59-86 | text without braces and without `///` is left exactly as it is |
| Indenting.HeadAtTopLevel | server/formatter.py:64-84 | after any earlier lines that leave the counter at zero and whose last output line neither opens a block nor holds `///`, a line that does not close a block is output unchanged and the counter stays at zero |
| Indenting.BodyIndented | server/formatter.py:65-72 | after any earlier lines that leave the counter at zero and whose last output line neither opens a block nor holds `///`, the plain lines after an opening line are each indented one level, and the opening line is unchanged |
| Indenting.BlockIndented | server/formatter.py:65-75 | after the same kind of earlier lines, a block with a non-empty body is indented one level, and its opening and closing lines are unchanged with the depth back at 0 |
| Indenting.EmptyBlockStaysOpen | server/formatter.py:65-70 | after the same kind of earlier lines, an opening line directly followed by a closing line leaves the closing line indented and the depth at 1 |
| Indenting.ContinuationIndented | server/formatter.py:77-82 | after the same kind of earlier lines, in a brace-free run of continued lines that are not star comments, the first line is unchanged and every later line gets exactly one extra `" " * indent_size`, which does not accumulate, and the block counter stays at zero |
| Formatter.Paired | server/formatter.py:47 | `zip` pairs as many entries as the shorter list holds |
| Formatter.ProcessLineShape | server/formatter.py:47-55 | every pair yields at least one line, and a blank line yields exactly its comment |
| Formatter.SortDescending | server/formatter.py:161 | `sort(reverse=True)` gives the same positions, furthest first |
| Formatter.FirstValid | server/formatter.py:195-199 | the first valid position in the sorted list is the furthest valid candidate |
| Formatter.NoneValid | server/formatter.py:201 | when no sorted position is valid, no candidate is |
| Formatter.MergeMatchesStep | server/formatter.py:26-33 | rewriting the last entries of both lists in place is the merging pass |
| Formatter.FirstValidCut | server/formatter.py:210-216 | the candidate loop returns the furthest valid cut, as its chunk with the marker and its rest, or `None` |
| Formatter.StataFormatter.constructor | server/formatter.py:4-6 | the formatter keeps the two settings it is given |
| Formatter.StataFormatter.FormatCode | server/formatter.py:8-14 | `format_code` splits, merges, processes, indents and joins |
| Formatter.StataFormatter.ReorderLines | server/formatter.py:16-41 | the two lists built by the loop are the merged lines and their comments |
| Formatter.StataFormatter.ReorderOne | server/formatter.py:22-39 | one pass of the merging loop is the merge step |
| Formatter.StataFormatter.ProcessLines | server/formatter.py:43-57 | the output is the lines of every pair in order, at least one per pair for a limit of at least 0 |
| Formatter.StataFormatter.ProcessOne | server/formatter.py:48-55 | one pass adds the lines of its pair |
| Formatter.StataFormatter.ApplyIndentation | server/formatter.py:59-86 | the loop produces the indented lines of the specification |
| Formatter.StataFormatter.IndentOne | server/formatter.py:65-84 | one pass of the indentation loop is the indentation step, counter included |
| Formatter.StataFormatter.BreakLongLine | server/formatter.py:103-142 | the loop emits exactly the physical lines of the specification |
| Formatter.StataFormatter.BreakOnce | server/formatter.py:120-137 | one pass emits the next physical line and leaves a strictly shorter rest |
| Formatter.StataFormatter.FindBreakPoints | server/formatter.py:144-162 | the logical candidates of `text[:max_length]`, furthest first, each within the prefix |
| Formatter.StataFormatter.FindBrackets | server/formatter.py:149-150 | the loop collects the bracket match ends in order |
| Formatter.StataFormatter.FindCommas | server/formatter.py:153-154 | the loop collects the comma match ends in order |
| Formatter.StataFormatter.FindLogicalOperators | server/formatter.py:157-158 | the loop collects the non-overlapping operator match ends in order |
| Formatter.StataFormatter.FindSpaceBreakPoints | server/formatter.py:164-172 | the whitespace candidates of `text[:max_length - 3]`, furthest first, each within the prefix |
| Formatter.StataFormatter.FindSpaces | server/formatter.py:167-168 | the loop collects the whitespace match ends in order |
| Formatter.StataFormatter.TryLogicalBreak | server/formatter.py:188-201 | the result is the cut at the furthest valid logical candidate, or `None` |
| Formatter.StataFormatter.TrySpaceBreak | server/formatter.py:203-216 | the result is the cut at the furthest valid whitespace candidate, or `None` |
| Formatter.FormatStataCode | server/formatter.py:218-223 | `format_stata_code` formats with the given settings |
| Diagnostics.CreateDiagnostic | server/server.py:127-140 | the finding lies on the given line, spans the given columns, and carries the message and severity |
| Diagnostics.InSkipTokens | server/server.py:143-150 | true exactly when some span starts at or before `start` and ends at or after `end` |
| Diagnostics.CoveredSnoc | server/server.py:147-149 | one more span covers exactly what it contains, besides what the others covered |
| Diagnostics.OverlapIsNotCovered | server/server.py:148 | a span that only overlaps the pair does not cover it: containment, not overlap |
| Diagnostics.NatToStringValue | server/server.py:278 | the digits written for the expected width stand for that width |
| Diagnostics.RefreshDiagnostics | server/server.py:153-296 | the loop over the lines produces the findings of the specification, starting from the initial state |
| Diagnostics.CheckLine | server/server.py:166-294 | one pass of the loop, `continue`s included, is the specification of one line |
| Diagnostics.CheckRules | server/server.py:215-281 | the spacing and indentation checks of a tracked line give its checked findings |
| Diagnostics.CollectSkipTokens | server/server.py:215-225 | the inline comment and the strings join the spans from comment tracking |
| Diagnostics.CheckIndentation | server/server.py:258-281 | the loop-end adjustment and the indentation rule |
| Diagnostics.CheckLength | server/server.py:168-184 | the line-length rule |
| Diagnostics.CollectStrings | server/server.py:221-225 | each string span joins the skip spans unless one already contains it |
| Diagnostics.CheckOperators | server/server.py:227-241 | groups 1 and 2 of every operator match are checked in order |
| Diagnostics.CheckGaps | server/server.py:243-256 | every comma gap is checked in order |
| Diagnostics.CheckGap | server/server.py:245-256 | one gap gets a finding at its end exactly when it is flagged |
| Diagnostics.ScanSane | server/server.py:161-294 | from the initial state, the loop depth never goes negative and `prevComm` stays 0 or 1 |
| Diagnostics.SkippedLine | server/server.py:188-213 | a line skipped by a `continue` gets only the length finding and leaves the loop depth and `prevComm` alone |
| Diagnostics.BlockCommentState | server/server.py:188-209 | outside a comment an opener enters one, even with a non-empty group; inside one only a closer leaves it |
| Diagnostics.BlockCommentSkips | server/server.py:188-209 | the line is skipped for an empty opener group, and inside a comment for no closer or an empty closer group; a non-empty group becomes the first skip span |
| Diagnostics.LoopLevelSteps | server/server.py:258-285 | the loop depth goes down on a checked loop end when positive, up on a checked loop start, and nothing else changes it |
| Diagnostics.PrevCommSteps | server/server.py:287-294 | after a checked line, `prevComm` is 1 exactly when the line had a long inline comment; a skipped line keeps it |
| Diagnostics.LengthFindingFirst | server/server.py:166-188 | the length rule runs before comment tracking, so every line's findings start with it |
| Diagnostics.LengthRule | server/server.py:168-184 | a zero-width finding at `MAX_LINE_LENGTH` exactly when the text before the first `//` is too long and no exemption applies |
| Diagnostics.SlashExemptionNeverApplies | server/server.py:172 | the text before the first `//` never starts with `// ` |
| Diagnostics.GapFindingsComplete | server/server.py:228-256 | every gap that no span contains and that is not one character wide is reported at its end |
| Diagnostics.GapFindingsSound | server/server.py:228-256 | every reported spacing finding belongs to such a gap |
| Diagnostics.GapFindingsIff | server/server.py:228-256 | a spacing finding is reported exactly for the flagged gaps |
| Diagnostics.OperatorGapsIndex | server/server.py:228-230 | the operator gaps are groups 1 and 2 of each match, in order |
| Diagnostics.WithStringsCovers | server/server.py:221-225 | the spans from comment tracking come first, and every string span ends up contained in the skip spans |
| Diagnostics.IndentRule | server/server.py:263-281 | an indentation finding exactly when the group exists and its width differs from the expected one, at its end, naming the expected width |
| Diagnostics.LoopIndentation | server/server.py:258-285 | after a loop start the next line is expected one step deeper, or at the same depth when it ends the loop |
| Diagnostics.CommentIndentation | server/server.py:264-294 | after a line with a long inline comment the next line is expected one step deeper |
| Diagnostics.LineFindingsOnLine | server/server.py:166-285 | every finding made while scanning a line lies on that line |

## Left out

- Language-server plumbing is not modelled: the workspace lookup, `publish_diagnostics`,
  `show_message`, the feature handlers, configuration refresh and `goto_definition`.
  Each is transport or session glue. The checker takes the document's lines as a list.
- `server/constants.py` is not part of this model. Each pattern is a function field of
  `Diagnostics.Matchers`, and the settings are fields of `Diagnostics.Settings`.
  Regular-expression semantics are left abstract. The exceptions are the patterns written
  out in the two core files, `^\*\s`, `^\s*\*\s` and those of the formatter, which are
  modelled exactly.
- Formatter.StataFormatter.FormatCode: requires `max_line_length >= -4`, and so do the
  other formatter members that break lines. Below that limit the loop condition of
  `_break_long_line` holds even for an empty rest, so the loop never ends on any line
  that reaches it.
- Breaking.PiecesWithinWidth: stated for `max_line_length >= 3` only. For smaller limits,
  `text[:max_line_length - 3]` counts from the end of the text, so a whitespace cut can
  lie beyond the limit.
- Breaking.BreakLineShape: stated for `max_line_length >= 0`. For a negative limit an
  empty code part yields no line at all.
- Formatter.ProcessLineShape: stated for `max_line_length >= 0`, for the same reason.
- Respace.FormatLine: idempotence (respacing a respaced line changes nothing) is not
  proved. The substitutions undo each other's spacing: a space that the operator rule
  puts before a comma is removed by the comma rule on the next pass and then put back by
  the operator rule. So no normal form is kept by every step, and such a proof needs a
  description of the whole pipeline that this model does not have.
- Formatter.SortDescending: Python's `list.sort` is modelled by an insertion sort with the
  same result: the same values, furthest first.
- Whitespace is the set of characters that Python's `str.isspace` accepts. Nothing else
  of Unicode is modelled.
- The packaging metadata and the older copy of the formatter under `build/` are not
  modelled.
