/** What `_break_long_line` computes: where a long logical line may be cut
    (`_find_break_points`, `_find_space_break_points`), which cuts are safe
    (`_is_valid_break_point`), which cut is taken (`_try_logical_break`, `_try_space_break`)
    and the physical lines that result. */
module Breaking {
  import opened PyStrings

  /** The continuation marker appended to every physical line but the last. */
  const Marker: string := " ///"

  /** `_is_valid_break_point`: no `{` left open, an even number of `"`, and no more
      back-ticks than single quotes. */
  predicate IsValidBreak(segment: string)
  {
    && Count(segment, '{') - Count(segment, '}') <= 0
    && Count(segment, '"') % 2 == 0
    && Count(segment, '`') <= Count(segment, '\'')
  }

  /** Two balanced pieces make a balanced whole. */
  lemma ValidConcat(a: string, b: string)
    requires IsValidBreak(a) && IsValidBreak(b)
    ensures IsValidBreak(a + b)
  {
    CountAppend(a, b, '{');
    CountAppend(a, b, '}');
    CountAppend(a, b, '"');
    CountAppend(a, b, '`');
    CountAppend(a, b, '\'');
  }

  /** `[)\]][,|\s]` matches at `i`. Its second character can never start a match, so the
      matches `re.finditer` reports are exactly the positions where it matches. */
  predicate BracketAt(h: string, i: nat)
  {
    i + 2 <= |h| && (h[i] == ')' || h[i] == ']') && (h[i + 1] == ',' || h[i + 1] == '|' || IsSpace(h[i + 1]))
  }

  /** `\s(&|\||/|:)\s` matches at `i`. */
  predicate LogicalOperatorAt(h: string, i: nat)
  {
    i + 3 <= |h| && IsSpace(h[i]) && (h[i + 1] == '&' || h[i + 1] == '|' || h[i + 1] == '/' || h[i + 1] == ':') && IsSpace(h[i + 2])
  }

  /** Ends of the bracket matches that start before `n`, in the order they are found. */
  function BracketEnds(h: string, n: nat): (r: seq<nat>)
    requires n <= |h|
    ensures forall p :: p in r ==> 2 <= p <= |h| && BracketAt(h, p - 2)
  {
    if n == 0 then []
    else BracketEnds(h, n - 1) + (if BracketAt(h, n - 1) then [n + 1] else [])
  }

  /** Ends of the `,` matches before `n`. */
  function CommaEnds(h: string, n: nat): (r: seq<nat>)
    requires n <= |h|
    ensures forall p :: p in r ==> 1 <= p <= n && h[p - 1] == ','
  {
    if n == 0 then []
    else CommaEnds(h, n - 1) + (if h[n - 1] == ',' then [n] else [])
  }

  /** Ends of the non-overlapping `\s(&|\||/|:)\s` matches found from `i` on: after a match
      the search resumes where it ended. */
  function OperatorEnds(h: string, i: nat): (r: seq<nat>)
    requires i <= |h|
    ensures forall p :: p in r ==> i + 3 <= p <= |h| && LogicalOperatorAt(h, p - 3)
    decreases |h| - i
  {
    if i == |h| then []
    else if LogicalOperatorAt(h, i) then [i + 3] + OperatorEnds(h, i + 3)
    else OperatorEnds(h, i + 1)
  }

  /** Every match ends at least three characters after any earlier one. */
  predicate Apart(r: seq<nat>)
  {
    forall j, k :: 0 <= j < k < |r| ==> r[j] + 3 <= r[k]
  }

  lemma ConsApart(x: nat, rest: seq<nat>)
    requires Apart(rest)
    requires forall p :: p in rest ==> x + 3 <= p
    ensures Apart([x] + rest)
  {
    var r := [x] + rest;
    forall j, k | 0 <= j < k < |r|
      ensures r[j] + 3 <= r[k]
    {
      assert r[k] == rest[k - 1];
      if j == 0 {
        assert rest[k - 1] in rest;
      } else {
        assert r[j] == rest[j - 1];
      }
    }
  }

  /** The operator matches do not overlap: each ends at least three characters after the
      previous one. */
  lemma {:induction false} OperatorEndsApart(h: string, i: nat)
    requires i <= |h|
    ensures Apart(OperatorEnds(h, i))
    decreases |h| - i
  {
    if i < |h| {
      if LogicalOperatorAt(h, i) {
        OperatorEndsApart(h, i + 3);
        ConsApart(i + 3, OperatorEnds(h, i + 3));
      } else {
        OperatorEndsApart(h, i + 1);
      }
    }
  }

  /** Ends of the `\s` matches before `n`. */
  function SpaceEnds(h: string, n: nat): (r: seq<nat>)
    requires n <= |h|
    ensures forall p :: p in r ==> 1 <= p <= n && IsSpace(h[p - 1])
  {
    if n == 0 then []
    else SpaceEnds(h, n - 1) + (if IsSpace(h[n - 1]) then [n] else [])
  }

  /** Every position where the bracket pattern matches is reported. */
  lemma {:induction false} BracketEndsComplete(h: string, n: nat, i: nat)
    requires n <= |h| && i < n && BracketAt(h, i)
    ensures i + 2 in BracketEnds(h, n)
  {
    if i < n - 1 {
      BracketEndsComplete(h, n - 1, i);
    }
  }

  /** Every comma is reported. */
  lemma {:induction false} CommaEndsComplete(h: string, n: nat, i: nat)
    requires n <= |h| && i < n && h[i] == ','
    ensures i + 1 in CommaEnds(h, n)
  {
    if i < n - 1 {
      CommaEndsComplete(h, n - 1, i);
    }
  }

  /** Every whitespace character is reported. */
  lemma {:induction false} SpaceEndsComplete(h: string, n: nat, i: nat)
    requires n <= |h| && i < n && IsSpace(h[i])
    ensures i + 1 in SpaceEnds(h, n)
  {
    if i < n - 1 {
      SpaceEndsComplete(h, n - 1, i);
    }
  }

  /** A logical-operator match is missed only when it overlaps the one reported before it:
      some reported match ends inside it or at its end. */
  lemma {:induction false} OperatorEndsComplete(h: string, i: nat, k: nat)
    requires i <= k <= |h| && LogicalOperatorAt(h, k)
    ensures exists p :: p in OperatorEnds(h, i) && k < p <= k + 3
    decreases |h| - i
  {
    if LogicalOperatorAt(h, i) {
      var rest := OperatorEnds(h, i + 3);
      assert OperatorEnds(h, i) == [i + 3] + rest;
      if i + 3 <= k {
        OperatorEndsComplete(h, i + 3, k);
        var p :| p in rest && k < p <= k + 3;
        assert p in OperatorEnds(h, i);
      } else {
        assert i + 3 in OperatorEnds(h, i);
      }
    } else {
      assert OperatorEnds(h, i) == OperatorEnds(h, i + 1);
      OperatorEndsComplete(h, i + 1, k);
    }
  }

  /** The candidates `_find_break_points` collects in the prefix `h`, before sorting:
      after a closing bracket, after a comma, after a spaced logical operator. */
  function LogicalCandidates(h: string): (r: seq<nat>)
    ensures forall p :: p in r ==> 1 <= p <= |h|
  {
    BracketEnds(h, |h|) + CommaEnds(h, |h|) + OperatorEnds(h, 0)
  }

  /** The candidates `_find_space_break_points` collects in `h`: after each whitespace. */
  function SpaceCandidates(h: string): (r: seq<nat>)
    ensures forall p :: p in r ==> 1 <= p <= |h|
  {
    SpaceEnds(h, |h|)
  }

  /** The furthest candidate whose prefix of `t` is a valid break, if any. */
  function MaxValid(t: string, c: seq<nat>): (r: Option<nat>)
    ensures r.Some? ==> r.value in c && r.value <= |t| && IsValidBreak(t[..r.value])
  {
    if c == [] then None
    else
      var rest := MaxValid(t, c[1..]);
      if c[0] <= |t| && IsValidBreak(t[..c[0]]) && (rest.None? || rest.value < c[0]) then Some(c[0])
      else rest
  }

  /** No candidate beyond the one chosen is valid, and none at all is when there is no
      choice. */
  lemma {:induction false} MaxValidIsFurthest(t: string, c: seq<nat>)
    ensures var r := MaxValid(t, c);
      forall q :: q in c && q <= |t| && IsValidBreak(t[..q]) ==> r.Some? && q <= r.value
  {
    if c != [] {
      MaxValidIsFurthest(t, c[1..]);
      assert forall q :: q in c ==> q == c[0] || q in c[1..];
    }
  }

  /** `_try_logical_break`'s position: the furthest valid candidate within `t[:w]`. */
  function LogicalCut(t: string, w: int): (r: Option<nat>)
    ensures r.Some? ==> 1 <= r.value <= |Head(t, w)|
  {
    MaxValid(t, LogicalCandidates(Head(t, w)))
  }

  /** `_try_space_break`'s position: the furthest valid whitespace within `t[:w - 3]`. */
  function SpaceCut(t: string, w: int): (r: Option<nat>)
    ensures r.Some? ==> 1 <= r.value <= |Head(t, w - 3)|
  {
    MaxValid(t, SpaceCandidates(Head(t, w - 3)))
  }

  /** The cut one pass of the loop in `_break_long_line` takes: a logical one if any is
      valid, otherwise a whitespace one. It always leaves something on both sides once the
      text is longer than the width. */
  function BestCut(t: string, w: int): (r: Option<nat>)
    ensures r.Some? ==> 1 <= r.value <= |t| && IsValidBreak(t[..r.value])
    ensures r.Some? && w < |t| ==> r.value < |t|
    ensures r.Some? && w >= 3 ==> r.value <= w
    ensures r.None? <==> LogicalCut(t, w).None? && SpaceCut(t, w).None?
  {
    var logical := LogicalCut(t, w);
    if logical.Some? then
      assert |Head(t, w)| <= |t|;
      logical
    else
      var space := SpaceCut(t, w);
      assert |Head(t, w - 3)| <= |t|;
      assert w - 3 < |t| ==> t == [] || |Head(t, w - 3)| < |t|;
      space
  }

  /** The code of a long line cut into the chunks that become physical lines: the loop of
      `_break_long_line` with `remaining` as the argument. */
  function Segments(text: string, w: int): (r: seq<string>)
    requires w >= -4
    decreases |text|
  {
    if |text| > w + 4 then
      match BestCut(text, w)
      case Some(p) => [text[..p]] + Segments(text[p..], w)
      case None => [text]
    else if text == [] then []
    else [text]
  }

  /** The physical lines `_break_long_line` emits for a long line: each cut-off chunk,
      stripped, with the continuation marker; the rest, stripped, with the comment. */
  function Pieces(text: string, suffix: string, w: int): seq<string>
    requires w >= -4
    decreases |text|
  {
    if |text| > w + 4 then
      match BestCut(text, w)
      case Some(p) => [Strip(text[..p]) + Marker] + Pieces(text[p..], suffix, w)
      case None => [Strip(text) + suffix]
    else if text == [] then []
    else [Strip(text) + suffix]
  }

  function Concat(ss: seq<string>): string
  {
    if ss == [] then [] else ss[0] + Concat(ss[1..])
  }

  /** One pass of the loop: a cut at `p` emits the chunk before it and goes on with the rest. */
  lemma SegmentsCut(text: string, w: int, p: nat)
    requires w >= -4 && |text| > w + 4 && BestCut(text, w) == Some(p)
    ensures 1 <= p < |text|
    ensures Segments(text, w) == [text[..p]] + Segments(text[p..], w)
  {
  }

  lemma PiecesCut(text: string, suffix: string, w: int, p: nat)
    requires w >= -4 && |text| > w + 4 && BestCut(text, w) == Some(p)
    ensures 1 <= p < |text|
    ensures Pieces(text, suffix, w) == [Strip(text[..p]) + Marker] + Pieces(text[p..], suffix, w)
  {
  }

  /** The cut is the logical one when there is one and the whitespace one otherwise. */
  lemma BestCutCases(t: string, w: int)
    ensures BestCut(t, w) == if LogicalCut(t, w).Some? then LogicalCut(t, w) else SpaceCut(t, w)
  {
  }

  /** A long rest without a valid cut is emitted whole. */
  lemma PiecesNoCut(text: string, suffix: string, w: int)
    requires w >= -4 && |text| > w + 4 && BestCut(text, w).None?
    ensures Pieces(text, suffix, w) == [Strip(text) + suffix]
  {
  }

  /** A short rest is emitted whole, and nothing is emitted for an empty one. */
  lemma PiecesShort(text: string, suffix: string, w: int)
    requires w >= -4 && |text| <= w + 4
    ensures Pieces(text, suffix, w) == if text == [] then [] else [Strip(text) + suffix]
  {
  }

  /** Without a cut to make, the rest of the code is the last chunk. */
  lemma SegmentsStop(text: string, w: int)
    requires w >= -4 && text != [] && !(|text| > w + 4 && BestCut(text, w).Some?)
    ensures Segments(text, w) == [text]
  {
    if |text| > w + 4 {
      match BestCut(text, w)
      case None =>
    }
  }

  lemma ConcatCons(a: string, rest: seq<string>)
    ensures Concat([a] + rest) == a + Concat(rest)
  {
    assert ([a] + rest)[1..] == rest;
  }

  lemma ConcatAfterCut(text: string, p: nat, rest: seq<string>)
    requires p <= |text| && Concat(rest) == text[p..]
    ensures Concat([text[..p]] + rest) == text
  {
    ConcatCons(text[..p], rest);
    assert text == text[..p] + text[p..];
  }

  /** The chunks put back together are the code that was cut. */
  lemma {:induction false} SegmentsConcat(text: string, w: int)
    requires w >= -4
    ensures Concat(Segments(text, w)) == text
    decreases |text|
  {
    var cut := BestCut(text, w);
    if |text| > w + 4 && cut.Some? {
      var p := cut.value;
      SegmentsCut(text, w, p);
      SegmentsConcat(text[p..], w);
      ConcatAfterCut(text, p, Segments(text[p..], w));
    } else if text != [] {
      SegmentsStop(text, w);
      ConcatCons(text, []);
    }
  }

  /** The physical lines match the chunks: each chunk, stripped, followed by the marker, or
      by the comment for the last one. */
  predicate PiecesMatch(pieces: seq<string>, segments: seq<string>, suffix: string)
  {
    |pieces| == |segments|
    && forall i :: 0 <= i < |segments| ==>
      pieces[i] == Strip(segments[i]) + (if i < |segments| - 1 then Marker else suffix)
  }

  /** A cut-off chunk in front of matching lines keeps them matching. */
  lemma PiecesMatchCons(chunk: string, pieces: seq<string>, segments: seq<string>, suffix: string)
    requires PiecesMatch(pieces, segments, suffix) && segments != []
    ensures PiecesMatch([Strip(chunk) + Marker] + pieces, [chunk] + segments, suffix)
  {
    var ps, ss := [Strip(chunk) + Marker] + pieces, [chunk] + segments;
    forall i | 0 <= i < |ss|
      ensures ps[i] == Strip(ss[i]) + (if i < |ss| - 1 then Marker else suffix)
    {
      if i > 0 {
        assert ps[i] == pieces[i - 1] && ss[i] == segments[i - 1];
      }
    }
  }

  /** Each physical line is its chunk, stripped, followed by the marker, or by the comment
      for the last one. */
  lemma {:induction false} PiecesOfSegments(text: string, suffix: string, w: int)
    requires w >= -4
    ensures text != [] ==> |Segments(text, w)| >= 1
    ensures PiecesMatch(Pieces(text, suffix, w), Segments(text, w), suffix)
    decreases |text|
  {
    var cut := BestCut(text, w);
    if |text| > w + 4 && cut.Some? {
      var p := cut.value;
      SegmentsCut(text, w, p);
      PiecesCut(text, suffix, w, p);
      PiecesOfSegments(text[p..], suffix, w);
      PiecesMatchCons(text[..p], Pieces(text[p..], suffix, w), Segments(text[p..], w), suffix);
    }
  }

  /** Every chunk but the last is a valid break. */
  lemma {:induction false} SegmentsValid(text: string, w: int)
    requires w >= -4
    ensures forall i :: 0 <= i < |Segments(text, w)| - 1 ==> IsValidBreak(Segments(text, w)[i])
    decreases |text|
  {
    var cut := BestCut(text, w);
    if |text| > w + 4 && cut.Some? {
      var p := cut.value;
      SegmentsValid(text[p..], w);
      assert Segments(text, w) == [text[..p]] + Segments(text[p..], w);
    }
  }

  /** Everything before a continuation marker is balanced: the chunks before it, put back
      together, form a valid break of the whole code. */
  lemma {:induction false} PrefixesBalanced(s: seq<string>)
    requires forall i :: 0 <= i < |s| - 1 ==> IsValidBreak(s[i])
    ensures forall k :: 0 <= k < |s| ==> IsValidBreak(Concat(s[..k]))
  {
    assert Concat(s[..0]) == [];
    if |s| > 1 {
      PrefixesBalanced(s[1..]);
      forall k | 1 <= k < |s|
        ensures IsValidBreak(Concat(s[..k]))
      {
        assert s[..k][1..] == s[1..][..k - 1];
        assert Concat(s[..k]) == s[0] + Concat(s[1..][..k - 1]);
        ValidConcat(s[0], Concat(s[1..][..k - 1]));
      }
    }
  }

  /** The loop of `_break_long_line` leaves `t` alone: it fits in `w + 4` characters or has
      no valid cut. */
  predicate Settled(t: string, w: int)
    requires w >= -4
  {
    |t| <= w + 4 || BestCut(t, w).None?
  }

  /** The last of a non-empty list of chunks is settled. */
  predicate LastSettled(segments: seq<string>, w: int)
    requires w >= -4
  {
    segments != [] && Settled(segments[|segments| - 1], w)
  }

  /** A chunk cut off in front keeps the last chunk where it was. */
  lemma LastSettledCons(chunk: string, segments: seq<string>, w: int)
    requires w >= -4 && LastSettled(segments, w)
    ensures LastSettled([chunk] + segments, w)
  {
    var all := [chunk] + segments;
    assert all[|all| - 1] == segments[|segments| - 1];
  }

  /** The loop stops cutting only when what is left fits in `w + 4` characters or has no
      valid cut at all: the last chunk is never cut further. */
  lemma {:induction false} LastSegmentSettled(text: string, w: int)
    requires w >= -4 && text != []
    ensures LastSettled(Segments(text, w), w)
    decreases |text|
  {
    var cut := BestCut(text, w);
    if |text| > w + 4 && cut.Some? {
      var p := cut.value;
      SegmentsCut(text, w, p);
      LastSegmentSettled(text[p..], w);
      LastSettledCons(text[..p], Segments(text[p..], w), w);
    } else {
      SegmentsStop(text, w);
      assert [text][0] == text;
    }
  }

  /** With a width of at least 3, every physical line that ends in the marker is at most
      `w + 4` characters long: the chunk before it is at most `w` (a logical cut) or `w - 3`
      (a whitespace cut). */
  lemma {:induction false} PiecesWithinWidth(text: string, suffix: string, w: int)
    requires w >= 3
    ensures forall i :: 0 <= i < |Pieces(text, suffix, w)| - 1 ==>
      EndsWith(Pieces(text, suffix, w)[i], Marker) && |Pieces(text, suffix, w)[i]| <= w + 4
    decreases |text|
  {
    var cut := BestCut(text, w);
    if |text| > w + 4 && cut.Some? {
      var p := cut.value;
      var first := Strip(text[..p]) + Marker;
      PiecesCut(text, suffix, w, p);
      PiecesWithinWidth(text[p..], suffix, w);
      assert EndsWith(first, Marker);
    }
  }

  /** The comment part of `_break_long_line`: an existing `//` comment, the comment
      carried from merged continuation lines, or nothing. */
  function CommentSuffix(line: string, comment: string): (r: string)
    ensures r == [] <==> !Contains(line, "//") && comment == []
    ensures Contains(line, "//") ==> r == " //" + comment + After(line, "//")
    ensures !Contains(line, "//") && comment != [] ==> r == " // " + comment
  {
    if Contains(line, "//") then " //" + comment + After(line, "//")
    else if comment != [] then " // " + comment
    else []
  }

  /** `_break_long_line` on a whole line: a short line or a star comment comes back as one
      line with its comment; a long one is cut into pieces. */
  function BreakLine(line: string, comment: string, w: int): seq<string>
    requires w >= -4
  {
    var code := Before(line, "//");
    var suffix := CommentSuffix(line, comment);
    if |code| <= w || IsStarComment(code) then [code + suffix]
    else Pieces(code, suffix, w)
  }

  /** For a width of at least 0 every line yields at least one physical line, only the last
      one carries the comment, all the others end in the marker, and the code of the long
      line is exactly the concatenation of the chunks the pieces were stripped from. */
  lemma BreakLineShape(line: string, comment: string, w: int)
    requires w >= 0
    ensures var r := BreakLine(line, comment, w);
      && |r| >= 1
      && EndsWith(r[|r| - 1], CommentSuffix(line, comment))
      && (forall i :: 0 <= i < |r| - 1 ==> EndsWith(r[i], Marker))
    ensures var code := Before(line, "//");
      !(|code| <= w || IsStarComment(code)) ==>
        && Concat(Segments(code, w)) == code
        && |Segments(code, w)| == |BreakLine(line, comment, w)|
  {
    var code := Before(line, "//");
    var suffix := CommentSuffix(line, comment);
    if !(|code| <= w || IsStarComment(code)) {
      PiecesOfSegments(code, suffix, w);
      SegmentsConcat(code, w);
      var r := Pieces(code, suffix, w);
      forall i | 0 <= i < |r|
        ensures EndsWith(r[i], if i < |r| - 1 then Marker else suffix)
      {
        var tail := if i < |r| - 1 then Marker else suffix;
        assert r[i] == Strip(Segments(code, w)[i]) + tail;
      }
    }
  }
}
