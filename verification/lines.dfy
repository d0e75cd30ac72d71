/** Splitting a text into lines the way Python's `str.splitlines()` does. */
module Lines {
  import opened Text

  /** The first line break at or after `i`. */
  function NextBreak(s: string, i: nat): (e: nat)
    requires i <= |s|
    ensures i <= e <= |s| && (e < |s| ==> IsBreak(s[e]))
    ensures forall k | i <= k < e :: !IsBreak(s[k])
    decreases |s| - i
  {
    if i == |s| || IsBreak(s[i]) then i else NextBreak(s, i + 1)
  }

  /** Where the line after the break at `e` starts: a carriage return takes its newline along. */
  function AfterBreak(s: string, e: nat): (next: nat)
    requires e < |s|
    ensures e < next <= |s|
  {
    if s[e] == '\r' && e + 1 < |s| && s[e + 1] == '\n' then e + 2 else e + 1
  }

  /** `s.splitlines()` from position `i` on. */
  function SplitLines(s: string, i: nat): seq<string>
    requires i <= |s|
    decreases |s| - i
  {
    if i == |s| then []
    else
      var e := NextBreak(s, i);
      [s[i..e]] + if e == |s| then [] else SplitLines(s, AfterBreak(s, e))
  }

  /** Where the first line ends, its line break included. */
  function LineEnd(s: string): (end: nat)
    requires s != ""
    ensures 0 < end <= |s|
  {
    var e := NextBreak(s, 0);
    if e == |s| then e else AfterBreak(s, e)
  }

  /** The first of `s.splitlines(keepends=True)`. */
  function FirstLine(s: string): (line: string)
    requires s != ""
    ensures line != "" && |line| <= |s| && s[..|line|] == line
  {
    s[..LineEnd(s)]
  }

  function OtherLines(s: string): string
    requires s != ""
  {
    s[|FirstLine(s)|..]
  }

  /** `s.splitlines(keepends=True)`. */
  function SplitKeepingEnds(s: string): seq<string> {
    if s == "" then [] else [FirstLine(s)] + SplitKeepingEnds(OtherLines(s))
  }

  /** `"".join(lines)`. */
  function Concat(lines: seq<string>): string {
    if lines == [] then "" else lines[0] + Concat(lines[1..])
  }

  /** Nothing breaks before the end, where a carriage return takes its newline along. */
  predicate IsLine(line: string) {
    && line != ""
    && forall k | 0 <= k < |line| - 1 && IsBreak(line[k]) ::
      k == |line| - 2 && line[k] == '\r' && line[k + 1] == '\n'
  }

  /** The next line follows a break, and not one that it should have been part of. */
  predicate Follows(line: string, next: string) {
    && line != "" && IsBreak(line[|line| - 1])
    && (line[|line| - 1] == '\r' ==> next == "" || next[0] != '\n')
  }

  /** The lines make up the text, and each is one. */
  ghost predicate AreLinesOf(lines: seq<string>, s: string) {
    && Concat(lines) == s
    && (forall k | 0 <= k < |lines| :: IsLine(lines[k]))
    && (forall k | 0 <= k < |lines| - 1 :: Follows(lines[k], lines[k + 1]))
  }

  lemma AreLinesFrom(first: string, rest: seq<string>, s: string)
    requires first != ""
    ensures AreLinesOf([first] + rest, s) <==>
      && |first| <= |s| && s[..|first|] == first && IsLine(first) && AreLinesOf(rest, s[|first|..])
      && (rest != [] ==> Follows(first, rest[0]))
  {
    hide IsLine; hide Follows;
    var lines := [first] + rest;
    assert lines[0] == first && lines[1..] == rest;
    assert forall k | 0 <= k < |rest| :: lines[k + 1] == rest[k];
    if |first| <= |s| && s[..|first|] == first { assert s == first + s[|first|..]; }
    if AreLinesOf(lines, s) {
      assert s == first + Concat(rest);
      forall k | 0 <= k < |rest| ensures IsLine(rest[k]) { assert IsLine(lines[k + 1]); }
      forall k | 0 <= k < |rest| - 1 ensures Follows(rest[k], rest[k + 1]) {
        assert Follows(lines[k + 1], lines[k + 2]);
      }
    }
    if |first| <= |s| && s[..|first|] == first && IsLine(first) && AreLinesOf(rest, s[|first|..])
      && (rest != [] ==> Follows(first, rest[0]))
    {
      forall k | 0 <= k < |lines| ensures IsLine(lines[k]) {
        if k > 0 { assert IsLine(rest[k - 1]); }
      }
      forall k | 0 <= k < |lines| - 1 ensures Follows(lines[k], lines[k + 1]) {
        if k > 0 { assert Follows(rest[k - 1], rest[k]); }
      }
    }
  }

  /** Only the first line is a line that the rest of the text can follow. */
  lemma FirstLineIff(s: string, first: string)
    requires s != "" && first != "" && |first| <= |s| && s[..|first|] == first
    ensures first == FirstLine(s) <==>
      IsLine(first) && (|first| < |s| ==> Follows(first, s[|first|..]))
  {
    var e := NextBreak(s, 0);
    assert forall k | 0 <= k < |first| :: first[k] == s[k];
    if e < |s| { assert IsBreak(s[e]); }
  }

  /** Whether a line can be followed by a text depends on the first character of the text. */
  lemma FollowsAlike(line: string, rest: seq<string>, s: string)
    requires rest == SplitKeepingEnds(s) && s != ""
    ensures rest != [] && rest[0] != "" && (Follows(line, rest[0]) <==> Follows(line, s))
  {
    var first := FirstLine(s);
    assert first[0] == s[..|first|][0] == s[0];
  }

  /** A text falls into lines in one way only, and that is how it is split. */
  lemma {:induction false} SplitKeepingEndsIff(s: string, lines: seq<string>)
    ensures lines == SplitKeepingEnds(s) <==> AreLinesOf(lines, s)
    decreases |s|
  {
    if lines == [] {
      assert Concat(lines) == "";
    } else if lines[0] == "" {
      assert !IsLine(lines[0]);
      assert s != "" ==> FirstLine(s) != "";
    } else {
      var first, rest := lines[0], lines[1..];
      assert lines == [first] + rest;
      AreLinesFrom(first, rest, s);
      hide AreLinesOf; hide IsLine; hide FirstLine; hide Follows;
      if |first| <= |s| && s[..|first|] == first {
        FirstLineIff(s, first);
        SplitKeepingEndsIff(s[|first|..], rest);
        if rest == SplitKeepingEnds(s[|first|..]) && |first| < |s| {
          FollowsAlike(first, rest, s[|first|..]);
        }
      }
    }
  }

  predicate NoBreaks(s: string) {
    forall k | 0 <= k < |s| :: !IsBreak(s[k])
  }

  lemma BreakAt(s: string, e: nat)
    requires e <= |s| && (e < |s| ==> IsBreak(s[e])) && forall k | 0 <= k < e :: !IsBreak(s[k])
    ensures NextBreak(s, 0) == e
  {
  }

  function Unbroken(line: string): string { line[..NextBreak(line, 0)] }

  lemma FirstLineAt(s: string, i: nat)
    requires i < |s|
    ensures var tail, e := s[i..], NextBreak(s, i);
      && NextBreak(tail, 0) == e - i
      && LineEnd(tail) == (if e < |s| then AfterBreak(s, e) else |s|) - i
  {
    var tail, e := s[i..], NextBreak(s, i);
    assert forall k | 0 <= k < |tail| :: tail[k] == s[i + k];
    hide IsBreak;
    BreakAt(tail, e - i);
  }

  lemma FirstLineUnbroken(s: string)
    requires s != ""
    ensures Unbroken(FirstLine(s)) == s[..NextBreak(s, 0)]
  {
    var first, e := FirstLine(s), NextBreak(s, 0);
    assert forall k | 0 <= k < |first| :: first[k] == s[k];
    hide IsBreak;
    BreakAt(first, e);
    hide NextBreak;
    assert first[..e] == s[..e];
  }

  lemma SliceOfTail(s: string, i: nat, n: nat)
    requires i + n <= |s|
    ensures s[i..][..n] == s[i..i + n] && s[i..][n..] == s[i + n..]
  {
  }

  lemma KeepingStep(s: string, i: nat, next: nat)
    requires i < next <= |s| && next == i + LineEnd(s[i..])
    ensures SplitKeepingEnds(s[i..]) == [FirstLine(s[i..])] + SplitKeepingEnds(s[next..])
  {
    OtherLinesAt(s, i, next);
    hide FirstLine; hide OtherLines;
  }

  lemma OtherLinesAt(s: string, i: nat, next: nat)
    requires i < next <= |s| && next == i + LineEnd(s[i..])
    ensures OtherLines(s[i..]) == s[next..]
  {
    hide LineEnd;
    SliceOfTail(s, i, next - i);
  }

  lemma PlainStep(s: string, i: nat, e: nat, next: nat)
    requires i < next <= |s| && e == NextBreak(s, i) && next == if e < |s| then AfterBreak(s, e) else |s|
    ensures SplitLines(s, i) == [s[i..e]] + SplitLines(s, next)
  {
    hide NextBreak; hide AfterBreak; hide IsBreak;
  }

  lemma FirstUnbroken(s: string, i: nat, e: nat)
    requires i < |s| && e == NextBreak(s, i)
    ensures Unbroken(FirstLine(s[i..])) == s[i..e]
  {
    FirstLineAt(s, i);
    FirstLineUnbroken(s[i..]);
    SliceOfTail(s, i, e - i);
    hide NextBreak; hide LineEnd; hide AfterBreak; hide IsBreak; hide Unbroken; hide FirstLine;
  }

  lemma SplitStep(s: string, i: nat) returns (next: nat)
    requires i < |s|
    ensures i < next <= |s|
    ensures SplitKeepingEnds(s[i..]) == [FirstLine(s[i..])] + SplitKeepingEnds(s[next..])
    ensures SplitLines(s, i) == [Unbroken(FirstLine(s[i..]))] + SplitLines(s, next)
  {
    var e := NextBreak(s, i);
    next := i + LineEnd(s[i..]);
    FirstLineAt(s, i);
    hide NextBreak; hide LineEnd; hide AfterBreak; hide IsBreak; hide Unbroken; hide FirstLine; hide SplitLines;
    hide SplitKeepingEnds;
    KeepingStep(s, i, next);
    PlainStep(s, i, e, next);
    FirstUnbroken(s, i, e);
  }

  /** Without their breaks the lines are the same, from any place on. */
  lemma {:induction false} SplitLinesDropsEnds(s: string, i: nat)
    requires i <= |s|
    ensures var kept, lines := SplitKeepingEnds(s[i..]), SplitLines(s, i);
      |lines| == |kept| && forall k | 0 <= k < |lines| :: lines[k] == Unbroken(kept[k])
    decreases |s| - i
  {
    if i < |s| {
      var next := SplitStep(s, i);
      hide SplitLines; hide SplitKeepingEnds; hide FirstLine; hide Unbroken;
      SplitLinesDropsEnds(s, next);
    }
  }

  /** A text that falls into these lines is split into them, less their breaks. */
  lemma SplitsAs(s: string, kept: seq<string>, lines: seq<string>)
    requires AreLinesOf(kept, s) && |kept| == |lines| && forall k | 0 <= k < |kept| :: Unbroken(kept[k]) == lines[k]
    ensures SplitLines(s, 0) == lines
  {
    hide AreLinesOf; hide Unbroken; hide SplitLines; hide SplitKeepingEnds;
    SplitKeepingEndsIff(s, kept);
    SplitLinesDropsEnds(s, 0);
    assert s[0..] == s;
  }

  lemma GluedBreak(front: string, s: string)
    requires NoBreaks(front)
    ensures NextBreak(front + s, 0) == |front| + NextBreak(s, 0)
  {
    var e, glued := NextBreak(s, 0), front + s;
    hide NextBreak; hide IsBreak;
    forall k | 0 <= k < |front| + e ensures !IsBreak(glued[k]) {
      assert glued[k] == if k < |front| then front[k] else s[k - |front|];
    }
    BreakAt(glued, |front| + e);
  }

  lemma GluedAfterBreak(front: string, s: string, e: nat)
    requires e < |s|
    ensures AfterBreak(front + s, |front| + e) == |front| + AfterBreak(s, e)
  {
    assert forall k | 0 <= k < |s| :: (front + s)[|front| + k] == s[k];
  }

  lemma GluedLineEnd(front: string, s: string)
    requires NoBreaks(front) && s != ""
    ensures LineEnd(front + s) == |front| + LineEnd(s)
  {
    hide NextBreak; hide NoBreaks; hide IsBreak; hide AfterBreak;
    GluedBreak(front, s);
    var e := NextBreak(s, 0);
    if e < |s| {
      GluedAfterBreak(front, s, e);
    }
  }

  /** Text without breaks in front joins the first line. */
  lemma GluedFirstLine(front: string, s: string)
    requires NoBreaks(front) && s != ""
    ensures FirstLine(front + s) == front + FirstLine(s) && OtherLines(front + s) == OtherLines(s)
  {
    hide LineEnd; hide NoBreaks;
    GluedLineEnd(front, s);
    var end := LineEnd(s);
    assert (front + s)[..|front| + end] == front + s[..end] && (front + s)[|front| + end..] == s[end..];
  }

  /** A line stays the first one when what follows is replaced, unless that opens with a newline. */
  lemma SameFirstLine(line: string, rest: string, other: string)
    requires line != "" && FirstLine(line + rest) == line && (rest == "" <==> other == "")
    requires other != "" && other[0] == '\n' ==> rest[0] == '\n'
    ensures FirstLine(line + other) == line && OtherLines(line + other) == other
  {
    var s, t := line + rest, line + other;
    var e := NextBreak(s, 0);
    assert forall k | 0 <= k < |line| :: s[k] == line[k] && t[k] == line[k];
    if e < |s| {
      assert e < |line|;
      BreakAt(t, e);
      if e + 1 == |line| && rest != "" {
        assert s[|line|] == rest[0] && t[|line|] == other[0];
      }
      assert AfterBreak(t, e) == |line|;
    } else {
      assert s == line + "" == line && rest == "";
      assert t == line;
    }
  }

  lemma FirstLineOfLine(s: string)
    requires s != ""
    ensures FirstLine(FirstLine(s)) == FirstLine(s)
  {
    var line, e := FirstLine(s), NextBreak(s, 0);
    assert forall k | 0 <= k < |line| :: s[k] == line[k];
    if e < |s| {
      BreakAt(line, e);
    }
  }

  function NonEmpty(texts: seq<string>): (kept: seq<string>)
    ensures forall t :: t in kept <==> t in texts && t != ""
    ensures |kept| <= |texts|
  {
    if texts == [] then []
    else NonEmpty(texts[..|texts| - 1]) + if texts[|texts| - 1] == "" then [] else [texts[|texts| - 1]]
  }

  lemma {:induction false} NonEmptyConcat(texts: seq<string>, more: seq<string>)
    ensures NonEmpty(texts + more) == NonEmpty(texts) + NonEmpty(more)
  {
    if more == [] {
      assert texts + more == texts;
    } else {
      var n := |more| - 1;
      assert (texts + more)[..|texts + more| - 1] == texts + more[..n];
      NonEmptyConcat(texts, more[..n]);
    }
  }

  lemma {:induction false} NonEmptyOfBlanks(texts: seq<string>)
    requires forall k | 0 <= k < |texts| :: texts[k] == ""
    ensures NonEmpty(texts) == []
  {
    if texts != [] {
      NonEmptyOfBlanks(texts[..|texts| - 1]);
    }
  }
}
