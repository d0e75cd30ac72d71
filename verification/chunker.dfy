/**
 Cutting a document into overlapping excerpts for search, and why no short word is ever cut.
 */
module Chunker {
  import opened Text
  import opened Lines

  const CHUNK_CHARS := 800
  const CHUNK_OVERLAP := 80

  // ----- Headings -----

  predicate IsHeading(line: string) { StartsWith(line, "## ") }

  /** The lines under each heading, and those before the first one. */
  function Groups(lines: seq<string>): (groups: seq<seq<string>>)
    ensures lines != [] <==> groups != []
  {
    if lines == [] then []
    else
      var n := |lines| - 1;
      var earlier := Groups(lines[..n]);
      if earlier == [] || IsHeading(lines[n]) then earlier + [[lines[n]]]
      else earlier[..|earlier| - 1] + [earlier[|earlier| - 1] + [lines[n]]]
  }

  function Flatten(groups: seq<seq<string>>): seq<string> {
    if groups == [] then [] else Flatten(groups[..|groups| - 1]) + groups[|groups| - 1]
  }

  lemma FlattenLast(groups: seq<seq<string>>, g: seq<string>)
    ensures Flatten(groups + [g]) == Flatten(groups) + g
  {
    assert (groups + [g])[..|groups|] == groups;
  }

  /** Every line is in the groups, in order. */
  lemma {:induction false} GroupsKeepLines(lines: seq<string>)
    ensures Flatten(Groups(lines)) == lines
  {
    hide IsHeading; hide Flatten;
    if lines != [] {
      var n := |lines| - 1;
      var earlier, line := Groups(lines[..n]), lines[n];
      GroupsKeepLines(lines[..n]);
      assert lines == lines[..n] + [line];
      if earlier == [] || IsHeading(line) {
        FlattenLast(earlier, [line]);
      } else {
        var m := |earlier| - 1;
        assert earlier == earlier[..m] + [earlier[m]];
        FlattenLonger(earlier[..m], earlier[m], line);
      }
    } else {
      assert Flatten([]) == [] by { FlattenNothing(); }
    }
  }

  lemma FlattenNothing()
    ensures Flatten([]) == []
  {
  }

  lemma FlattenLonger(front: seq<seq<string>>, last: seq<string>, line: string)
    ensures Flatten(front + [last + [line]]) == Flatten(front + [last]) + [line]
  {
    hide Flatten;
    FlattenLast(front, last);
    FlattenLast(front, last + [line]);
  }

  /** A group opens with a heading, except perhaps the first, and holds no other heading. */
  ghost predicate OpensWithHeading(g: seq<string>, first: bool) {
    g != [] && (first || StartsWith(g[0], "## ")) && forall i | 1 <= i < |g| :: !StartsWith(g[i], "## ")
  }

  lemma {:induction false} GroupsOpenWithHeadings(lines: seq<string>)
    ensures forall k | 0 <= k < |Groups(lines)| :: OpensWithHeading(Groups(lines)[k], k == 0)
  {
    hide OpensWithHeading;
    if lines != [] {
      var n := |lines| - 1;
      var earlier := Groups(lines[..n]);
      GroupsOpenWithHeadings(lines[..n]);
      var m := |earlier| - 1;
      if earlier == [] || IsHeading(lines[n]) {
        LineJoinsGroup([], lines[n], earlier == []);
        assert [] + [lines[n]] == [lines[n]];
      } else {
        LineJoinsGroup(earlier[m], lines[n], m == 0);
      }
      hide IsHeading;
    }
  }

  lemma LineJoinsGroup(g: seq<string>, line: string, first: bool)
    requires g == [] ==> first || IsHeading(line)
    requires g != [] ==> OpensWithHeading(g, first) && !IsHeading(line)
    ensures OpensWithHeading(g + [line], first)
  {
    hide StartsWith;
  }

  /** `"\n".join(lines)`. */
  function Join(lines: seq<string>): string {
    if lines == [] then ""
    else if |lines| == 1 then lines[0]
    else Join(lines[..|lines| - 1]) + "\n" + lines[|lines| - 1]
  }

  /** The lines as they stand in the joined text. */
  function Ended(lines: seq<string>): seq<string> {
    seq(|lines|, k requires 0 <= k < |lines| => if k < |lines| - 1 then lines[k] + "\n" else lines[k])
  }

  lemma {:induction false} JoinIsConcat(lines: seq<string>)
    ensures Concat(Ended(lines)) == Join(lines)
  {
    if |lines| > 1 {
      var n := |lines| - 1;
      var shorter := lines[..n];
      JoinIsConcat(shorter);
      assert Ended(lines) == Ended(shorter)[..n - 1] + [shorter[n - 1] + "\n"] + [lines[n]];
      assert Ended(shorter) == Ended(shorter)[..n - 1] + [shorter[n - 1]];
      ConcatLast(Ended(shorter)[..n - 1] + [shorter[n - 1] + "\n"], lines[n]);
      ConcatLast(Ended(shorter)[..n - 1], shorter[n - 1] + "\n");
      ConcatLast(Ended(shorter)[..n - 1], shorter[n - 1]);
    } else if |lines| == 1 {
      assert Ended(lines) == lines && lines[1..] == [];
    }
  }

  lemma {:induction false} ConcatLast(texts: seq<string>, last: string)
    ensures Concat(texts + [last]) == Concat(texts) + last
  {
    if texts == [] {
      assert texts + [last] == [last] && [last][1..] == [];
    } else {
      assert (texts + [last])[1..] == texts[1..] + [last];
      ConcatLast(texts[1..], last);
    }
  }

  lemma EndedAt(lines: seq<string>, k: nat)
    requires k < |lines| && (lines[|lines| - 1] != "" && NoBreaks(lines[k]))
    ensures IsLine(Ended(lines)[k]) && Unbroken(Ended(lines)[k]) == lines[k]
    ensures k < |lines| - 1 ==> Ended(lines)[k] == lines[k] + "\n"
  {
    hide NoBreaks; hide IsLine; hide Unbroken;
    EndedIsLine(lines[k], Ended(lines)[k]);
  }

  lemma EndedAreLines(lines: seq<string>)
    requires lines != [] && lines[|lines| - 1] != "" && forall k | 0 <= k < |lines| :: NoBreaks(lines[k])
    ensures AreLinesOf(Ended(lines), Join(lines))
    ensures forall k | 0 <= k < |lines| :: Unbroken(Ended(lines)[k]) == lines[k]
  {
    var ended := Ended(lines);
    assert |ended| == |lines|;
    hide Unbroken; hide IsLine; hide Concat; hide Join; hide NoBreaks; hide Follows; hide Ended;
    JoinIsConcat(lines);
    forall k | 0 <= k < |lines| ensures IsLine(ended[k]) && Unbroken(ended[k]) == lines[k] {
      EndedAt(lines, k);
    }
    forall k | 0 <= k < |lines| - 1 ensures Follows(ended[k], ended[k + 1]) {
      EndedAt(lines, k);
      EndedIsFollowed(lines[k], ended[k + 1]);
    }
  }

  lemma EndedIsFollowed(line: string, next: string)
    ensures Follows(line + "\n", next)
  {
    assert (line + "\n")[|line|] == '\n';
  }

  /** Joining undoes splitting: lines without breaks, of which the last is not empty, are read back. */
  lemma JoinSplits(lines: seq<string>)
    requires lines != [] && lines[|lines| - 1] != "" && forall k | 0 <= k < |lines| :: NoBreaks(lines[k])
    ensures SplitLines(Join(lines), 0) == lines
  {
    hide NoBreaks; hide AreLinesOf; hide Unbroken; hide Join; hide SplitLines;
    EndedAreLines(lines);
    SplitsAs(Join(lines), Ended(lines), lines);
  }

  lemma EndedIsLine(line: string, ended: string)
    requires NoBreaks(line) && (ended == line + "\n" || (ended == line && line != ""))
    ensures IsLine(ended) && Unbroken(ended) == line
  {
    assert forall k | 0 <= k < |line| :: ended[k] == line[k];
    BreakAt(ended, |line|);
  }

  function StrippedJoins(groups: seq<seq<string>>): seq<string> {
    seq(|groups|, i requires 0 <= i < |groups| => Strip(Join(groups[i])))
  }

  function Sections(text: string): seq<string> {
    NonEmpty(StrippedJoins(Groups(SplitLines(text, 0))))
  }

  lemma JoinsGrow(groups: seq<seq<string>>, g: seq<string>)
    ensures StrippedJoins(groups + [g]) == StrippedJoins(groups) + [Strip(Join(g))]
  {
    hide Strip; hide Join;
  }

  /** How one more line continues the groups before it. */
  lemma GroupsStep(lines: seq<string>, i: nat, earlier: seq<seq<string>>, current: seq<string>)
    requires i < |lines| && Groups(lines[..i]) == if i == 0 then [] else earlier + [current]
    ensures Groups(lines[..i + 1]) ==
      if i == 0 then [[lines[i]]]
      else if IsHeading(lines[i]) then earlier + [current] + [[lines[i]]]
      else earlier + [current + [lines[i]]]
  {
    hide IsHeading;
    assert lines[..i + 1][..i] == lines[..i];
    assert i > 0 ==> (earlier + [current])[..|earlier|] == earlier;
  }

  method SplitHeadings(text: string) returns (sections: seq<string>)
    ensures sections == Sections(text)
  {
    hide Strip; hide Join; hide IsHeading; hide SplitLines; hide Groups; hide StrippedJoins;
    var lines := SplitLines(text, 0);
    var parts: seq<string>, current: seq<string> := [], [];
    ghost var earlier: seq<seq<string>> := [];
    NothingGrouped();
    for i := 0 to |lines|
      invariant current == [] <==> i == 0
      invariant i == 0 ==> earlier == []
      invariant Groups(lines[..i]) == if i == 0 then [] else earlier + [current]
      invariant parts == StrippedJoins(earlier)
    {
      var line := lines[i];
      GroupsStep(lines, i, earlier, current);
      if IsHeading(line) && current != [] {
        JoinsGrow(earlier, current);
        parts := parts + [Strip(Join(current))];
        earlier := earlier + [current];
        current := [line];
        continue;
      }
      assert [] + [line] == [line];
      current := current + [line];
    }
    assert lines[..|lines|] == lines;
    if current != [] {
      JoinsGrow(earlier, current);
      parts := parts + [Strip(Join(current))];
    }
    sections := NonEmpty(parts);
  }

  lemma NothingGrouped()
    ensures Groups([]) == [] && StrippedJoins([]) == []
  {
  }

  // ----- Windows -----

  datatype Window = Window(start: nat, end: nat)

  /** `section.rfind("\n", start, end)`: the last newline in the range, or -1. */
  function LastNewline(s: string, start: nat, end: nat): (at: int)
    requires start <= end <= |s|
    ensures at == -1 || (start <= at < end && s[at] == '\n')
    ensures forall k | start <= k < end && s[k] == '\n' :: k <= at
  {
    if start == end then -1
    else if s[end - 1] == '\n' then end - 1
    else LastNewline(s, start, end - 1)
  }

  /** A window ends after 800 characters, or at a newline in its second half. */
  function WindowEnd(s: string, start: nat): (end: nat)
    requires start < |s|
    ensures start < end <= |s| && end <= start + CHUNK_CHARS
    ensures end < |s| ==> end > start + CHUNK_CHARS / 2
    ensures end < |s| <==> start + CHUNK_CHARS < |s|
  {
    if start + CHUNK_CHARS >= |s| then |s|
    else
      var boundary := LastNewline(s, start, start + CHUNK_CHARS);
      if boundary > start + CHUNK_CHARS / 2 then boundary else start + CHUNK_CHARS
  }

  /** A window ends with the text, or at the last newline of its second half, or, if there is none, when it is full. */
  predicate BreaksWell(s: string, w: Window)
    requires w.end <= |s|
  {
    || w.end == |s|
    || (&& w.start + 400 < w.end < w.start + 800 && s[w.end] == '\n'
        && forall k | w.end < k < w.start + 800 && k < |s| :: s[k] != '\n')
    || (w.end == w.start + 800 && forall k | w.start + 400 < k < w.end :: s[k] != '\n')
  }

  function Windows(s: string, start: nat): (windows: seq<Window>)
    requires start < |s|
    decreases |s| - start
  {
    var end := WindowEnd(s, start);
    [Window(start, end)] + if end == |s| then [] else Windows(s, end - CHUNK_OVERLAP)
  }

  /** What a window list must be to lose nothing: from one end to the other, with the stated overlap. */
  ghost predicate Covers(windows: seq<Window>, start: nat, length: nat) {
    && windows != [] && windows[0].start == start && windows[|windows| - 1].end == length
    && (forall k | 0 <= k < |windows| ::
          windows[k].start < windows[k].end <= length && windows[k].end - windows[k].start <= 800)
    && (forall k | 0 <= k < |windows| - 1 ::
          && windows[k + 1].start == windows[k].end - 80
          && windows[k + 1].start >= windows[k].start + 321)
  }

  /** The windows cover a section, overlap by exactly 80 and advance by at least 321 characters. */
  lemma {:induction false} WindowsCover(s: string, start: nat)
    requires start < |s|
    ensures Covers(Windows(s, start), start, |s|)
    decreases |s| - start
  {
    hide WindowEnd; hide Covers;
    var end := WindowEnd(s, start);
    if end < |s| {
      WindowsCover(s, end - CHUNK_OVERLAP);
      OneMoreCovers(Window(start, end), Windows(s, end - CHUNK_OVERLAP), |s|);
    } else {
      assert Windows(s, start) == [Window(start, end)];
      OneWindowCovers(Window(start, end));
    }
  }

  lemma WindowBreaksWell(s: string, start: nat)
    requires start < |s|
    ensures BreaksWell(s, Window(start, WindowEnd(s, start)))
  {
    hide LastNewline;
  }

  ghost predicate AllBreakWell(s: string, windows: seq<Window>) {
    forall k | 0 <= k < |windows| :: windows[k].end <= |s| && BreaksWell(s, windows[k])
  }

  lemma WindowsOpen(s: string, start: nat, end: nat) returns (rest: seq<Window>)
    requires start < |s| && end == WindowEnd(s, start)
    ensures Windows(s, start) == [Window(start, end)] + rest
    ensures rest == if end < |s| then Windows(s, end - CHUNK_OVERLAP) else []
  {
    hide WindowEnd;
    rest := if end < |s| then Windows(s, end - CHUNK_OVERLAP) else [];
  }

  lemma {:induction false} WindowsBreakWell(s: string, start: nat)
    requires start < |s|
    ensures AllBreakWell(s, Windows(s, start))
    decreases |s| - start
  {
    hide WindowEnd; hide BreaksWell; hide AllBreakWell; hide Windows;
    var end := WindowEnd(s, start);
    WindowBreaksWell(s, start);
    var rest := WindowsOpen(s, start, end);
    OneMoreBreaksWell(s, Window(start, end), rest);
    if end < |s| {
      WindowsBreakWell(s, end - CHUNK_OVERLAP);
    }
  }

  lemma OneMoreBreaksWell(s: string, w: Window, rest: seq<Window>)
    requires w.end <= |s| && BreaksWell(s, w)
    ensures AllBreakWell(s, []) && (AllBreakWell(s, rest) ==> AllBreakWell(s, [w] + rest))
  {
    hide BreaksWell;
    assert forall k | 1 <= k < |[w] + rest| :: ([w] + rest)[k] == rest[k - 1];
  }

  lemma OneWindowCovers(w: Window)
    requires w.start < w.end <= w.start + CHUNK_CHARS
    ensures Covers([w], w.start, w.end)
  {
  }

  lemma OneMoreCovers(w: Window, rest: seq<Window>, length: nat)
    requires w.start + 401 <= w.end < length && w.end <= w.start + CHUNK_CHARS
    requires Covers(rest, w.end - CHUNK_OVERLAP, length)
    ensures Covers([w] + rest, w.start, length)
  {
    var windows := [w] + rest;
    assert forall k | 1 <= k < |windows| :: windows[k] == rest[k - 1];
    assert windows[|windows| - 1] == rest[|rest| - 1];
  }

  /** Covering windows are few: at most 1 + ceil((n - 800) / 321) of them for n characters. */
  lemma {:induction false} CoversIsShort(windows: seq<Window>, start: nat, length: nat)
    requires Covers(windows, start, length)
    requires forall k | 0 <= k < |windows| - 1 :: windows[k].start + CHUNK_CHARS < length
    ensures length - start <= CHUNK_CHARS ==> |windows| == 1
    ensures length - start > CHUNK_CHARS ==> |windows| <= 1 + (length - start - CHUNK_CHARS + 320) / 321
  {
    if |windows| > 1 {
      var rest := windows[1..];
      assert forall k | 0 <= k < |rest| :: rest[k] == windows[k + 1];
      CoversIsShort(rest, windows[1].start, length);
    }
  }

  lemma {:induction false} OnlyTheLastReaches(s: string, start: nat)
    requires start < |s|
    ensures forall k | 0 <= k < |Windows(s, start)| - 1 :: Windows(s, start)[k].start + CHUNK_CHARS < |s|
    decreases |s| - start
  {
    var end := WindowEnd(s, start);
    if end < |s| {
      OnlyTheLastReaches(s, end - CHUNK_OVERLAP);
    }
  }

  /** A stretch of at most 80 characters lies inside one window. */
  lemma {:induction false} StretchFitsWindow(
      windows: seq<Window>, start: nat, length: nat, i: nat, j: nat) returns (k: nat)
    requires Covers(windows, start, length)
    requires start <= i <= j <= length && j - i <= CHUNK_OVERLAP
    ensures k < |windows| && windows[k].start <= i && j <= windows[k].end
  {
    k := 0;
    while windows[k].end < j
      invariant k < |windows| && windows[k].start <= i
      decreases |windows| - k
    {
      k := k + 1;
    }
  }

  function Excerpt(s: string, w: Window): string
    requires w.start <= w.end <= |s|
  {
    Strip(s[w.start..w.end])
  }

  function Excerpts(s: string, windows: seq<Window>): seq<string>
    requires forall w | w in windows :: w.start <= w.end <= |s|
  {
    if windows == [] then []
    else Excerpts(s, windows[..|windows| - 1]) + [Excerpt(s, windows[|windows| - 1])]
  }

  lemma WindowsAreInside(s: string)
    requires s != ""
    ensures forall w | w in Windows(s, 0) :: w.start <= w.end <= |s|
  {
    WindowsCover(s, 0);
  }

  function Packed(section: string): seq<string> {
    if |section| <= CHUNK_CHARS then [section]
    else
      WindowsAreInside(section);
      NonEmpty(Excerpts(section, Windows(section, 0)))
  }

  lemma OneMoreExcerpt(s: string, windows: seq<Window>, w: Window)
    requires w.start <= w.end <= |s| && forall v | v in windows :: v.start <= v.end <= |s|
    ensures forall v | v in windows + [w] :: v.start <= v.end <= |s|
    ensures Excerpts(s, windows + [w]) == Excerpts(s, windows) + [Excerpt(s, w)]
  {
    hide Excerpt;
    assert (windows + [w])[..|windows|] == windows;
  }

  lemma WindowsStep(s: string, done: seq<Window>, start: nat, end: nat)
    requires start < |s| && end == WindowEnd(s, start)
    ensures done + Windows(s, start) ==
      if end == |s| then done + [Window(start, end)]
      else done + [Window(start, end)] + Windows(s, end - CHUNK_OVERLAP)
  {
    hide WindowEnd;
  }

  method PackSection(section: string) returns (packed: seq<string>)
    ensures packed == Packed(section)
  {
    if |section| <= CHUNK_CHARS {
      return [section];
    }
    hide Strip; hide Excerpts; hide Windows; hide NonEmpty; hide LastNewline;
    WindowsAreInside(section);
    packed := [];
    var start, length := 0, |section|;
    ghost var done: seq<Window> := [];
    assert Excerpts(section, []) == [] by { NothingToExcerpt(section); }
    while start < length
      invariant start < length == |section|
      invariant done + Windows(section, start) == Windows(section, 0)
      invariant forall w | w in done :: w.start <= w.end <= |section|
      invariant packed == Excerpts(section, done)
      decreases length - start
    {
      var end := if start + CHUNK_CHARS < length then start + CHUNK_CHARS else length;
      if end < length {
        var boundary := LastNewline(section, start, end);
        if boundary > start + CHUNK_CHARS / 2 {
          end := boundary;
        }
      }
      assert end == WindowEnd(section, start);
      hide WindowEnd;
      WindowsStep(section, done, start, end);
      OneMoreExcerpt(section, done, Window(start, end));
      packed := packed + [Strip(section[start..end])];
      done := done + [Window(start, end)];
      if end >= length {
        break;
      }
      start := if end - CHUNK_OVERLAP > start + 1 then end - CHUNK_OVERLAP else start + 1;
    }
    packed := NonEmpty(packed);
  }

  lemma NothingToExcerpt(s: string)
    ensures Excerpts(s, []) == []
  {
  }

  // ----- Documents -----

  function PackedAll(sections: seq<string>): seq<string> {
    if sections == [] then [] else PackedAll(sections[..|sections| - 1]) + Packed(sections[|sections| - 1])
  }

  function Chunks(text: string): seq<string> {
    if Strip(text) == "" then [] else NonEmpty(PackedAll(Sections(Strip(text))))
  }

  method ChunkText(text: string) returns (chunks: seq<string>)
    ensures chunks == Chunks(text)
  {
    hide Strip; hide Sections; hide Packed;
    var stripped := Strip(text);
    if stripped == "" {
      return [];
    }
    var sections := SplitHeadings(stripped);
    chunks := [];
    for i := 0 to |sections|
      invariant chunks == PackedAll(sections[..i])
    {
      var packed := PackSection(sections[i]);
      assert sections[..i + 1][..i] == sections[..i];
      chunks := chunks + packed;
    }
    assert sections[..|sections|] == sections;
    chunks := NonEmpty(chunks);
  }

  // ----- No short token is cut -----

  /** Non-empty and free of whitespace. */
  predicate IsToken(token: string) {
    token != "" && forall i | 0 <= i < |token| :: !IsSpace(token[i])
  }

  lemma SliceOfSlice(s: string, lo: nat, hi: nat, a: nat, b: nat)
    requires lo <= hi <= |s| && a <= b <= hi - lo
    ensures s[lo..hi][a..b] == s[lo + a..lo + b]
  {
    forall i | 0 <= i < b - a ensures s[lo..hi][a..b][i] == s[lo + a..lo + b][i] {
      assert s[lo..hi][a + i] == s[lo + (a + i)];
    }
  }

  lemma ContainsAt(s: string, token: string, lo: nat, hi: nat)
    requires lo <= hi <= |s| && Contains(s[lo..hi], token)
    ensures Contains(s, token)
  {
    ContainsInside(s[..lo], s[lo..hi], s[hi..], token);
    assert s[..lo] + s[lo..hi] + s[hi..] == s;
  }

  /** Stripping keeps every token. */
  lemma StripKeepsToken(s: string, token: string)
    requires IsToken(token) && Contains(s, token)
    ensures Contains(Strip(s), token)
  {
    var lo, hi := TrimIsInfix(IsSpace, s);
    var i: nat :| IsAt(s, token, i);
    TokenIsInside(s, token, i, lo, hi);
    SliceOfSlice(s, lo, hi, i - lo, i - lo + |token|);
    assert IsAt(s[lo..hi], token, i - lo);
  }

  lemma TokenIsInside(s: string, token: string, i: nat, lo: nat, hi: nat)
    requires IsToken(token) && IsAt(s, token, i) && lo <= hi <= |s|
    requires forall k | 0 <= k < lo || hi <= k < |s| :: IsSpace(s[k])
    ensures lo <= i && i + |token| <= hi
  {
    hide IsSpace;
    var last := |token| - 1;
    assert s[i] == s[i..i + |token|][0] && s[i + last] == s[i..i + |token|][last];
  }

  lemma NoTokenAtBreak(s: string, e: nat, token: string, at: nat)
    requires IsToken(token) && e <= at && IsAt(s, token, at) && IsBreak(s[e])
    ensures AfterBreak(s, e) <= at
  {
    assert s[at] == s[at..at + |token|][0] == token[0];
  }

  /** A token lies within one line. */
  lemma {:induction false} LineHasToken(s: string, from: nat, token: string, at: nat) returns (line: string)
    requires IsToken(token) && from <= at && IsAt(s, token, at)
    ensures line in SplitLines(s, from) && Contains(line, token)
    decreases |s| - from
  {
    var e := NextBreak(s, from);
    assert forall k | at <= k < at + |token| :: s[k] == s[at..at + |token|][k - at];
    if at < e {
      line := s[from..e];
      assert at + |token| <= e;
      SliceOfSlice(s, from, e, at - from, at - from + |token|);
      assert IsAt(line, token, at - from);
    } else {
      NoTokenAtBreak(s, e, token, at);
      line := LineHasToken(s, AfterBreak(s, e), token, at);
    }
  }

  lemma {:induction false} FlattenHas(groups: seq<seq<string>>, line: string) returns (k: nat)
    requires line in Flatten(groups)
    ensures k < |groups| && line in groups[k]
  {
    var n := |groups| - 1;
    if line in groups[n] {
      k := n;
    } else {
      k := FlattenHas(groups[..n], line);
    }
  }

  lemma {:induction false} JoinHasToken(lines: seq<string>, line: string, token: string)
    requires line in lines && Contains(line, token)
    ensures Contains(Join(lines), token)
  {
    hide Contains;
    var n := |lines| - 1;
    if n == 0 {
    } else if line == lines[n] {
      var all := Join(lines);
      assert all[|all| - |line|..] == line;
      assert all[|all| - |line|..|all|] == line;
      ContainsAt(all, token, |all| - |line|, |all|);
    } else {
      JoinHasToken(lines[..n], line, token);
      var before := Join(lines[..n]);
      assert Join(lines)[0..|before|] == before;
      ContainsAt(Join(lines), token, 0, |before|);
    }
  }

  lemma SectionHasToken(text: string, token: string) returns (section: string)
    requires IsToken(token) && Contains(text, token)
    ensures section in Sections(text) && Contains(section, token)
  {
    hide Strip; hide Join; hide IsSpace;
    var at: nat :| IsAt(text, token, at);
    var line := LineHasToken(text, 0, token, at);
    var lines := SplitLines(text, 0);
    GroupsKeepLines(lines);
    var k := FlattenHas(Groups(lines), line);
    hide Contains; hide Groups; hide SplitLines;
    var group := Groups(lines)[k];
    JoinHasToken(group, line, token);
    StripKeepsToken(Join(group), token);
    section := Strip(Join(group));
    assert section == StrippedJoins(Groups(lines))[k];
    NotEmpty(section, token);
  }

  lemma NotEmpty(s: string, token: string)
    requires IsToken(token) && Contains(s, token)
    ensures s != ""
  {
  }

  lemma {:induction false} ExcerptsHave(s: string, windows: seq<Window>, k: nat)
    requires forall w | w in windows :: w.start <= w.end <= |s|
    requires k < |windows|
    ensures windows[k] in windows && Excerpt(s, windows[k]) in Excerpts(s, windows)
  {
    hide Excerpt;
    var n := |windows| - 1;
    if k < n {
      assert windows[..n][k] == windows[k];
      ExcerptsHave(s, windows[..n], k);
    }
  }

  lemma PackedHasToken(section: string, token: string) returns (chunk: string)
    requires IsToken(token) && |token| <= CHUNK_OVERLAP && Contains(section, token)
    ensures chunk in Packed(section) && Contains(chunk, token)
  {
    if |section| <= CHUNK_CHARS {
      chunk := section;
    } else {
      hide Strip; hide IsToken; hide IsAt; hide Excerpts; hide Windows; hide Covers; hide Excerpt;
      var windows := Windows(section, 0);
      WindowsAreInside(section);
      var k := WindowHasToken(section, token);
      ExcerptsHave(section, windows, k);
      chunk := Excerpt(section, windows[k]);
      NotEmpty(chunk, token);
    }
  }

  lemma WindowHasToken(section: string, token: string) returns (k: nat)
    requires section != "" && IsToken(token) && |token| <= CHUNK_OVERLAP && Contains(section, token)
    ensures var windows := Windows(section, 0);
      k < |windows| && windows[k].start <= windows[k].end <= |section| && Contains(Excerpt(section, windows[k]), token)
  {
    hide Strip; hide IsToken; hide Windows;
    var i: nat :| IsAt(section, token, i);
    var windows := Windows(section, 0);
    WindowsCover(section, 0);
    k := StretchFitsWindow(windows, 0, |section|, i, i + |token|);
    hide Covers;
    var w := windows[k];
    SliceOfSlice(section, w.start, w.end, i - w.start, i - w.start + |token|);
    assert IsAt(section[w.start..w.end], token, i - w.start);
    StripKeepsToken(section[w.start..w.end], token);
  }

  lemma {:induction false} PackedAllHas(sections: seq<string>, section: string, chunk: string)
    requires section in sections && chunk in Packed(section)
    ensures chunk in PackedAll(sections)
  {
    hide Packed;
    var n := |sections| - 1;
    if section != sections[n] {
      PackedAllHas(sections[..n], section, chunk);
    }
  }

  /** Every whitespace-free token of at most 80 characters lies wholly inside some chunk. */
  lemma NoShortTokenIsCut(text: string, token: string)
    requires IsToken(token) && |token| <= 80 && Contains(text, token)
    ensures exists chunk | chunk in Chunks(text) :: Contains(chunk, token)
  {
    hide Strip; hide Sections; hide Packed; hide PackedAll; hide IsToken; hide Contains;
    StripKeepsToken(text, token);
    NotEmpty(Strip(text), token);
    var section := SectionHasToken(Strip(text), token);
    var chunk := PackedHasToken(section, token);
    PackedAllHas(Sections(Strip(text)), section, chunk);
    NotEmpty(chunk, token);
  }

  // ----- Chunks are small and few -----

  lemma {:induction false} ExcerptsAreShort(s: string, windows: seq<Window>)
    requires forall w | w in windows :: w.start <= w.end <= |s| && w.end - w.start <= CHUNK_CHARS
    ensures |Excerpts(s, windows)| == |windows|
    ensures forall e | e in Excerpts(s, windows) :: |e| <= CHUNK_CHARS
  {
    if windows != [] {
      var n := |windows| - 1;
      assert forall w | w in windows[..n] :: w in windows;
      ExcerptsAreShort(s, windows[..n]);
      StripIsShorter(s[windows[n].start..windows[n].end]);
    }
  }

  lemma StripIsShorter(s: string)
    ensures |Strip(s)| <= |s|
  {
    var lo, hi := TrimIsInfix(IsSpace, s);
  }

  /** A section of n > 800 characters gives at most 1 + ceil((n - 800) / 321) chunks of at most 800. */
  lemma SectionBound(section: string)
    ensures forall chunk | chunk in Packed(section) :: |chunk| <= 800
    ensures |section| <= 800 ==> |Packed(section)| == 1
    ensures |section| > 800 ==> |Packed(section)| <= 1 + (|section| - 800 + 320) / 321
  {
    if |section| > CHUNK_CHARS {
      hide Strip; hide Windows; hide Excerpts;
      WindowsCover(section, 0);
      WindowsAreInside(section);
      OnlyTheLastReaches(section, 0);
      CoversIsShort(Windows(section, 0), 0, |section|);
      ExcerptsAreShort(section, Windows(section, 0));
    }
  }

  lemma {:induction false} ChunksOfSectionsAreShort(sections: seq<string>)
    ensures forall chunk | chunk in PackedAll(sections) :: |chunk| <= CHUNK_CHARS
  {
    hide Packed;
    if sections != [] {
      ChunksOfSectionsAreShort(sections[..|sections| - 1]);
      SectionBound(sections[|sections| - 1]);
    }
  }

  /** A long section comes as its windows in order, each without the space around it, and without blank ones. */
  lemma PackedInOrder(section: string) returns (windows: seq<Window>, excerpts: seq<string>)
    requires |section| > 800
    ensures Covers(windows, 0, |section|) && AllBreakWell(section, windows)
    ensures |excerpts| == |windows| && Packed(section) == NonEmpty(excerpts)
    ensures forall k | 0 <= k < |windows| ::
      && windows[k].start <= windows[k].end <= |section|
      && excerpts[k] == Strip(section[windows[k].start..windows[k].end])
  {
    hide Strip; hide NonEmpty; hide Windows; hide AllBreakWell;
    windows := Windows(section, 0);
    WindowsCover(section, 0);
    WindowsBreakWell(section, 0);
    WindowsAreInside(section);
    excerpts := Excerpts(section, windows);
    ExcerptsStand(section, windows);
    hide Excerpts; hide Covers;
  }

  lemma {:induction false} ExcerptsStand(s: string, windows: seq<Window>)
    requires forall w | w in windows :: w.start <= w.end <= |s|
    ensures |Excerpts(s, windows)| == |windows|
    ensures forall k | 0 <= k < |windows| ::
      windows[k].start <= windows[k].end <= |s| && Excerpts(s, windows)[k] == Excerpt(s, windows[k])
  {
    hide Excerpt;
    if windows != [] {
      var n := |windows| - 1;
      var earlier, last := windows[..n], windows[n];
      assert windows == earlier + [last] && last in windows && forall w | w in earlier :: w in windows;
      ExcerptsStand(s, earlier);
      OneMoreExcerpt(s, earlier, last);
      hide Excerpts;
    }
  }

  lemma PackedIsStripped(section: string)
    requires Stripped(section)
    ensures forall chunk | chunk in Packed(section) :: Stripped(chunk)
  {
    hide Stripped; hide Strip;
    if |section| > 800 {
      var windows, excerpts := PackedInOrder(section);
      hide Packed; hide Covers; hide AllBreakWell;
      forall chunk | chunk in Packed(section) ensures Stripped(chunk) {
        assert chunk in excerpts;
        var k :| 0 <= k < |excerpts| && excerpts[k] == chunk;
      }
    }
  }

  lemma {:induction false} ChunksOfSectionsAreStripped(sections: seq<string>)
    requires forall k | 0 <= k < |sections| :: Stripped(sections[k])
    ensures forall chunk | chunk in PackedAll(sections) :: Stripped(chunk)
  {
    if sections != [] {
      var n := |sections| - 1;
      ChunksOfSectionsAreStripped(sections[..n]);
      PackedIsStripped(sections[n]);
      hide Stripped;
      hide Packed;
    }
  }

  /** No chunk is empty or longer than 800 characters, or has space around it. */
  lemma ChunksAreShort(text: string)
    ensures forall chunk | chunk in Chunks(text) :: 0 < |chunk| <= 800 && Stripped(chunk)
  {
    var sections := Sections(Strip(text));
    forall k | 0 <= k < |sections| ensures Stripped(sections[k]) {
      assert sections[k] in sections;
    }
    hide Strip; hide Sections; hide PackedAll;
    ChunksOfSectionsAreShort(sections);
    ChunksOfSectionsAreStripped(sections);
  }
}
