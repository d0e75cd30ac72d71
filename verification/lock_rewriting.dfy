/**
 Rewriting a whole lock file: when the last version wins, and what the rewritten file says.
 */
module LockRewriting {
  import opened Text
  import opened Lines
  import opened VersionLock

  // ----- Texts line by line -----

  /** An image key without an image before its tag: the engine exits. */
  predicate IsBadPin(raw: string) {
    && KeyOf(raw).Some? && KeyOf(raw).value in IMAGE_KEYS
    && LastColon(ImageRef(TrimRight(IsLineEnd, raw))) <= 0
  }

  ghost predicate Readable(text: string) {
    forall raw | raw in SplitKeepingEnds(text) :: !IsBadPin(raw)
  }

  function WrittenLine(raw: string, version: string): string {
    if RewriteLine(raw, version).Some? then RewriteLine(raw, version).value else raw
  }

  /** The rewritten text of a readable one. */
  function Written(text: string, version: string): string {
    if text == "" then "" else WrittenLine(FirstLine(text), version) + Written(OtherLines(text), version)
  }

  lemma BadPinIsRefused(raw: string, version: string)
    ensures RewriteLine(raw, version).None? <==> IsBadPin(raw)
  {
    hide Trim; hide Strip; hide AfterColon; hide TrimRight; hide StartsWith; hide LastColon;
    var line := TrimRight(IsLineEnd, raw);
    FirstKeyIsKey(IMAGE_KEYS, line);
    NotAnImageKey("engine_version");
    NotAnImageKey("chart_version");
  }

  lemma ReadableFirst(text: string)
    requires text != ""
    ensures Readable(text) <==> !IsBadPin(FirstLine(text)) && Readable(OtherLines(text))
  {
    hide IsBadPin; hide FirstLine;
    var lines := SplitKeepingEnds(OtherLines(text));
    assert forall raw :: raw in [FirstLine(text)] + lines <==> raw == FirstLine(text) || raw in lines;
  }

  lemma {:induction false} RewrittenIsWritten(text: string, version: string)
    ensures Rewritten(text, version) == if Readable(text) then Some(Written(text, version)) else None
  {
    hide RewriteLine; hide IsBadPin; hide FirstLine;
    if text != "" {
      ReadableFirst(text);
      hide Readable;
      BadPinIsRefused(FirstLine(text), version);
      RewrittenIsWritten(OtherLines(text), version);
      var lines := SplitKeepingEnds(text);
      assert lines[1..] == SplitKeepingEnds(OtherLines(text));
      var rest := RewriteLines(lines[1..], version);
      if rest.Some? && RewriteLine(lines[0], version).Some? {
        assert ([RewriteLine(lines[0], version).value] + rest.value)[1..] == rest.value;
      }
    }
  }

  lemma {:induction false} WithoutPinsWritten(text: string, version: string)
    requires forall k | 0 <= k < |SplitKeepingEnds(text)| :: KeyOf(SplitKeepingEnds(text)[k]).None?
    ensures Readable(text) && Written(text, version) == text
  {
    hide KeyOf; hide FirstLine; hide WrittenLine; hide IsBadPin;
    if text == "" {
      assert Readable("");
    } else {
      var lines := SplitKeepingEnds(OtherLines(text));
      assert SplitKeepingEnds(text)[0] == FirstLine(text);
      assert forall k | 0 <= k < |lines| :: lines[k] == SplitKeepingEnds(text)[k + 1];
      WithoutPinsWritten(OtherLines(text), version);
      UnpinnedIsKept(FirstLine(text), version);
      ReadableFirst(text);
      hide Readable;
      assert text == FirstLine(text) + OtherLines(text);
    }
  }

  /** A text without pins is left alone. */
  lemma WithoutPinsUnchanged(text: string, version: string)
    requires forall raw | raw in SplitKeepingEnds(text) :: KeyOf(raw).None?
    ensures Rewritten(text, version) == Some(text)
  {
    hide KeyOf; hide Rewritten; hide Readable; hide Written;
    WithoutPinsWritten(text, version);
    RewrittenIsWritten(text, version);
  }

  lemma UnpinnedIsKept(raw: string, version: string)
    requires KeyOf(raw).None?
    ensures RewriteLine(raw, version) == Some(raw) && WrittenLine(raw, version) == raw && !IsBadPin(raw)
  {
    hide TrimRight; hide StartsWith;
  }

  // ----- Rewriting twice -----

  /** The break behind the pin is dropped, so the next line of the text joins it. */
  predicate IsOpen(text: string)
    requires text != ""
  {
    KeyOf(FirstLine(text)).Some? && Newline(FirstLine(text)) == "" && OtherLines(text) != ""
  }

  /** No line joins a pin, except a bare newline. */
  predicate Tight(text: string) {
    text == "" ||
    (Tight(OtherLines(text)) && (IsOpen(text) ==> FirstLine(OtherLines(text)) == "\n"))
  }

  /** How the rewritten text begins, by the first line of the text. */
  lemma WrittenBegins(text: string, v: string) returns (key: string, image: string)
    requires text != "" && Readable(text) && SafeVersion(v)
    ensures var line, rest, u := FirstLine(text), Written(OtherLines(text), v), Written(text, v);
      if KeyOf(line).None? then
        u == line + rest && FirstLine(u) == line && OtherLines(u) == rest
        && forall w :: WrittenLine(line, w) == line
      else
        && IsPinKey(key) && (image == "" <==> key !in IMAGE_KEYS) && NoBreaks(image)
        && (image != "" ==> !IsQuote(image[0]))
        && KeyOf(line) == Some(key) && ImageOf(line) == image
        && (forall w :: WrittenLine(line, w) == Pin(key, Tagged(image, w)) + Newline(line))
        && u == Pin(key, Tagged(image, v)) + Newline(line) + rest
  {
    hide RewriteLine; hide IsBreak; hide FirstLine; hide KeyOf; hide ImageOf;
    FirstLineOfLine(text);
    ReadableFirst(text);
    BadPinIsRefused(FirstLine(text), v);
    key, image := LineToPin(FirstLine(text));
    if KeyOf(FirstLine(text)).None? {
      WrittenStarts(OtherLines(text), v);
      assert text == FirstLine(text) + OtherLines(text);
      SameFirstLine(FirstLine(text), OtherLines(text), Written(OtherLines(text), v));
    }
  }

  lemma {:induction false} WrittenStarts(text: string, v: string)
    ensures Written(text, v) == "" <==> text == ""
    ensures text != "" && Written(text, v)[0] == '\n' ==> text[0] == '\n'
  {
    if text != "" {
      var line := FirstLine(text);
      FirstLineOfLine(text);
      assert line[0] == text[0];
      hide FirstLine; hide RewriteLine;
      var key, image := LineToPin(line);
      if KeyOf(line).Some? && RewriteLine(line, v).Some? {
        PinStarts(key, Tagged(image, v));
      }
    }
  }

  lemma PinStarts(key: string, value: string)
    requires IsPinKey(key)
    ensures Pin(key, value) != "" && Pin(key, value)[0] != '\n'
  {
  }

  /** Where the first line of the rewritten text ends, when it is a pin. */
  lemma PinnedFirstLine(key: string, image: string, v: string, newline: string, rest: string)
    requires IsPinKey(key) && NoBreaks(image) && SafeVersion(v) && (newline == "" || newline == "\n")
    ensures var pin := Pin(key, Tagged(image, v));
      var u := pin + newline + rest;
      if newline == "\n" then FirstLine(u) == pin + "\n" && OtherLines(u) == rest
      else if rest == "" then FirstLine(u) == pin && OtherLines(u) == ""
      else FirstLine(u) == pin + FirstLine(rest) && OtherLines(u) == OtherLines(rest)
  {
    PinHasNoBreaks(key, image, v);
    var pin := Pin(key, Tagged(image, v));
    hide Pin; hide Tagged; hide IsPinKey;
    if newline == "\n" {
      assert pin + newline + rest == pin + ("\n" + rest);
      GluedFirstLine(pin, "\n" + rest);
      BreakAt("\n" + rest, 0);
      assert ("\n" + rest)[..1] == "\n" && ("\n" + rest)[1..] == rest;
    } else if rest == "" {
      assert pin + newline + rest == pin;
      BreakAt(pin, |pin|);
    } else {
      assert pin + newline + rest == pin + rest;
      GluedFirstLine(pin, rest);
    }
  }

  lemma PinHasNoBreaks(key: string, image: string, v: string)
    requires IsPinKey(key) && NoBreaks(image) && SafeVersion(v)
    ensures NoBreaks(Pin(key, Tagged(image, v))) && Pin(key, Tagged(image, v)) != ""
  {
    PinKeysHaveNoColon(key);
    hide IsPinKey;
    assert NoBreaks(": '") && NoBreaks("'") && NoBreaks(":");
    hide IsBreak;
  }

  /** Rewriting twice keeps the old version somewhere, or is no longer than rewriting once, and shorter if not tight. */
  ghost predicate Shrinks(twice: string, once: string, v: string, tight: bool) {
    Contains(twice, v) || (|twice| <= |once| && (!tight ==> |twice| < |once|))
  }

  lemma ShrinksBehind(front: string, twice: string, once: string, v: string, tight: bool)
    requires Shrinks(twice, once, v, tight)
    ensures Shrinks(front + twice, front + once, v, tight)
  {
    hide Contains;
    if Contains(twice, v) {
      ContainsInside(front, twice, "", v);
      assert front + twice + "" == front + twice;
    }
  }

  /** The text once and twice rewritten, line by line. */
  ghost predicate TwiceHolds(text: string, v: string, w: string) {
    var u, once := Written(text, v), Written(text, w);
    var twice := Written(u, w);
    Readable(u) && (Tight(text) ==> twice == once) && Shrinks(twice, once, v, Tight(text))
  }

  /** The same behind the first line, which a pin before the text takes away. */
  ghost predicate BehindHolds(text: string, v: string, w: string) {
    var u, once := Written(text, v), Written(text, w);
    u != "" && Readable(OtherLines(u)) &&
    var z, newline := Written(OtherLines(u), w), Newline(FirstLine(u));
    Contains(z, v) || (|newline| + |z| <= |once| && (FirstLine(text) != "\n" ==> |newline| + |z| < |once|))
  }

  lemma NewlineHasNoKey()
    ensures KeyOf("\n") == None
  {
    assert TrimRight(IsLineEnd, "\n") == TrimRight(IsLineEnd, "") == "" by { assert "\n"[..0] == ""; }
    forall k | k in IMAGE_KEYS ensures !StartsWith("", k + ":") {}
    NoKey(IMAGE_KEYS, "");
  }

  lemma {:induction false} Twice(text: string, v: string, w: string)
    requires Readable(text) && SafeVersion(v)
    ensures TwiceHolds(text, v, w)
    decreases |text|, 1
  {
    if text == "" {
      assert Written("", w) == "" && Readable("");
    } else {
      hide Readable; hide FirstLine; hide SafeVersion; hide KeyOf; hide Newline; hide TwiceHolds; hide BehindHolds;
      var line, rest := FirstLine(text), OtherLines(text);
      ReadableFirst(text);
      Twice(rest, v, w);
      if KeyOf(line).None? {
        UnpinnedTwice(text, v, w);
      } else if Newline(line) == "\n" || rest == "" {
        ClosedPinTwice(text, v, w);
      } else if FirstLine(rest) == "\n" {
        ReadableFirst(rest);
        Twice(OtherLines(rest), v, w);
        BareNewlineTwice(text, v, w);
      } else {
        TwiceBehind(rest, v, w);
        OpenPinTwice(text, v, w);
      }
    }
  }

  lemma {:induction false} TwiceBehind(text: string, v: string, w: string)
    requires text != "" && Readable(text) && SafeVersion(v)
    ensures BehindHolds(text, v, w)
    decreases |text|, 0
  {
    hide Readable; hide FirstLine; hide SafeVersion; hide KeyOf; hide Newline; hide TwiceHolds; hide BehindHolds;
    var line, rest := FirstLine(text), OtherLines(text);
    ReadableFirst(text);
    Twice(rest, v, w);
    if KeyOf(line).Some? && Newline(line) == "" && rest != "" {
      TwiceBehind(rest, v, w);
      OpenPinBehind(text, v, w);
    } else {
      ClosedLineBehind(text, v, w);
    }
  }

  lemma UnpinnedTwice(text: string, v: string, w: string)
    requires text != "" && Readable(text) && SafeVersion(v) && KeyOf(FirstLine(text)).None?
    requires TwiceHolds(OtherLines(text), v, w)
    ensures TwiceHolds(text, v, w)
  {
    hide Readable; hide FirstLine; hide SafeVersion; hide KeyOf; hide Newline; hide WrittenLine; hide Shrinks;
    hide IsBadPin;
    var line, rest, u := FirstLine(text), OtherLines(text), Written(text, v);
    var _, _ := WrittenBegins(text, v);
    UnpinnedIsKept(line, w);
    ReadableFirst(u);
    ShrinksBehind(line, Written(Written(rest, v), w), Written(rest, w), v, Tight(rest));
  }

  /** What a closed pin line, `newline` included, becomes twice. */
  lemma ClosedPinTwice(text: string, v: string, w: string)
    requires text != "" && Readable(text) && SafeVersion(v) && KeyOf(FirstLine(text)).Some?
    requires Newline(FirstLine(text)) == "\n" || OtherLines(text) == ""
    requires TwiceHolds(OtherLines(text), v, w)
    ensures TwiceHolds(text, v, w)
  {
    hide Readable; hide FirstLine; hide SafeVersion; hide KeyOf; hide RewriteLine; hide Shrinks; hide IsBadPin;
    hide Pin;
    hide ImageOf; hide VersionOf; hide IsPinKey; hide Tagged; hide IsBreak;
    var line, rest, u := FirstLine(text), OtherLines(text), Written(text, v);
    var key, image := WrittenBegins(text, v);
    var newline, ur := Newline(line), Written(rest, v);
    WrittenStarts(rest, v);
    PinnedFirstLine(key, image, v, newline, ur);
    PinRewrites(key, image, v, newline, w);
    var pin := Pin(key, Tagged(image, v));
    assert pin + "" == pin;
    assert FirstLine(u) == pin + newline && OtherLines(u) == ur;
    BadPinIsRefused(pin + newline, w);
    ReadableFirst(u);
    ShrinksBehind(Pin(key, Tagged(image, w)) + newline, Written(ur, w), Written(rest, w), v, Tight(rest));
  }

  lemma BareNewlineWritten(text: string, version: string)
    requires text != "" && FirstLine(text) == "\n"
    ensures Written(text, version) == "\n" + Written(OtherLines(text), version)
  {
    NewlineHasNoKey();
    UnpinnedIsKept("\n", version);
  }

  lemma BareNewlineFirst(text: string, v: string)
    requires text != "" && Readable(text) && SafeVersion(v) && FirstLine(text) == "\n"
    ensures var u := Written(text, v);
      u != "" && FirstLine(u) == "\n" && OtherLines(u) == Written(OtherLines(text), v)
  {
    hide Readable; hide FirstLine; hide SafeVersion; hide RewriteLine; hide Pin; hide IsPinKey; hide Tagged;
    NewlineHasNoKey();
    hide KeyOf;
    var _, _ := WrittenBegins(text, v);
  }

  lemma Rejoin(front: string, rest: string)
    ensures front + "" + ("\n" + rest) == front + "\n" + rest
  {
  }

  /** A bare newline stands in for the break that the pin before it loses. */
  lemma BareNewlineJoins(text: string, v: string, w: string) returns (front: string)
    requires text != "" && Readable(text) && SafeVersion(v) && IsOpen(text)
    requires Readable(OtherLines(text)) && FirstLine(OtherLines(text)) == "\n"
    ensures var u, last := Written(text, v), OtherLines(OtherLines(text));
      && u != "" && OtherLines(u) == Written(last, v)
      && RewriteLine(FirstLine(u), w) == Some(front)
      && Written(text, w) == front + Written(last, w)
  {
    hide Readable; hide FirstLine; hide SafeVersion; hide KeyOf; hide RewriteLine; hide IsBadPin; hide Pin;
    hide ImageOf; hide VersionOf; hide IsPinKey; hide Tagged; hide IsBreak; hide Newline; hide NoBreaks; hide IsQuote;
    var rest := OtherLines(text);
    var key, image := WrittenBegins(text, v);
    BareNewlineFirst(rest, v);
    BareNewlineWritten(rest, w);
    var pin, head := Pin(key, Tagged(image, v)), Pin(key, Tagged(image, w));
    assert Written(text, w) == head + "" + Written(rest, w);
    hide Written; hide WrittenLine; hide OtherLines;
    PinnedFirstLine(key, image, v, "", Written(rest, v));
    PinRewrites(key, image, v, "\n", w);
    front := head + "\n";
    Rejoin(head, Written(OtherLines(rest), w));
  }

  lemma BareNewlineTwice(text: string, v: string, w: string)
    requires text != "" && Readable(text) && SafeVersion(v) && IsOpen(text) && FirstLine(OtherLines(text)) == "\n"
    requires Readable(OtherLines(text)) && TwiceHolds(OtherLines(OtherLines(text)), v, w)
    ensures TwiceHolds(text, v, w)
  {
    hide Readable; hide FirstLine; hide SafeVersion; hide RewriteLine; hide Shrinks; hide IsBadPin;
    var rest, u := OtherLines(text), Written(text, v);
    var last := OtherLines(rest);
    NewlineHasNoKey();
    hide KeyOf;
    var front := BareNewlineJoins(text, v, w);
    assert Tight(rest) <==> Tight(last);
    assert Tight(text) <==> Tight(last);
    hide Tight;
    BadPinIsRefused(FirstLine(u), w);
    ReadableFirst(u);
    ShrinksBehind(front, Written(Written(last, v), w), Written(last, w), v, Tight(last));
  }

  /** What joins a pin is lost in the second rewriting, unless the first version stays behind. */
  lemma OpenPinJoins(text: string, v: string, w: string) returns (front: string)
    requires text != "" && Readable(text) && SafeVersion(v) && IsOpen(text)
    ensures var u, ur := Written(text, v), Written(OtherLines(text), v);
      && u != "" && ur != "" && OtherLines(u) == OtherLines(ur)
      && var first := RewriteLine(FirstLine(u), w);
      && first.Some? && (first == Some(front + Newline(FirstLine(ur))) || Contains(first.value, v))
      && Written(text, w) == front + Written(OtherLines(text), w)
  {
    hide Readable; hide FirstLine; hide SafeVersion; hide KeyOf; hide RewriteLine; hide IsBadPin; hide Pin;
    hide Contains;
    hide IsPinKey; hide Tagged; hide IsBreak; hide Newline; hide ImageOf; hide IsQuote; hide NoBreaks;
    var rest := OtherLines(text);
    var ur := Written(rest, v);
    var key, image := WrittenBegins(text, v);
    WrittenStarts(rest, v);
    var pin := Pin(key, Tagged(image, v));
    front := Pin(key, Tagged(image, w));
    assert front + "" == front && pin + "" == pin;
    hide Written; hide WrittenLine; hide OtherLines;
    PinnedFirstLine(key, image, v, "", ur);
    GluedPin(key, image, v, FirstLine(ur), w);
  }

  lemma OpenPinTwice(text: string, v: string, w: string)
    requires text != "" && Readable(text) && SafeVersion(v) && IsOpen(text) && FirstLine(OtherLines(text)) != "\n"
    requires BehindHolds(OtherLines(text), v, w)
    ensures TwiceHolds(text, v, w)
  {
    hide Readable; hide FirstLine; hide SafeVersion; hide KeyOf; hide RewriteLine; hide IsBadPin; hide Contains;
    hide Newline;
    var u, ur := Written(text, v), Written(OtherLines(text), v);
    var front := OpenPinJoins(text, v, w);
    var first, z := RewriteLine(FirstLine(u), w).value, Written(OtherLines(ur), w);
    BadPinIsRefused(FirstLine(u), w);
    ReadableFirst(u);
    assert Written(u, w) == first + z;
    if Contains(first, v) {
      ContainsInside("", first, z, v);
      assert "" + first + z == first + z;
    } else if Contains(z, v) {
      ContainsInside(first, z, "", v);
      assert first + z + "" == first + z;
    }
  }

  lemma ClosedLineBehind(text: string, v: string, w: string)
    requires text != "" && Readable(text) && SafeVersion(v) && !IsOpen(text)
    requires TwiceHolds(OtherLines(text), v, w)
    ensures BehindHolds(text, v, w)
  {
    hide Readable; hide FirstLine; hide SafeVersion; hide KeyOf; hide RewriteLine; hide IsBadPin; hide Contains;
    hide IsPinKey; hide Tagged; hide IsBreak; hide ImageOf;
    var line, rest, u := FirstLine(text), OtherLines(text), Written(text, v);
    var key, image := WrittenBegins(text, v);
    WrittenStarts(rest, v);
    if KeyOf(line).None? {
      UnpinnedIsKept(line, w);
      assert Newline(line) == line ==> line == "\n";
    } else {
      NewlineHasNoKey();
      PinnedFirstLine(key, image, v, Newline(line), Written(rest, v));
      assert Pin(key, Tagged(image, v)) + "" == Pin(key, Tagged(image, v));
    }
  }

  lemma OpenPinBehind(text: string, v: string, w: string)
    requires text != "" && Readable(text) && SafeVersion(v) && IsOpen(text)
    requires BehindHolds(OtherLines(text), v, w)
    ensures BehindHolds(text, v, w)
  {
    hide Readable; hide FirstLine; hide SafeVersion; hide KeyOf; hide RewriteLine; hide IsBadPin; hide Contains;
    hide IsPinKey; hide Tagged; hide IsBreak; hide ImageOf;
    var line, rest, u := FirstLine(text), OtherLines(text), Written(text, v);
    var key, image := WrittenBegins(text, v);
    PinnedFirstLine(key, image, v, "", Written(rest, v));
    var pin, glue := Pin(key, Tagged(image, v)), FirstLine(Written(rest, v));
    assert pin + "" == pin && Newline(pin + glue) == Newline(glue);
    assert OtherLines(u) == OtherLines(Written(rest, v)) && FirstLine(u) == pin + glue;
    assert |Written(text, w)| > |Written(rest, w)|;
    hide Written; hide Newline; hide Pin; hide OtherLines; hide IsOpen;
  }

  // ----- When rewriting absorbs -----

  /** Rewriting to `v` and then to `w` is rewriting to `w`, and fails if that does. */
  predicate Absorbs(text: string, v: string, w: string) {
    match Rewritten(text, v)
    case None => Rewritten(text, w) == None
    case Some(updated) => Rewritten(updated, w) == Rewritten(text, w) != None
  }

  /** Every pinned line before the last ends in a newline, or a bare newline follows it. */
  ghost predicate PinsEnd(lines: seq<string>) {
    forall k | 0 <= k < |lines| - 1 && KeyOf(lines[k]).Some? :: Newline(lines[k]) == "\n" || lines[k + 1] == "\n"
  }

  lemma PinsEndFrom(first: string, tail: seq<string>)
    ensures PinsEnd([first] + tail) <==>
      (PinsEnd(tail) && (tail != [] && KeyOf(first).Some? && Newline(first) == "" ==> tail[0] == "\n"))
  {
    hide KeyOf;
    var lines := [first] + tail;
    assert Newline(first) == "" || Newline(first) == "\n";
    hide Newline;
    assert lines[0] == first && (tail != [] ==> lines[1] == tail[0]);
    if PinsEnd(lines) {
      forall k | 0 <= k < |tail| - 1 && KeyOf(tail[k]).Some? ensures Newline(tail[k]) == "\n" || tail[k + 1] == "\n" {
        assert lines[k + 1] == tail[k] && lines[k + 2] == tail[k + 1];
      }
    }
    if PinsEnd(tail) {
      forall k | 1 <= k < |lines| - 1 && KeyOf(lines[k]).Some?
        ensures Newline(lines[k]) == "\n" || lines[k + 1] == "\n"
      {
        assert lines[k] == tail[k - 1] && lines[k + 1] == tail[k];
      }
    }
  }

  lemma {:induction false} TightIsPinsEnd(text: string)
    ensures Tight(text) <==> PinsEnd(SplitKeepingEnds(text))
  {
    hide FirstLine; hide KeyOf; hide Newline; hide PinsEnd;
    if text == "" {
      assert PinsEnd([]) by { NoPinsEnd(); }
    } else {
      TightIsPinsEnd(OtherLines(text));
      PinsEndFrom(FirstLine(text), SplitKeepingEnds(OtherLines(text)));
    }
  }

  lemma NoPinsEnd()
    ensures PinsEnd([]) && PinsEndInNewlines([])
  {
  }

  lemma TightAbsorbs(text: string, v: string, w: string)
    requires SafeVersion(v) && (Readable(text) ==> Tight(text))
    ensures Absorbs(text, v, w)
  {
    hide Readable; hide Tight; hide Written; hide Rewritten; hide SafeVersion; hide Shrinks;
    RewrittenIsWritten(text, v);
    RewrittenIsWritten(text, w);
    if Readable(text) {
      Twice(text, v, w);
      RewrittenIsWritten(Written(text, v), w);
    }
  }

  function Ones(n: nat): string { if n == 0 then "" else "1" + Ones(n - 1) }

  lemma {:induction false} OnesAreDigits(n: nat)
    ensures |Ones(n)| == n && forall c | c in Ones(n) :: IsDigit(c)
  {
    if n > 0 { OnesAreDigits(n - 1); }
  }

  function LongVersion(n: nat): string { "1.1.1" + Ones(n) }

  lemma LongVersionIsSemver(n: nat)
    ensures IsSemver(LongVersion(n)) && |LongVersion(n)| > n
  {
    OnesAreDigits(n);
    var v := LongVersion(n);
    assert v[..1] == "1" && v[2..3] == "1" && v[4..] == "1" + Ones(n);
    assert v[1] == v[3] == '.';
  }

  /** Where a line joins a pin, a version too long for the text shows that the two rewritings differ. */
  lemma JoinedLinesShow(text: string, w: string) returns (v: string)
    requires Readable(text) && !Tight(text)
    ensures IsSemver(v) && !Absorbs(text, v, w)
  {
    hide Readable; hide Tight; hide Written; hide Rewritten; hide SafeVersion; hide IsSemver; hide LongVersion;
    v := LongVersion(|Written(text, w)|);
    LongVersionIsSemver(|Written(text, w)|);
    SemverIsSafe(v);
    RewrittenIsWritten(text, v);
    RewrittenIsWritten(text, w);
    Twice(text, v, w);
    RewrittenIsWritten(Written(text, v), w);
  }

  /** Some image pin is invalid, or every pinned line before the last ends in a newline or a bare one follows it. */
  ghost predicate NothingJoins(lines: seq<string>) {
    (exists raw :: raw in lines && IsBadPin(raw)) || PinsEnd(lines)
  }

  /**
   Rewriting absorbs if and only if nothing is rewritten, as some image pin is invalid, or no line
   joins a pin: for the versions that the script accepts, and no less for all safe ones.
   */
  lemma AbsorbsIff(text: string)
    ensures (forall v, w | IsSemver(v) && IsSemver(w) :: Absorbs(text, v, w)) <==> NothingJoins(SplitKeepingEnds(text))
    ensures (forall v, w | SafeVersion(v) && SafeVersion(w) :: Absorbs(text, v, w)) <==>
      NothingJoins(SplitKeepingEnds(text))
  {
    hide Absorbs; hide Tight; hide SafeVersion; hide IsSemver; hide IsBadPin; hide PinsEnd; hide SplitKeepingEnds;
    hide LongVersion;
    TightIsPinsEnd(text);
    forall v | IsSemver(v) ensures SafeVersion(v) { SemverIsSafe(v); }
    if Readable(text) && !Tight(text) {
      LongVersionIsSemver(0);
      var v := JoinedLinesShow(text, LongVersion(0));
    } else {
      forall v, w | SafeVersion(v) && SafeVersion(w) ensures Absorbs(text, v, w) {
        TightAbsorbs(text, v, w);
      }
    }
  }

  // ----- What a rewritten file says -----

  /** The new line keeps its key and its image, and pins the version; a line without a key is untouched. */
  predicate Repinned(raw: string, updated: string, version: string) {
    && KeyOf(updated) == KeyOf(raw)
    && (KeyOf(raw).None? ==> updated == raw)
    && (KeyOf(raw).Some? ==> ImageOf(updated) == ImageOf(raw) && VersionOf(updated) == version)
  }

  /** How the lines of a rewritten file relate to the lines it had. */
  ghost predicate AllRepinned(lines: seq<string>, updated: seq<string>, version: string) {
    |updated| == |lines| && forall k | 0 <= k < |lines| :: Repinned(lines[k], updated[k], version)
  }

  /** Every pinned line before the last ends in a newline. */
  ghost predicate PinsEndInNewlines(lines: seq<string>) {
    forall k | 0 <= k < |lines| - 1 && KeyOf(lines[k]).Some? :: Newline(lines[k]) == "\n"
  }

  lemma PinsEndInNewlinesFrom(first: string, tail: seq<string>)
    ensures PinsEndInNewlines([first] + tail) <==>
      (PinsEndInNewlines(tail) && (tail != [] && KeyOf(first).Some? ==> Newline(first) == "\n"))
  {
    hide KeyOf; hide Newline;
    var lines := [first] + tail;
    assert lines[0] == first;
    if PinsEndInNewlines(lines) {
      forall k | 0 <= k < |tail| - 1 && KeyOf(tail[k]).Some? ensures Newline(tail[k]) == "\n" {
        assert lines[k + 1] == tail[k];
      }
    }
    if PinsEndInNewlines(tail) {
      forall k | 1 <= k < |lines| - 1 && KeyOf(lines[k]).Some? ensures Newline(lines[k]) == "\n" {
        assert lines[k] == tail[k - 1];
      }
    }
  }

  lemma LinesFrom(text: string)
    requires text != ""
    ensures var lines, tail := SplitKeepingEnds(text), SplitKeepingEnds(OtherLines(text));
      && lines == [FirstLine(text)] + tail && (tail == [] <==> OtherLines(text) == "")
      && (PinsEndInNewlines(lines) <==> PinsEndInNewlines(tail) && !IsOpen(text))
  {
    hide FirstLine; hide KeyOf; hide PinsEndInNewlines;
    assert Newline(FirstLine(text)) == "" || Newline(FirstLine(text)) == "\n";
    hide Newline;
    PinsEndInNewlinesFrom(FirstLine(text), SplitKeepingEnds(OtherLines(text)));
  }

  lemma AllRepinnedFrom(line: string, first: string, lines: seq<string>, updated: seq<string>, version: string)
    requires AllRepinned(lines, updated, version) && Repinned(line, first, version)
    ensures AllRepinned([line] + lines, [first] + updated, version)
  {
    hide Repinned;
  }

  /** Rewriting merges lines exactly where a pinned line before the last does not end in a newline. */
  lemma {:induction false} WrittenLines(text: string, version: string)
    requires Readable(text) && SafeVersion(version)
    ensures var lines, updated := SplitKeepingEnds(text), SplitKeepingEnds(Written(text, version));
      && |updated| <= |lines| && (|updated| == |lines| <==> PinsEndInNewlines(lines))
      && (PinsEndInNewlines(lines) ==> AllRepinned(lines, updated, version))
  {
    if text != "" {
      hide Readable; hide FirstLine; hide SafeVersion; hide PinsEndInNewlines; hide SplitKeepingEnds; hide Repinned;
      hide Written; hide AllRepinned; hide IsOpen;
      var rest, u := OtherLines(text), Written(text, version);
      var tail, tail' := SplitKeepingEnds(rest), SplitKeepingEnds(Written(rest, version));
      ReadableFirst(text);
      WrittenLines(rest, version);
      WrittenStarts(text, version);
      WrittenStarts(rest, version);
      LinesFrom(text);
      LinesFrom(u);
      FirstWrittenLine(text, version);
      if IsOpen(text) {
        LinesFrom(Written(rest, version));
      } else if PinsEndInNewlines(tail) {
        AllRepinnedFrom(FirstLine(text), FirstLine(u), tail, tail', version);
      }
    }
  }

  /** The first line of the rewritten text: the pin line, or the line as it was, unless something joins it. */
  lemma FirstWrittenLine(text: string, version: string)
    requires text != "" && Readable(text) && SafeVersion(version) && Written(text, version) != ""
    ensures var u, ur := Written(text, version), Written(OtherLines(text), version);
      if IsOpen(text) then ur != "" && OtherLines(u) == OtherLines(ur)
      else OtherLines(u) == ur && Repinned(FirstLine(text), FirstLine(u), version)
  {
    hide Readable; hide FirstLine; hide SafeVersion; hide KeyOf; hide RewriteLine; hide Pin;
    hide ImageOf; hide VersionOf; hide IsPinKey; hide Tagged; hide IsBreak;
    var line, rest := FirstLine(text), OtherLines(text);
    var key, image := WrittenBegins(text, version);
    WrittenStarts(rest, version);
    if KeyOf(line).Some? {
      PinnedFirstLine(key, image, version, Newline(line), Written(rest, version));
      PinRewrites(key, image, version, Newline(line), version);
      assert Pin(key, Tagged(image, version)) + "" == Pin(key, Tagged(image, version));
    }
  }

  /**
   A rewritten file has as many lines as it had if and only if every pinned line before the last ends
   in a newline. Then the lines without a pin are untouched, and each pin keeps its key and its image
   name and now says the version.
   */
  lemma RewritingRepins(text: string, version: string)
    requires SafeVersion(version) && Rewritten(text, version).Some?
    ensures var lines, updated := SplitKeepingEnds(text), SplitKeepingEnds(Rewritten(text, version).value);
      && (|updated| == |lines| <==> PinsEndInNewlines(lines))
      && (PinsEndInNewlines(lines) ==> AllRepinned(lines, updated, version))
  {
    hide Rewritten; hide Readable; hide Written; hide SafeVersion; hide AllRepinned; hide PinsEndInNewlines;
    hide SplitKeepingEnds;
    RewrittenIsWritten(text, version);
    WrittenLines(text, version);
  }

  // ----- A file that a reader leaves as it is -----

  /** A form feed, which reading a file leaves alone, ends the pin of this lock; the rest joins it and is lost. */
  lemma FormFeedsJoinLines(w: string) returns (v: string)
    ensures IsSemver(v) && !Absorbs("engine_version: 1\U{0c}x", v, w)
  {
    var text, head := "engine_version: 1\U{0c}x", "engine_version: 1\U{0c}";
    FormFeedLines(text, head);
    PinsAndPlain(head);
    hide SplitKeepingEnds; hide KeyOf; hide IsBadPin; hide Readable; hide Absorbs; hide Tight; hide IsSemver;
    TightIsPinsEnd(text);
    assert [head, "x"][0] == head && [head, "x"][1] == "x";
    assert Readable(text) by { ReadablePair(text, head, "x"); }
    v := JoinedLinesShow(text, w);
  }

  lemma FormFeedLines(text: string, head: string)
    requires text == "engine_version: 1\U{0c}x" && head == "engine_version: 1\U{0c}"
    ensures SplitKeepingEnds(text) == [head, "x"]
  {
    BreakAt(text, 17);
    BreakAt("x", 1);
    assert text[..18] == head && text[18..] == "x";
    assert FirstLine("x") == "x" && OtherLines("x") == "";
  }

  lemma ReadablePair(text: string, first: string, second: string)
    requires SplitKeepingEnds(text) == [first, second] && !IsBadPin(first) && !IsBadPin(second)
    ensures Readable(text)
  {
    hide IsBadPin; hide SplitKeepingEnds;
  }

  lemma PinsAndPlain(head: string)
    requires head == "engine_version: 1\U{0c}"
    ensures KeyOf(head) == Some("engine_version") && Newline(head) == "" && !IsBadPin(head)
    ensures !IsBadPin("x") && "x" != "\n"
  {
    assert !IsLineEnd(head[17]) && TrimRight(IsLineEnd, head) == head;
    assert head[..15] == "engine_version:";
    NotAnImageKey("engine_version");
    assert !IsLineEnd("x"[0]) && TrimRight(IsLineEnd, "x") == "x";
    forall k | k in IMAGE_KEYS ensures !StartsWith("x", k + ":") {}
    NoKey(IMAGE_KEYS, "x");
  }
}
