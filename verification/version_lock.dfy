/**
 Rewriting the pins of a `versions.lock` file to one version.
 */
module VersionLock {
  import opened Text
  import opened Lines

  const IMAGE_KEYS := ["operator_image", "corpus_image", "portal_image", "worker_image"]

  predicate IsLineEnd(c: char) { c == '\r' || c == '\n' }

  function FirstKey(keys: seq<string>, line: string): Option<string> {
    if keys == [] then None
    else if StartsWith(line, keys[0] + ":") then Some(keys[0])
    else FirstKey(keys[1..], line)
  }

  /** What follows the first colon, if there is one. */
  function AfterColon(line: string): string {
    if line == "" then "" else if line[0] == ':' then line[1..] else AfterColon(line[1..])
  }

  function LastColon(s: string): (at: int)
    ensures -1 <= at < |s| && (at >= 0 ==> s[at] == ':')
    ensures forall k | at < k < |s| :: s[k] != ':'
  {
    if s == "" then -1 else if s[|s| - 1] == ':' then |s| - 1 else LastColon(s[..|s| - 1])
  }

  /** The pinned image, without quotes and with its tag. */
  function ImageRef(line: string): string { Trim(IsQuote, Strip(AfterColon(line))) }

  function Newline(raw: string): string {
    if raw != "" && raw[|raw| - 1] == '\n' then "\n" else ""
  }

  function Pin(key: string, value: string): string { key + ": '" + value + "'" }

  /** One line with its pin rewritten; nothing where the engine exits over an invalid image pin. */
  function RewriteLine(raw: string, version: string): Option<string> {
    var newline := Newline(raw);
    var line := TrimRight(IsLineEnd, raw);
    if StartsWith(line, "engine_version:") then Some(Pin("engine_version", version) + newline)
    else if StartsWith(line, "chart_version:") then Some(Pin("chart_version", version) + newline)
    else match FirstKey(IMAGE_KEYS, line)
      case None => Some(raw)
      case Some(key) =>
        var ref := ImageRef(line);
        var at := LastColon(ref);
        if at <= 0 then None else Some(Pin(key, ref[..at] + ":" + version) + newline)
  }

  function RewriteLines(lines: seq<string>, version: string): Option<seq<string>> {
    if lines == [] then Some([])
    else
      var first, rest := RewriteLine(lines[0], version), RewriteLines(lines[1..], version);
      if first.None? || rest.None? then None else Some([first.value] + rest.value)
  }

  function Rewritten(text: string, version: string): Option<string> {
    var lines := RewriteLines(SplitKeepingEnds(text), version);
    if lines.None? then None else Some(Concat(lines.value))
  }

  function Behind(lines: seq<string>, rest: Option<seq<string>>): Option<seq<string>> {
    if rest.None? then None else Some(lines + rest.value)
  }

  lemma RewriteStep(rawLines: seq<string>, i: nat, lines: seq<string>, version: string)
    requires i < |rawLines|
    ensures var first, rest := RewriteLine(rawLines[i], version), RewriteLines(rawLines[i + 1..], version);
      Behind(lines, RewriteLines(rawLines[i..], version)) ==
        if first.None? then None else Behind(lines + [first.value], rest)
  {
    hide RewriteLine;
    assert rawLines[i..][1..] == rawLines[i + 1..];
    var first, rest := RewriteLine(rawLines[i], version), RewriteLines(rawLines[i + 1..], version);
    if first.Some? && rest.Some? {
      assert lines + ([first.value] + rest.value) == (lines + [first.value]) + rest.value;
    }
  }

  method RewriteLock(text: string, version: string) returns (updated: Option<string>)
    ensures updated == Rewritten(text, version)
  {
    hide Strip; hide Trim; hide LastColon; hide AfterColon; hide FirstKey; hide SplitKeepingEnds; hide TrimRight;
    var rawLines := SplitKeepingEnds(text);
    var lines: seq<string> := [];
    assert rawLines[0..] == rawLines && forall rest: seq<string> :: lines + rest == rest;
    for i := 0 to |rawLines|
      invariant RewriteLines(rawLines, version) == Behind(lines, RewriteLines(rawLines[i..], version))
    {
      var raw := rawLines[i];
      RewriteStep(rawLines, i, lines, version);
      var newline := if raw != "" && raw[|raw| - 1] == '\n' then "\n" else "";
      var line := TrimRight(IsLineEnd, raw);
      if StartsWith(line, "engine_version:") {
        lines := lines + ["engine_version" + ": '" + version + "'" + newline];
        continue;
      }
      if StartsWith(line, "chart_version:") {
        lines := lines + ["chart_version" + ": '" + version + "'" + newline];
        continue;
      }
      var key := FirstKey(IMAGE_KEYS, line);
      if key.Some? {
        var imageRef := Trim(IsQuote, Strip(AfterColon(line)));
        var at := LastColon(imageRef);
        if at <= 0 {
          return None;
        }
        lines := lines + [key.value + ": '" + (imageRef[..at] + ":" + version) + "'" + newline];
        continue;
      }
      lines := lines + [raw];
    }
    assert rawLines[|rawLines|..] == [] && lines + [] == lines;
    updated := Some(Concat(lines));
  }

  /** A version as it may stand in a lock file. */
  predicate SafeVersion(version: string) {
    NoBreaks(version) && ':' !in version && '\'' !in version && '\"' !in version
  }

  predicate IsDigit(c: char) { '0' <= c <= '9' }

  predicate IsNumber(s: string) {
    s != "" && forall c | c in s :: IsDigit(c)
  }

  /** `[0-9A-Za-z.-]` */
  predicate IsTagChar(c: char) {
    IsDigit(c) || 'A' <= c <= 'Z' || 'a' <= c <= 'z' || c == '.' || c == '-'
  }

  predicate IsTag(s: string) {
    forall c | c in s :: IsTagChar(c)
  }

  /** A patch number, or one with a pre-release tag behind a hyphen. */
  predicate IsPatch(s: string) {
    IsNumber(s) || exists k | 0 <= k < |s| - 1 :: s[k] == '-' && IsNumber(s[..k]) && IsTag(s[k + 1..])
  }

  /** What the script accepts as a version, with ASCII digits. */
  predicate IsSemver(s: string) {
    exists i, j | 0 <= i < j < |s| ::
      s[i] == s[j] == '.' && IsNumber(s[..i]) && IsNumber(s[i + 1..j]) && IsPatch(s[j + 1..])
  }

  lemma JoinTags(s: string, k: nat)
    requires k < |s| && IsTag(s[..k]) && IsTagChar(s[k]) && IsTag(s[k + 1..])
    ensures IsTag(s)
  {
    hide IsTagChar;
    assert s == s[..k] + ([s[k]] + s[k + 1..]);
  }

  lemma SemverIsSafe(s: string)
    requires IsSemver(s)
    ensures SafeVersion(s)
  {
    var i, j :| 0 <= i < j < |s|
      && s[i] == s[j] == '.' && IsNumber(s[..i]) && IsNumber(s[i + 1..j]) && IsPatch(s[j + 1..]);
    hide IsSemver; hide SafeVersion; hide IsTag;
    PatchIsTag(s[j + 1..]);
    hide IsPatch;
    NumberIsTag(s[..i]);
    NumberIsTag(s[i + 1..j]);
    assert s[..j][..i] == s[..i] && s[..j][i + 1..] == s[i + 1..j];
    JoinTags(s[..j], i);
    JoinTags(s, j);
    TagIsSafe(s);
  }

  lemma NumberIsTag(s: string)
    requires IsNumber(s)
    ensures IsTag(s)
  {
  }

  lemma PatchIsTag(s: string)
    requires IsPatch(s)
    ensures IsTag(s)
  {
    hide IsTag; hide IsNumber;
    if IsNumber(s) {
      NumberIsTag(s);
    } else {
      var k :| 0 <= k < |s| - 1 && s[k] == '-' && IsNumber(s[..k]) && IsTag(s[k + 1..]);
      NumberIsTag(s[..k]);
      JoinTags(s, k);
    }
  }

  lemma TagIsSafe(s: string)
    requires IsTag(s)
    ensures SafeVersion(s)
  {
    assert forall i | 0 <= i < |s| :: s[i] in s;
  }

  // ----- One line rewritten twice -----

  lemma TrimRightOfProper(body: string, newline: string)
    requires NoBreaks(body) && newline in ["", "\n", "\r", "\r\n"]
    ensures TrimRight(IsLineEnd, body + newline) == body
  {
    assert body != "" ==> !IsLineEnd(body[|body| - 1]) by { assert body != "" ==> !IsBreak(body[|body| - 1]); }
    assert TrimRight(IsLineEnd, body) == body;
    var s := body + newline;
    if |newline| == 0 {
      assert s == body;
    } else if |newline| == 1 {
      assert s[..|s| - 1] == body;
    } else {
      assert s[..|s| - 1][..|body|] == body && s[|s| - 1] == '\n' && s[..|s| - 1][|body|] == '\r';
    }
  }

  /** The first colon of a pin closes its key, whatever follows. */
  lemma {:induction false} PinKey(key: string, k: string, rest: string)
    requires ':' !in key && ':' !in k
    ensures StartsWith(key + ":" + rest, k + ":") <==> k == key
    ensures AfterColon(key + ":" + rest) == rest
  {
    var line := key + ":" + rest;
    KeyColon(key, rest);
    if k == key {
      assert line[..|k| + 1] == k + ":";
    } else if |k| + 1 <= |line| {
      var prefix, target := line[..|k| + 1], k + ":";
      assert forall i | 0 <= i <= |k| :: prefix[i] == line[i];
      assert line[|key|] == ':';
      if |k| < |key| {
        assert line[|k|] == key[|k|] && target[|k|] == ':';
      } else if |k| > |key| {
        assert target[|key|] == k[|key|];
      } else {
        var i :| 0 <= i < |k| && k[i] != key[i];
        assert target[i] == k[i] && prefix[i] == key[i];
      }
    }
  }

  lemma {:induction false} KeyColon(key: string, rest: string)
    requires ':' !in key
    ensures AfterColon(key + ":" + rest) == rest
  {
    var line := key + ":" + rest;
    if key == "" {
      assert line[1..] == rest;
    } else {
      assert line[1..] == key[1..] + ":" + rest;
      KeyColon(key[1..], rest);
    }
  }

  /** A pinned reference reads back without its quotes. */
  lemma PinnedRef(ref: string)
    requires Clean(IsQuote, ref)
    ensures Trim(IsQuote, Strip(" '" + ref + "'")) == ref
  {
    var quoted := "'" + ref + "'";
    var spaced := " " + quoted;
    assert " '" + ref + "'" == spaced;
    assert spaced[1..] == quoted && quoted[|quoted| - 1] == '\'';
    assert TrimLeft(IsSpace, spaced) == TrimLeft(IsSpace, quoted) == quoted;
    assert Strip(spaced) == quoted;
    Unquote(ref);
  }

  lemma Unquote(ref: string)
    requires Clean(IsQuote, ref)
    ensures Trim(IsQuote, "'" + ref + "'") == ref
  {
    var closed := ref + "'";
    var quoted := "'" + ref + "'";
    assert quoted[1..] == closed && closed[..|ref|] == ref;
    assert TrimLeft(IsQuote, quoted) == TrimLeft(IsQuote, closed);
    if ref == "" {
      assert closed == "'" && "'"[1..] == "";
    } else {
      assert closed[0] == ref[0];
      assert TrimRight(IsQuote, closed) == TrimRight(IsQuote, ref);
    }
  }

  // What a lock line says: its key, the image it names, and the version it pins.

  function KeyOf(raw: string): Option<string> {
    var line := TrimRight(IsLineEnd, raw);
    if StartsWith(line, "engine_version:") then Some("engine_version")
    else if StartsWith(line, "chart_version:") then Some("chart_version")
    else FirstKey(IMAGE_KEYS, line)
  }

  function ImageOf(raw: string): string {
    var ref := ImageRef(TrimRight(IsLineEnd, raw));
    if KeyOf(raw).Some? && KeyOf(raw).value in IMAGE_KEYS && LastColon(ref) > 0 then ref[..LastColon(ref)] else ""
  }

  function VersionOf(raw: string): string {
    var ref := ImageRef(TrimRight(IsLineEnd, raw));
    if KeyOf(raw).Some? && KeyOf(raw).value in IMAGE_KEYS && LastColon(ref) > 0 then ref[LastColon(ref) + 1..] else ref
  }

  predicate IsPinKey(key: string) {
    key == "engine_version" || key == "chart_version" || key in IMAGE_KEYS
  }

  lemma PinKeysHaveNoColon(key: string)
    requires IsPinKey(key)
    ensures ':' !in key && NoBreaks(key)
  {
  }

  lemma {:induction false} FirstKeyIsKey(keys: seq<string>, line: string)
    ensures FirstKey(keys, line).Some? ==> FirstKey(keys, line).value in keys
  {
    if keys != [] { FirstKeyIsKey(keys[1..], line); }
  }

  lemma {:induction false} FirstKeyOfPin(keys: seq<string>, key: string, rest: string)
    requires key in keys && ':' !in key && forall k | k in keys :: ':' !in k
    ensures FirstKey(keys, key + ":" + rest) == Some(key)
  {
    PinKey(key, keys[0], rest);
    assert keys[0] in keys && forall k | k in keys[1..] :: k in keys;
    if keys[0] != key { FirstKeyOfPin(keys[1..], key, rest); }
  }

  /** A line that opens with a key is read by that key. */
  lemma KeyIsRead(key: string, rest: string)
    requires IsPinKey(key)
    ensures var line := key + ":" + rest;
      && (StartsWith(line, "engine_version:") <==> key == "engine_version")
      && (StartsWith(line, "chart_version:") <==> key == "chart_version")
      && (key in IMAGE_KEYS ==> FirstKey(IMAGE_KEYS, line) == Some(key))
      && AfterColon(line) == rest
  {
    hide StartsWith; hide AfterColon;
    PinKeysHaveNoColon(key);
    PinKeysHaveNoColon("engine_version");
    PinKeysHaveNoColon("chart_version");
    PinKey(key, "engine_version", rest);
    PinKey(key, "chart_version", rest);
    assert "engine_version" + ":" == "engine_version:" && "chart_version" + ":" == "chart_version:";
    if key in IMAGE_KEYS {
      forall k | k in IMAGE_KEYS ensures ':' !in k { PinKeysHaveNoColon(k); }
      FirstKeyOfPin(IMAGE_KEYS, key, rest);
    }
  }

  lemma PinOpensWithKey(key: string, value: string)
    ensures Pin(key, value) == key + ":" + (" '" + value + "'")
  {
  }

  /** The value a version gets under a key: bare, or behind the image it tags. */
  function Tagged(image: string, version: string): string {
    if image == "" then version else image + ":" + version
  }

  /** What a pin line is read as. */
  lemma PinIsRead(key: string, value: string, newline: string)
    requires IsPinKey(key) && NoBreaks(value) && Clean(IsQuote, value) && (newline == "" || newline == "\n")
    ensures var line, raw := Pin(key, value), Pin(key, value) + newline;
      && TrimRight(IsLineEnd, raw) == line && Newline(raw) == newline
      && (StartsWith(line, "engine_version:") <==> key == "engine_version")
      && (StartsWith(line, "chart_version:") <==> key == "chart_version")
      && (key in IMAGE_KEYS ==> FirstKey(IMAGE_KEYS, line) == Some(key))
      && ImageRef(line) == value
  {
    hide Strip; hide TrimRight; hide Trim; hide AfterColon; hide StartsWith; hide Clean; hide FirstKey;
    PinKeysHaveNoColon(key);
    TrimRightOfProper(Pin(key, value), newline);
    PinOpensWithKey(key, value);
    KeyIsRead(key, " '" + value + "'");
    PinnedRef(value);
  }

  lemma {:induction false} NoKey(keys: seq<string>, line: string)
    requires forall k | k in keys :: !StartsWith(line, k + ":")
    ensures FirstKey(keys, line) == None
  {
    if keys != [] {
      assert keys[0] in keys && forall k | k in keys[1..] :: k in keys;
      NoKey(keys[1..], line);
    }
  }

  /** Only lines that open with one of six keys are rewritten. */
  lemma OtherLinesStay(raw: string, version: string)
    requires var line := TrimRight(IsLineEnd, raw);
      && !StartsWith(line, "engine_version:") && !StartsWith(line, "chart_version:")
      && !StartsWith(line, "operator_image:") && !StartsWith(line, "corpus_image:")
      && !StartsWith(line, "portal_image:") && !StartsWith(line, "worker_image:")
    ensures RewriteLine(raw, version) == Some(raw)
  {
    hide StartsWith; hide TrimRight;
    assert "operator_image" + ":" == "operator_image:" && "corpus_image" + ":" == "corpus_image:";
    assert "portal_image" + ":" == "portal_image:" && "worker_image" + ":" == "worker_image:";
    NoKey(IMAGE_KEYS, TrimRight(IsLineEnd, raw));
  }

  /** The space and the quotes around a value, on either side. */
  predicate IsPadding(spaces: string, quotes: string) {
    && (forall i | 0 <= i < |spaces| :: IsSpace(spaces[i]))
    && (forall i | 0 <= i < |quotes| :: IsQuote(quotes[i]))
  }

  lemma PaddedRef(key: string, before: string, opening: string, ref: string, closing: string, after: string)
    requires IsPinKey(key) && IsPadding(before, opening) && IsPadding(after, closing)
    requires Stripped(opening + ref + closing) && Clean(IsQuote, ref)
    ensures ImageRef(key + ":" + (before + (opening + ref + closing) + after)) == ref
  {
    hide Clean; hide TrimLeft; hide TrimRight;
    KeyIsRead(key, before + (opening + ref + closing) + after);
    TrimPadded(IsSpace, before, opening + ref + closing, after);
    TrimPadded(IsQuote, opening, ref, closing);
  }

  lemma ImageLine(raw: string, key: string, rest: string, version: string)
    requires key in IMAGE_KEYS && TrimRight(IsLineEnd, raw) == key + ":" + rest
    ensures var ref := ImageRef(key + ":" + rest);
      RewriteLine(raw, version) ==
      if LastColon(ref) <= 0 then None
      else Some(key + ": '" + (ref[..LastColon(ref)] + ":" + version) + "'" + Newline(raw))
  {
    hide TrimRight; hide LastColon; hide StartsWith; hide FirstKey; hide ImageRef; hide Newline; hide AfterColon;
    KeyIsRead(key, rest);
    ImageKeysAreOther(key);
  }

  /**
   An image pin, with any space and quotes around its value: what stands behind the last colon makes
   way for the version, and if nothing stands before it the pin is invalid.
   */
  lemma ImagePinIff(
      raw: string, key: string, before: string, opening: string, ref: string, closing: string, after: string,
      version: string, k: int)
    requires key in ["operator_image", "corpus_image", "portal_image", "worker_image"]
    requires IsPadding(before, opening) && IsPadding(after, closing)
    requires Stripped(opening + ref + closing) && Clean(IsQuote, ref)
    requires TrimRight(IsLineEnd, raw) == key + ":" + (before + (opening + ref + closing) + after)
    requires -1 <= k < |ref| && (k >= 0 ==> ref[k] == ':') && forall j | k < j < |ref| :: ref[j] != ':'
    ensures RewriteLine(raw, version).None? <==> k <= 0
    ensures k > 0 ==>
      var newline := if raw != "" && raw[|raw| - 1] == '\n' then "\n" else "";
      RewriteLine(raw, version) == Some(key + ": '" + (ref[..k] + ":" + version) + "'" + newline)
  {
    PaddedRef(key, before, opening, ref, closing, after);
    ImageLine(raw, key, before + (opening + ref + closing) + after, version);
    hide ImageRef; hide RewriteLine; hide TrimRight; hide LastColon; hide Clean; hide IsPadding;
    assert LastColon(ref) == k;
  }

  /** A pin line is read by its key, whatever version it carries. */
  lemma PinRewrites(key: string, image: string, v: string, newline: string, w: string)
    requires IsPinKey(key) && (image == "" <==> key !in IMAGE_KEYS)
    requires SafeVersion(v) && NoBreaks(image) && (newline == "" || newline == "\n")
    requires image != "" ==> !IsQuote(image[0])
    ensures RewriteLine(Pin(key, Tagged(image, v)) + newline, w) == Some(Pin(key, Tagged(image, w)) + newline)
    ensures var raw := Pin(key, Tagged(image, v)) + newline;
      KeyOf(raw) == Some(key) && ImageOf(raw) == image && VersionOf(raw) == v
  {
    hide Pin; hide TrimRight; hide ImageRef; hide FirstKey; hide LastColon; hide StartsWith; hide IsQuote;
    hide IsBreak; hide Newline;
    TaggedIsClean(image, v);
    var value := Tagged(image, v);
    hide Clean;
    PinIsRead(key, value, newline);
    if key in IMAGE_KEYS {
      ImageKeysAreOther(key);
      LastColonOfTag(image, v);
      assert value[..|image|] == image && value[|image| + 1..] == v;
    } else {
      VersionKeysDiffer();
    }
  }

  lemma VersionKeysDiffer()
    ensures "engine_version" != "chart_version"
  {
    assert |"engine_version"| != |"chart_version"|;
  }

  lemma ImageKeysAreOther(key: string)
    requires key in IMAGE_KEYS
    ensures key != "engine_version" && key != "chart_version"
  {
    assert key[|key| - 1] == 'e';
    assert "engine_version"[|"engine_version"| - 1] == 'n' && "chart_version"[|"chart_version"| - 1] == 'n';
  }

  lemma TaggedIsClean(image: string, version: string)
    requires (image == "" || !IsQuote(image[0])) && SafeVersion(version) && NoBreaks(image)
    ensures Clean(IsQuote, Tagged(image, version)) && NoBreaks(Tagged(image, version))
  {
    var value := Tagged(image, version);
    assert version != "" ==> version[0] in version && version[|version| - 1] in version;
    assert image != "" ==> value[|value| - 1] == if version == "" then ':' else version[|version| - 1];
  }

  lemma LastColonOfTag(image: string, version: string)
    requires ':' !in version
    ensures LastColon(image + ":" + version) == |image|
  {
    hide LastColon;
    var ref := image + ":" + version;
    assert ref[|image|] == ':';
    forall k | |image| < k < |ref| ensures ref[k] != ':' {
      NoColonAfter(image, version, k);
    }
  }

  lemma NoColonAfter(image: string, version: string, k: nat)
    requires ':' !in version && |image| < k <= |image| + |version|
    ensures (image + ":" + version)[k] != ':'
  {
    assert version[k - |image| - 1] in version;
  }

  /** At most the last character is a break. */
  predicate BreaksLast(s: string) {
    forall k | 0 <= k < |s| - 1 :: !IsBreak(s[k])
  }

  lemma LoneLineEnd(raw: string)
    requires raw != "" && FirstLine(raw) == raw
    ensures LineEnd(raw) == |raw|
  {
    hide LineEnd;
    assert |raw[..LineEnd(raw)]| == LineEnd(raw);
  }

  lemma TrimmedLine(raw: string)
    requires raw != "" && FirstLine(raw) == raw
    ensures BreaksLast(TrimRight(IsLineEnd, raw))
  {
    LoneLineEnd(raw);
    hide FirstLine; hide TrimRight;
    var e := NextBreak(raw, 0);
    var body := raw[..e];
    if e == |raw| {
      assert raw == body + "";
      TrimRightOfProper(body, "");
    } else if raw[e] == '\n' || raw[e] == '\r' {
      assert raw[e..] == if e + 1 == |raw| then [raw[e]] else "\r\n";
      assert raw == body + raw[e..];
      TrimRightOfProper(body, raw[e..]);
    } else {
      OtherEndStays(raw);
    }
  }

  lemma OtherEndStays(raw: string)
    requires raw != "" && !IsLineEnd(raw[|raw| - 1])
    ensures TrimRight(IsLineEnd, raw) == raw
  {
  }

  /** The key and image of a line that gets rewritten. */
  lemma LineToPin(raw: string) returns (key: string, image: string)
    requires raw != "" && FirstLine(raw) == raw
    ensures (KeyOf(raw) == None && forall version :: RewriteLine(raw, version) == Some(raw))
      || (KeyOf(raw).Some? && forall version :: RewriteLine(raw, version) == None)
      || (&& KeyOf(raw) == Some(key) && ImageOf(raw) == image
          && IsPinKey(key) && (image == "" <==> key !in IMAGE_KEYS)
          && NoBreaks(image) && (image != "" ==> !IsQuote(image[0]))
          && forall version :: RewriteLine(raw, version) == Some(Pin(key, Tagged(image, version)) + Newline(raw)))
  {
    hide Strip; hide TrimRight; hide Trim; hide AfterColon; hide LastColon; hide StartsWith; hide IsQuote;
    TrimmedLine(raw);
    var line := TrimRight(IsLineEnd, raw);
    key, image := "", "";
    if StartsWith(line, "engine_version:") {
      key := "engine_version";
      NotAnImageKey(key);
    } else if StartsWith(line, "chart_version:") {
      key := "chart_version";
      NotAnImageKey(key);
    } else if FirstKey(IMAGE_KEYS, line).Some? {
      FirstKeyIsKey(IMAGE_KEYS, line);
      key := FirstKey(IMAGE_KEYS, line).value;
      var ref := ImageRef(line);
      var at := LastColon(ref);
      if at > 0 {
        image := ref[..at];
        RefHasNoBreaks(line);
        TrimFixes(IsQuote, Strip(AfterColon(line)));
        CleanStart(ref);
      }
    }
  }

  lemma NotAnImageKey(key: string)
    requires key == "engine_version" || key == "chart_version"
    ensures key !in IMAGE_KEYS
  {
    if key in IMAGE_KEYS { ImageKeysAreOther(key); }
  }

  lemma CleanStart(ref: string)
    requires ref != "" && Clean(IsQuote, ref)
    ensures !IsQuote(ref[0])
  {
  }

  lemma RefHasNoBreaks(line: string)
    requires BreaksLast(line)
    ensures NoBreaks(ImageRef(line))
  {
    AfterColonIsSuffix(line);
    var value := AfterColon(line);
    hide AfterColon;
    var lo, hi := TrimIsInfix(IsSpace, value);
    var stripped := Strip(value);
    assert forall k | 0 <= k < |stripped| :: stripped[k] == value[lo + k];
    assert stripped != "" ==> !IsBreak(stripped[|stripped| - 1]);
    hide IsBreak; hide IsSpace;
    var lo', hi' := TrimIsInfix(IsQuote, stripped);
  }

  lemma {:induction false} AfterColonIsSuffix(line: string)
    requires BreaksLast(line)
    ensures BreaksLast(AfterColon(line))
  {
    hide IsBreak;
    if line != "" && line[0] != ':' {
      AfterColonIsSuffix(line[1..]);
    }
  }

  // ----- A pin with text glued behind it -----

  /** Quotes and spaces go, and what is left is a beginning of the value that keeps every other character. */
  lemma GluedRef(value: string, kept: nat)
    requires kept < |value| && !IsQuote(value[0]) && !IsQuote(value[kept]) && !IsSpace(value[kept])
    ensures var ref := Trim(IsQuote, Strip(" '" + value));
      kept < |ref| <= |value| && ref == value[..|ref|]
  {
    var whole := " '" + value;
    var lo, hi := TrimIsInfix(IsSpace, whole);
    assert forall k | 0 <= k < |value| :: whole[2 + k] == value[k];
    assert whole[1] == '\'' && whole[0] == ' ' && hi > 2 + kept && lo <= 1;
    var stripped := Strip(whole);
    assert stripped[0] == whole[lo];
    assert lo == 1;
    assert forall k | 0 <= k < |stripped| :: stripped[k] == whole[1 + k];
    UnquotedPrefix(stripped, value, kept);
  }

  lemma UnquotedPrefix(stripped: string, value: string, kept: nat)
    requires 1 + kept < |stripped| <= 1 + |value| && stripped[0] == '\''
    requires forall k | 1 <= k < |stripped| :: stripped[k] == value[k - 1]
    requires !IsQuote(value[0]) && !IsQuote(value[kept])
    ensures var ref := Trim(IsQuote, stripped);
      kept < |ref| <= |value| && ref == value[..|ref|]
  {
    var lo, hi := TrimIsInfix(IsQuote, stripped);
    assert stripped[1] == value[0] && stripped[1 + kept] == value[kept];
    assert hi > 1 + kept && lo <= 1;
    assert stripped[lo..hi][0] == stripped[lo];
    assert lo == 1;
  }

  lemma TrimRightBehind(front: string, s: string)
    requires front != "" && !IsLineEnd(front[|front| - 1])
    ensures TrimRight(IsLineEnd, front + s) == front + TrimRight(IsLineEnd, s)
  {
    if s == "" {
      assert front + s == front;
    } else if IsLineEnd(s[|s| - 1]) {
      assert (front + s)[..|front + s| - 1] == front + s[..|s| - 1];
      TrimRightBehind(front, s[..|s| - 1]);
    }
  }

  /** The last colon behind a quoted tag lies in what is glued on, and then the tag is part of the image. */
  lemma ColonBehindTag(image: string, v: string, glue: string, ref: string)
    requires SafeVersion(v)
    requires var value := image + ":" + v + "'" + glue; |image| < |ref| <= |value| && ref == value[..|ref|]
    ensures var at := LastColon(ref);
      at >= |image| && (at == |image| ==> ref[..at] == image) && (at > |image| ==> Contains(ref[..at], v))
  {
    var value := image + ":" + v + "'" + glue;
    ColonIsBehind(image, v, glue);
    LastColonBehind(value, |image|, |image| + 1 + |v|, ref);
    var at := LastColon(ref);
    PrefixOfPrefix(value, |ref|, at);
    hide SafeVersion; hide LastColon; hide Contains;
    if at > |image| {
      GluedHas(image, v, glue, at);
    }
  }

  lemma PrefixOfPrefix(s: string, n: nat, m: nat)
    requires m <= n <= |s|
    ensures s[..n][..m] == s[..m]
  {
  }

  lemma GluedHas(image: string, v: string, glue: string, at: nat)
    requires |image| + 1 + |v| <= at <= |image| + 1 + |v| + 1 + |glue|
    ensures Contains((image + ":" + v + "'" + glue)[..at], v)
  {
    PrefixHas(image + ":", v, "'" + glue, at);
    assert image + ":" + v + ("'" + glue) == image + ":" + v + "'" + glue;
  }

  lemma LastColonBehind(value: string, first: nat, next: nat, ref: string)
    requires first < |ref| <= |value| && ref == value[..|ref|] && value[first] == ':'
    requires first < next < |value| && forall j | first < j <= next :: value[j] != ':'
    ensures LastColon(ref) == first || LastColon(ref) > next
  {
    hide LastColon;
    assert ref[first] == ':';
    assert LastColon(ref) >= 0 ==> value[LastColon(ref)] == ref[LastColon(ref)];
  }

  lemma PrefixHas(front: string, part: string, back: string, at: nat)
    requires |front + part| <= at <= |front + part + back|
    ensures Contains((front + part + back)[..at], part)
  {
    var back' := back[..at - |front + part|];
    assert (front + part + back)[..at] == front + part + back';
    assert part[0..0 + |part|] == part && IsAt(part, part, 0);
    ContainsInside(front, part, back', part);
  }

  lemma ColonIsBehind(image: string, v: string, glue: string)
    requires ':' !in v
    ensures var value := image + ":" + v + "'" + glue;
      && value[|image|] == ':' && value[..|image|] == image
      && forall j | |image| < j <= |image| + 1 + |v| :: value[j] != ':'
  {
    var value := image + ":" + v + "'" + glue;
    forall j | |image| < j <= |image| + 1 + |v| ensures value[j] != ':' {
      if j <= |image| + |v| {
        assert v[j - |image| - 1] in v;
      }
    }
  }

  /** A pin with text glued behind it loses that text, or takes its old version into the image. */
  lemma GluedPin(key: string, image: string, v: string, glue: string, w: string)
    requires IsPinKey(key) && (image == "" <==> key !in IMAGE_KEYS) && SafeVersion(v)
    requires image != "" ==> !IsQuote(image[0])
    ensures var raw := Pin(key, Tagged(image, v)) + glue;
      && KeyOf(raw) == Some(key) && RewriteLine(raw, w).Some?
      && (|| RewriteLine(raw, w) == Some(Pin(key, Tagged(image, w)) + Newline(glue))
          || Contains(RewriteLine(raw, w).value, v))
  {
    hide Strip; hide TrimRight; hide Trim; hide AfterColon; hide StartsWith; hide FirstKey; hide LastColon;
    hide SafeVersion;
    var pin := Pin(key, Tagged(image, v));
    var raw, glue' := pin + glue, TrimRight(IsLineEnd, glue);
    assert pin[|pin| - 1] == '\'';
    TrimRightBehind(pin, glue);
    assert Newline(raw) == Newline(glue);
    var rest := " '" + Tagged(image, v) + "'" + glue';
    assert pin + glue' == key + ":" + rest;
    KeyIsRead(key, rest);
    if key in IMAGE_KEYS {
      ImageKeysAreOther(key);
      var value := image + ":" + v + "'" + glue';
      assert rest == " '" + value && value[|image|] == ':' && value[0] == image[0];
      GluedRef(value, |image|);
      var ref := ImageRef(pin + glue');
      ColonBehindTag(image, v, glue', ref);
      if LastColon(ref) > |image| {
        hide Contains;
        PinHas(key, ref[..LastColon(ref)], w, Newline(raw), v);
      }
    } else {
      VersionKeysDiffer();
    }
  }

  lemma PinHas(key: string, image: string, w: string, newline: string, v: string)
    requires Contains(image, v)
    ensures Contains(Pin(key, image + ":" + w) + newline, v)
  {
    ContainsInside(key + ": '", image, ":" + w + "'" + newline, v);
    assert key + ": '" + image + (":" + w + "'" + newline) == Pin(key, image + ":" + w) + newline;
  }
}
