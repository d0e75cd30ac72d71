/**
 Rendering `{name}` placeholders one key after the other, and exactly when that is the same as
 replacing all of them at once.
 */
module Template {
  import opened Text

  // ----- What the engine does -----

  /** `s.replace(target, replacement)`: from the left, without overlaps. */
  function Replace(s: string, target: string, replacement: string): string
    requires target != ""
  {
    if s == "" then ""
    else if StartsWith(s, target) then replacement + Replace(s[|target|..], target, replacement)
    else [s[0]] + Replace(s[1..], target, replacement)
  }

  function Placeholder(name: string): string { "{" + name + "}" }

  /** A context is a dictionary in its iteration order. */
  type Context = seq<(string, string)>

  function ReplaceEach(s: string, context: Context): string {
    if context == [] then s
    else
      var last := context[|context| - 1];
      Replace(ReplaceEach(s, context[..|context| - 1]), Placeholder(last.0), last.1)
  }

  predicate LooksUnresolved(s: string) { '{' in s && '}' in s }

  /** The rendered text, or nothing where the engine raises. */
  function Rendered(template: string, context: Context): Option<string> {
    var result := ReplaceEach(template, context);
    if LooksUnresolved(result) then None else Some(result)
  }

  method RenderMappingValue(template: string, context: Context) returns (rendered: Option<string>)
    ensures rendered == Rendered(template, context)
  {
    var result := template;
    for i := 0 to |context|
      invariant result == ReplaceEach(template, context[..i])
    {
      var (key, value) := context[i];
      assert context[..i + 1][..i] == context[..i];
      result := Replace(result, "{" + key + "}", value);
    }
    assert context[..|context|] == context;
    rendered := if '{' in result && '}' in result then None else Some(result);
  }

  // ----- What it is meant to do -----

  datatype Segment = Lit(text: string) | Hole(name: string)

  function Show(segments: seq<Segment>): string {
    if segments == [] then ""
    else (match segments[0]
          case Lit(text) => text
          case Hole(name) => Placeholder(name)) + Show(segments[1..])
  }

  /** Every hole that the dictionary names becomes its value, all at once. */
  function Fill(segment: Segment, values: map<string, string>): Segment {
    if segment.Hole? && segment.name in values then Lit(values[segment.name]) else segment
  }

  function Substitute(segments: seq<Segment>, values: map<string, string>): seq<Segment> {
    seq(|segments|, i requires 0 <= i < |segments| => Fill(segments[i], values))
  }

  predicate BraceFree(s: string) { '{' !in s && '}' !in s }

  /** The literals lack one brace, and the names of the holes both. */
  predicate Lacks(segments: seq<Segment>, brace: char) {
    forall s | s in segments :: match s case Lit(text) => brace !in text case Hole(name) => BraceFree(name)
  }

  predicate Plain(segments: seq<Segment>) { Lacks(segments, '{') && Lacks(segments, '}') }

  /** What the dictionary says, whatever its order. */
  function AsMap(context: Context): map<string, string> {
    if context == [] then map[]
    else AsMap(context[..|context| - 1])[context[|context| - 1].0 := context[|context| - 1].1]
  }

  ghost predicate IsDictionary(context: Context) {
    forall i, j | 0 <= i < j < |context| :: context[i].0 != context[j].0
  }

  predicate PlainKeys(values: map<string, string>) {
    forall name | name in values :: BraceFree(name)
  }

  predicate ValuesLack(values: map<string, string>, brace: char) {
    forall name | name in values :: brace !in values[name]
  }

  /** Not both braces occur among the values, though one may hold the opening and another the closing kind only. */
  predicate Harmless(values: map<string, string>) {
    ValuesLack(values, '{') || ValuesLack(values, '}')
  }

  predicate AllNamed(segments: seq<Segment>, values: map<string, string>) {
    forall s | s in segments && s.Hole? :: s.name in values
  }

  /** The template with its holes filled in, or nothing if some hole names no key. */
  function Filled(segments: seq<Segment>, values: map<string, string>): Option<string> {
    if AllNamed(segments, values) then Some(Show(Substitute(segments, values))) else None
  }

  // ----- One replacement -----

  predicate IsBrace(c: char) { c == '{' || c == '}' }

  /** The first brace, if there is any, is an opening one. */
  predicate OpensFirst(s: string) {
    s == "" || s[0] == '{' || (s[0] != '}' && OpensFirst(s[1..]))
  }

  lemma {:induction false} OpensFirstBehind(text: string, rest: string)
    requires '}' !in text && OpensFirst(rest)
    ensures OpensFirst(text + rest)
  {
    if text == "" {
      assert text + rest == rest;
    } else {
      assert (text + rest)[1..] == text[1..] + rest;
      OpensFirstBehind(text[1..], rest);
    }
  }

  lemma {:induction false} ShownOpensFirst(segments: seq<Segment>)
    requires Lacks(segments, '}')
    ensures OpensFirst(Show(segments))
  {
    if segments != [] {
      assert segments[0] in segments && forall s | s in segments[1..] :: s in segments;
      ShownOpensFirst(segments[1..]);
      if segments[0].Lit? {
        OpensFirstBehind(segments[0].text, Show(segments[1..]));
      }
    }
  }

  /** The nearest brace behind it tells a stray opening brace from that of a placeholder. */
  lemma {:induction false} StrayBraceStarts(rest: string, name: string)
    requires OpensFirst(rest) && BraceFree(name)
    ensures !StartsWith(rest, name + "}")
  {
    if name == "" {
      assert name + "}" == "}";
    } else if rest != "" && rest[0] == name[0] {
      StrayBraceStarts(rest[1..], name[1..]);
      assert (name + "}")[1..] == name[1..] + "}";
      if StartsWith(rest, name + "}") { PrefixTail(rest, name + "}"); }
    } else if rest != "" {
      DifferingIsNoPrefix(rest, name + "}", 0);
    }
  }

  lemma PrefixTail(s: string, prefix: string)
    requires s != "" && prefix != "" && StartsWith(s, prefix)
    ensures StartsWith(s[1..], prefix[1..])
  {
    assert s[1..][..|prefix| - 1] == s[..|prefix|][1..];
  }

  /** A replacement passes over text without an opening brace, or without a closing one before the next opening one. */
  lemma {:induction false} ReplacePasses(text: string, rest: string, name: string, value: string)
    requires BraceFree(name) && ('{' !in text || ('}' !in text && OpensFirst(rest)))
    ensures Replace(text + rest, Placeholder(name), value) == text + Replace(rest, Placeholder(name), value)
  {
    var target := Placeholder(name);
    if text == "" {
      assert text + rest == rest;
    } else {
      var s := text + rest;
      assert s[0] == text[0] && s[1..] == text[1..] + rest;
      assert !StartsWith(s, target) by { PassesOne(text, rest, name); }
      ReplacePasses(text[1..], rest, name, value);
      assert text == [text[0]] + text[1..];
    }
  }

  lemma PassesOne(text: string, rest: string, name: string)
    requires text != "" && BraceFree(name) && ('{' !in text || ('}' !in text && OpensFirst(rest)))
    ensures !StartsWith(text + rest, Placeholder(name))
  {
    var s, target := text + rest, Placeholder(name);
    assert s[0] == text[0] && s[1..] == text[1..] + rest;
    assert target[0] == '{' && target[1..] == name + "}";
    if StartsWith(s, target) {
      PrefixTail(s, target);
      assert s[0] == target[0];
      OpensFirstBehind(text[1..], rest);
      StrayBraceStarts(s[1..], name);
    }
  }

  lemma OwnHoleStarts(name: string, rest: string)
    ensures StartsWith(Placeholder(name) + rest, Placeholder(name))
    ensures (Placeholder(name) + rest)[|Placeholder(name)|..] == rest
  {
  }

  /** The first closing brace tells two placeholders apart. */
  lemma OtherHoleDiffers(hole: string, name: string, rest: string)
    requires BraceFree(hole) && BraceFree(name) && hole != name
    ensures !StartsWith(Placeholder(hole) + rest, Placeholder(name))
  {
    var s, target := Placeholder(hole) + rest, Placeholder(name);
    if |hole| < |name| {
      DifferingIsNoPrefix(s, target, |hole| + 1);
    } else if |name| < |hole| {
      DifferingIsNoPrefix(s, target, |name| + 1);
    } else {
      var k :| 0 <= k < |hole| && hole[k] != name[k];
      DifferingIsNoPrefix(s, target, k + 1);
    }
  }

  lemma DifferingIsNoPrefix(s: string, prefix: string, k: nat)
    requires k < |s| && k < |prefix| && s[k] != prefix[k]
    ensures !StartsWith(s, prefix)
  {
    assert |prefix| <= |s| ==> s[..|prefix|][k] == s[k];
  }

  lemma {:induction false} ReplaceFillsHole(segments: seq<Segment>, brace: char, name: string, value: string)
    requires IsBrace(brace) && Lacks(segments, brace) && BraceFree(name) && brace !in value
    ensures Replace(Show(segments), Placeholder(name), value) == Show(Substitute(segments, map[name := value]))
  {
    var values := map[name := value];
    if segments != [] {
      var first, rest := segments[0], segments[1..];
      assert first in segments && forall s | s in rest :: s in segments;
      ReplaceFillsHole(rest, brace, name, value);
      assert Substitute(segments, values) == [Fill(first, values)] + Substitute(rest, values);
      if brace == '}' { ShownOpensFirst(rest); }
      hide Replace; hide Placeholder; hide OpensFirst; hide Substitute;
      match first {
        case Lit(text) => ReplacePasses(text, Show(rest), name, value);
        case Hole(hole) =>
          if hole == name {
            OwnHoleIsReplaced(name, Show(rest), value);
          } else {
            OtherHoleStays(hole, Show(rest), name, value);
          }
      }
    }
  }

  lemma SubstituteLacks(segments: seq<Segment>, brace: char, values: map<string, string>)
    requires Lacks(segments, brace) && ValuesLack(values, brace)
    ensures Lacks(Substitute(segments, values), brace)
  {
    hide BraceFree;
    var filled := Substitute(segments, values);
    forall i | 0 <= i < |filled| ensures match filled[i] case Lit(text) => brace !in text case Hole(n) => BraceFree(n) {
      assert segments[i] in segments;
    }
  }

  lemma OwnHoleIsReplaced(name: string, rest: string, value: string)
    ensures Replace(Placeholder(name) + rest, Placeholder(name), value) ==
      value + Replace(rest, Placeholder(name), value)
  {
    OwnHoleStarts(name, rest);
  }

  lemma OtherHoleStays(hole: string, rest: string, name: string, value: string)
    requires BraceFree(hole) && BraceFree(name) && hole != name
    ensures Replace(Placeholder(hole) + rest, Placeholder(name), value) ==
      Placeholder(hole) + Replace(rest, Placeholder(name), value)
  {
    var s := Placeholder(hole) + rest;
    OtherHoleDiffers(hole, name, rest);
    assert s[1..] == (hole + "}") + rest;
    ReplacePasses(hole + "}", rest, name, value);
    assert Placeholder(hole) == [s[0]] + (hole + "}");
  }

  // ----- All replacements -----

  lemma AsMapKeys(context: Context)
    ensures forall k :: k in AsMap(context) <==> exists i :: 0 <= i < |context| && context[i].0 == k
  {
    if context != [] {
      AsMapKeys(context[..|context| - 1]);
    }
  }

  lemma SubstituteOneMore(segments: seq<Segment>, values: map<string, string>, name: string, value: string)
    requires name !in values
    ensures Substitute(Substitute(segments, values), map[name := value]) == Substitute(segments, values[name := value])
  {
  }

  /** Replacing key after key is replacing all keys at once, where one kind of brace is lacking. */
  lemma {:induction false} ReplaceEachFills(segments: seq<Segment>, brace: char, context: Context)
    requires IsBrace(brace) && Lacks(segments, brace) && IsDictionary(context)
    requires PlainKeys(AsMap(context)) && ValuesLack(AsMap(context), brace)
    ensures ReplaceEach(Show(segments), context) == Show(Substitute(segments, AsMap(context)))
    ensures Lacks(Substitute(segments, AsMap(context)), brace)
  {
    if context == [] {
      assert Substitute(segments, map[]) == segments;
    } else {
      var n := |context| - 1;
      var earlier, last := context[..n], context[n];
      AsMapKeys(earlier);
      var values := AsMap(earlier);
      assert last.0 !in values;
      assert forall k | k in values :: k in AsMap(context) && AsMap(context)[k] == values[k];
      assert last.0 in AsMap(context) && AsMap(context)[last.0] == last.1;
      ReplaceEachFills(segments, brace, earlier);
      SubstituteLacks(segments, brace, AsMap(context));
      ReplaceFillsHole(Substitute(segments, values), brace, last.0, last.1);
      SubstituteOneMore(segments, values, last.0, last.1);
    }
  }

  /** Replacing key after key is replacing all keys at once. */
  lemma SequentialIsSimultaneous(segments: seq<Segment>, context: Context)
    requires Plain(segments) && IsDictionary(context) && PlainKeys(AsMap(context)) && Harmless(AsMap(context))
    ensures ReplaceEach(Show(segments), context) == Show(Substitute(segments, AsMap(context)))
    ensures var filled := Substitute(segments, AsMap(context));
      LooksUnresolved(Show(filled)) <==> exists s :: s in filled && s.Hole?
  {
    hide AsMap; hide IsDictionary; hide ReplaceEach; hide Show; hide Substitute;
    var brace := if ValuesLack(AsMap(context), '{') then '{' else '}';
    assert Lacks(segments, brace);
    ReplaceEachFills(segments, brace, context);
    OnlyHolesHave(Substitute(segments, AsMap(context)), brace);
  }

  lemma {:induction false} OnlyHolesHave(segments: seq<Segment>, brace: char)
    requires IsBrace(brace) && Lacks(segments, brace)
    ensures LooksUnresolved(Show(segments)) <==> exists s :: s in segments && s.Hole?
    ensures brace in Show(segments) <==> exists s :: s in segments && s.Hole?
  {
    if segments != [] {
      var first, rest := segments[0], segments[1..];
      assert first in segments && forall s :: s in segments <==> s == first || s in rest;
      OnlyHolesHave(rest, brace);
      assert first.Hole? ==> Placeholder(first.name)[0] == '{' && Placeholder(first.name)[|first.name| + 1] == '}';
    }
  }

  /**
   For a template of brace-free literals and holes, brace-free keys and harmless values the engine
   raises exactly when some hole names no key, and otherwise fills in every hole at once.
   */
  lemma RendersAllAtOnce(segments: seq<Segment>, context: Context)
    requires Plain(segments) && IsDictionary(context) && PlainKeys(AsMap(context)) && Harmless(AsMap(context))
    ensures Rendered(Show(segments), context) == Filled(segments, AsMap(context))
  {
    hide Show; hide AsMap; hide Harmless; hide PlainKeys; hide IsDictionary; hide Plain; hide LooksUnresolved;
    var filled := Substitute(segments, AsMap(context));
    SequentialIsSimultaneous(segments, context);
    forall s | s in segments && s.Hole? && s.name !in AsMap(context) ensures s in filled {
      var i :| 0 <= i < |segments| && segments[i] == s;
      assert filled[i] == s;
    }
    forall s | s in filled && s.Hole? ensures s in segments && s.name !in AsMap(context) {
      var i :| 0 <= i < |filled| && filled[i] == s;
      assert segments[i] == s;
    }
  }

  /** The order of the dictionary does not matter. */
  lemma OrderDoesNotMatter(segments: seq<Segment>, context: Context, other: Context)
    requires Plain(segments) && IsDictionary(context) && IsDictionary(other) && AsMap(context) == AsMap(other)
    requires PlainKeys(AsMap(context)) && Harmless(AsMap(context))
    ensures Rendered(Show(segments), context) == Rendered(Show(segments), other)
  {
    RendersAllAtOnce(segments, context);
    RendersAllAtOnce(segments, other);
  }

  // ----- Braces in values -----

  /** A value with an opening and one with a closing brace, side by side, are never rendered as they should. */
  lemma BothBracesFail(context: Context, a: string, c: string)
    requires PlainKeys(AsMap(context)) && a in AsMap(context) && c in AsMap(context)
    requires '{' in AsMap(context)[a] && '}' in AsMap(context)[c]
    ensures var segments := [Hole(a), Hole(c)];
      Plain(segments) && Rendered(Show(segments), context) != Filled(segments, AsMap(context))
  {
    hide AsMap; hide ReplaceEach;
    var values := AsMap(context);
    var segments := [Hole(a), Hole(c)];
    var filled := Substitute(segments, values);
    assert filled == [Lit(values[a]), Lit(values[c])];
    assert filled[1..] == [Lit(values[c])] && filled[1..][1..] == [];
    assert Show(filled[1..]) == values[c] + Show([]);
    assert Show(filled) == values[a] + values[c];
  }

  /**
   The engine renders every template of brace-free literals and holes as meant if and only if not
   both kinds of braces occur among the values of the dictionary.
   */
  lemma RendersAsMeantIff(context: Context)
    requires IsDictionary(context) && PlainKeys(AsMap(context))
    ensures (forall segments | Plain(segments) :: Rendered(Show(segments), context) == Filled(segments, AsMap(context)))
      <==> Harmless(AsMap(context))
  {
    hide AsMap; hide IsDictionary; hide PlainKeys; hide Plain; hide Rendered; hide Filled; hide Show;
    var values := AsMap(context);
    if Harmless(values) {
      forall segments | Plain(segments) ensures Rendered(Show(segments), context) == Filled(segments, values) {
        RendersAllAtOnce(segments, context);
      }
    } else {
      var a :| a in values && '{' in values[a];
      var c :| c in values && '}' in values[c];
      BothBracesFail(context, a, c);
    }
  }

  /** An instance in which the order matters: filled in again in one order, while in the other the engine raises. */
  lemma BracesMakeOrderMatter()
    ensures Rendered("{a}", [("a", "{b}"), ("b", "x")]) == Some("x")
    ensures Rendered("{a}", [("b", "x"), ("a", "{b}")]) == None
  {
    OneHoleTwoKeys("{b}");
    hide ReplaceEach;
    assert "{b}"[0] == '{' && "{b}"[2] == '}';
    assert forall c | c in "x" :: c == 'x';
  }

  lemma OneHoleTwoKeys(value: string)
    requires value == "{b}"
    ensures ReplaceEach("{a}", [("a", value), ("b", "x")]) == "x"
    ensures ReplaceEach("{a}", [("b", "x"), ("a", value)]) == value
  {
    TwoReplacements("{a}", ("a", value), ("b", "x"));
    TwoReplacements("{a}", ("b", "x"), ("a", value));
    LoneHole("a", value);
    LoneHole("b", "x");
    OtherHoleStays("a", "", "b", "x");
    assert Replace("", Placeholder("b"), "x") == "" && Placeholder("a") + "" == Placeholder("a");
    hide Replace; hide ReplaceEach;
    assert Placeholder("a") == "{a}" && Placeholder("b") == "{b}";
  }

  lemma TwoReplacements(s: string, p: (string, string), q: (string, string))
    ensures ReplaceEach(s, [p, q]) == Replace(Replace(s, Placeholder(p.0), p.1), Placeholder(q.0), q.1)
  {
    assert [p, q][..1] == [p] && [p][..0] == [];
    assert ReplaceEach(s, [p]) == Replace(ReplaceEach(s, []), Placeholder(p.0), p.1);
  }

  lemma LoneHole(name: string, value: string)
    ensures Replace(Placeholder(name), Placeholder(name), value) == value
  {
    OwnHoleIsReplaced(name, "", value);
    assert Placeholder(name) + "" == Placeholder(name);
  }
}
