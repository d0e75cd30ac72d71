/** The Python string operations the engine relies on, over sequences of characters. */
module Text {

  datatype Option<+T> = None | Some(value: T)

  /** The characters Python's `str.strip()` removes. */
  predicate IsSpace(c: char) {
    || '\t' <= c <= '\r'
    || '\U{1c}' <= c <= ' '
    || c == '\U{85}'
    || c == '\U{a0}'
    || c == '\U{1680}'
    || '\U{2000}' <= c <= '\U{200a}'
    || c == '\U{2028}'
    || c == '\U{2029}'
    || c == '\U{202f}'
    || c == '\U{205f}'
    || c == '\U{3000}'
  }

  /** The characters at which Python's `str.splitlines()` ends a line. */
  predicate IsBreak(c: char) {
    || '\n' <= c <= '\r'
    || '\U{1c}' <= c <= '\U{1e}'
    || c == '\U{85}'
    || c == '\U{2028}'
    || c == '\U{2029}'
  }

  predicate IsSlash(c: char) { c == '/' }

  predicate IsQuote(c: char) { c == '\'' || c == '\"' }

  function TrimLeft(drop: char -> bool, s: string): string {
    if s != "" && drop(s[0]) then TrimLeft(drop, s[1..]) else s
  }

  function TrimRight(drop: char -> bool, s: string): string {
    if s != "" && drop(s[|s| - 1]) then TrimRight(drop, s[..|s| - 1]) else s
  }

  /** `s.strip(chars)`: the dropped characters leave both ends, nothing else moves. */
  function Trim(drop: char -> bool, s: string): string {
    TrimRight(drop, TrimLeft(drop, s))
  }

  predicate Clean(drop: char -> bool, s: string) {
    s == "" || (!drop(s[0]) && !drop(s[|s| - 1]))
  }

  predicate Stripped(s: string) { Clean(IsSpace, s) }

  lemma {:induction false} TrimLeftIsSuffix(drop: char -> bool, s: string) returns (lo: nat)
    ensures lo <= |s| && TrimLeft(drop, s) == s[lo..] && (lo < |s| ==> !drop(s[lo]))
    ensures forall i | 0 <= i < lo :: drop(s[i])
  {
    lo := 0;
    if s != "" && drop(s[0]) {
      lo := TrimLeftIsSuffix(drop, s[1..]);
      assert s == [s[0]] + s[1..];
      lo := lo + 1;
    }
  }

  lemma {:induction false} TrimRightIsPrefix(drop: char -> bool, s: string) returns (hi: nat)
    ensures hi <= |s| && TrimRight(drop, s) == s[..hi] && (hi > 0 ==> !drop(s[hi - 1]))
    ensures forall i | hi <= i < |s| :: drop(s[i])
  {
    hi := |s|;
    if s != "" && drop(s[|s| - 1]) {
      hi := TrimRightIsPrefix(drop, s[..|s| - 1]);
    }
  }

  /** A trimmed text is an infix of the original whose removed ends hold only dropped characters. */
  lemma TrimIsInfix(drop: char -> bool, s: string) returns (lo: nat, hi: nat)
    ensures lo <= hi <= |s| && Trim(drop, s) == s[lo..hi]
    ensures forall i | 0 <= i < lo || hi <= i < |s| :: drop(s[i])
    ensures Clean(drop, Trim(drop, s))
  {
    hide TrimLeft; hide TrimRight;
    lo := TrimLeftIsSuffix(drop, s);
    var kept := TrimRightIsPrefix(drop, s[lo..]);
    hi := lo + kept;
    assert s[lo..][..kept] == s[lo..hi];
    assert forall i | hi <= i < |s| :: s[i] == s[lo..][i - lo];
  }

  lemma {:induction false} TrimLeftPadded(drop: char -> bool, padding: string, s: string)
    requires forall i | 0 <= i < |padding| :: drop(padding[i])
    ensures TrimLeft(drop, padding + s) == TrimLeft(drop, s)
  {
    if padding == "" {
      assert padding + s == s;
    } else {
      assert (padding + s)[1..] == padding[1..] + s;
      TrimLeftPadded(drop, padding[1..], s);
    }
  }

  lemma {:induction false} TrimRightPadded(drop: char -> bool, s: string, padding: string)
    requires forall i | 0 <= i < |padding| :: drop(padding[i])
    ensures TrimRight(drop, s + padding) == TrimRight(drop, s)
  {
    if padding == "" {
      assert s + padding == s;
    } else {
      assert (s + padding)[..|s + padding| - 1] == s + padding[..|padding| - 1];
      TrimRightPadded(drop, s, padding[..|padding| - 1]);
    }
  }

  /** Trimming a clean text with dropped characters around it gives the clean text. */
  lemma TrimPadded(drop: char -> bool, before: string, s: string, after: string)
    requires forall i | 0 <= i < |before| :: drop(before[i])
    requires forall i | 0 <= i < |after| :: drop(after[i])
    requires Clean(drop, s)
    ensures Trim(drop, before + s + after) == s
  {
    assert before + s + after == before + (s + after);
    TrimLeftPadded(drop, before, s + after);
    if s == "" {
      assert s + after == after + "";
      TrimLeftPadded(drop, after, "");
    } else {
      assert TrimLeft(drop, s + after) == s + after;
      TrimRightPadded(drop, s, after);
    }
  }

  /** Trimming leaves exactly the clean texts alone, so trimming twice is trimming once. */
  lemma TrimFixes(drop: char -> bool, s: string)
    ensures Trim(drop, s) == s <==> Clean(drop, s)
    ensures Clean(drop, Trim(drop, s))
  {
    var lo, hi := TrimIsInfix(drop, s);
  }

  /** `s.strip()`. */
  function Strip(s: string): (t: string)
    ensures Stripped(t)
    ensures t == s <==> Stripped(s)
  {
    TrimFixes(IsSpace, s);
    Trim(IsSpace, s)
  }

  function LowerChar(c: char): char {
    if 'A' <= c <= 'Z' then c - 'A' + 'a' else c
  }

  /** `s.lower()` on the ASCII letters. */
  function Lower(s: string): (t: string)
    ensures |t| == |s| && forall i | 0 <= i < |s| :: t[i] == LowerChar(s[i])
  {
    seq(|s|, i requires 0 <= i < |s| => LowerChar(s[i]))
  }

  /** `s.strip().lower()`, the form in which class and kind names are compared. */
  function Norm(s: string): string { Lower(Strip(s)) }

  lemma NormTwice(s: string)
    ensures Norm(Norm(s)) == Norm(s)
    ensures Strip(Norm(s)) == Norm(s)
    ensures Norm(s) == "" <==> Strip(s) == ""
  {
    assert Stripped(Norm(s));
    assert Lower(Norm(s)) == Norm(s);
  }

  /** The same character, or one letter in both cases. */
  predicate SameLetter(c: char, d: char) {
    || c == d
    || ('A' <= c <= 'Z' && d == c + ' ')
    || ('A' <= d <= 'Z' && c == d + ' ')
  }

  /** Names compare equal exactly when, stripped, they are the same up to the case of letters. */
  lemma NormAgreesIff(s: string, t: string)
    ensures Norm(s) == Norm(t) <==>
      |Strip(s)| == |Strip(t)| && forall i | 0 <= i < |Strip(s)| :: SameLetter(Strip(s)[i], Strip(t)[i])
  {
    var a, b := Strip(s), Strip(t);
    hide Strip;
    if Norm(s) == Norm(t) {
      assert forall i | 0 <= i < |a| :: LowerChar(a[i]) == Lower(a)[i] == Lower(b)[i] == LowerChar(b[i]);
    }
  }

  function OrElse(s: string, fallback: string): string { if s == "" then fallback else s }

  predicate StartsWith(s: string, prefix: string) {
    |prefix| <= |s| && s[..|prefix|] == prefix
  }

  predicate IsAt(s: string, part: string, i: nat) {
    i + |part| <= |s| && s[i..i + |part|] == part
  }

  ghost predicate Contains(s: string, part: string) {
    exists i: nat :: IsAt(s, part, i)
  }

  lemma ContainsInside(front: string, s: string, back: string, part: string)
    requires Contains(s, part)
    ensures Contains(front + s + back, part)
  {
    var i: nat :| IsAt(s, part, i);
    var whole, j := front + s + back, |front| + i;
    assert whole[j..j + |part|] == s[i..i + |part|];
    assert IsAt(whole, part, j);
  }

  /** Python's order on strings: by code point, a proper prefix first. */
  predicate Before(a: string, b: string) {
    b != "" && (a == "" || a[0] < b[0] || (a[0] == b[0] && Before(a[1..], b[1..])))
  }

  lemma {:induction false} BeforeIsStrictOrder(a: string, b: string, c: string)
    ensures !Before(a, a)
    ensures Before(a, b) && Before(b, c) ==> Before(a, c)
    ensures a == b || Before(a, b) || Before(b, a)
  {
    if a != "" && b != "" && c != "" {
      BeforeIsStrictOrder(a[1..], b[1..], c[1..]);
      assert a == [a[0]] + a[1..] && b == [b[0]] + b[1..];
    } else if a != "" && b != "" {
      BeforeIsStrictOrder(a[1..], b[1..], c);
      assert a == [a[0]] + a[1..] && b == [b[0]] + b[1..];
    } else if a != "" {
      BeforeIsStrictOrder(a[1..], b, c);
    }
  }

  /** Up to some place the two texts agree; there the first one ends or has the smaller character. */
  ghost predicate DiffersAt(a: string, b: string, k: nat) {
    k <= |a| && k < |b| && a[..k] == b[..k] && (k == |a| || a[k] < b[k])
  }

  lemma FirstIsNoLarger(a: string, b: string, k: nat)
    requires a != "" && DiffersAt(a, b, k)
    ensures a[0] <= b[0]
  {
    if k > 0 { assert a[0] == a[..k][0] == b[..k][0] == b[0]; }
  }

  lemma {:induction false} BeforeIff(a: string, b: string)
    ensures Before(a, b) <==> exists k: nat :: DiffersAt(a, b, k)
  {
    if b == "" {
    } else if a == "" || a[0] < b[0] {
      assert DiffersAt(a, b, 0);
    } else if a[0] > b[0] {
      if k: nat :| DiffersAt(a, b, k) { FirstIsNoLarger(a, b, k); }
    } else {
      BeforeIff(a[1..], b[1..]);
      if Before(a, b) {
        var k: nat :| DiffersAt(a[1..], b[1..], k);
        assert a[..k + 1] == [a[0]] + a[1..][..k] && b[..k + 1] == [b[0]] + b[1..][..k];
        assert DiffersAt(a, b, k + 1);
      }
      if k: nat :| DiffersAt(a, b, k) {
        assert k > 0;
        assert a[1..][..k - 1] == a[..k][1..] && b[1..][..k - 1] == b[..k][1..];
        assert DiffersAt(a[1..], b[1..], k - 1);
      }
    }
  }
}
