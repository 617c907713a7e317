/** The few JavaScript string built-ins the screens use: the white-space
    class shared by `\s` in regular expressions and `String.prototype.trim`,
    `trim`, `toUpperCase` (ASCII letters only) and the e-mail pattern
    `/\S+@\S+\.\S+/.test`. */
module JsText {

  /** ECMAScript WhiteSpace and LineTerminator code points. */
  predicate IsSpace(c: char) {
    c == '\t' || c == '\n' || c == '\U{B}' || c == '\U{C}' || c == '\r' || c == ' ' ||
    c == '\U{A0}' || c == '\U{1680}' || ('\U{2000}' <= c <= '\U{200A}') ||
    c == '\U{2028}' || c == '\U{2029}' || c == '\U{202F}' || c == '\U{205F}' ||
    c == '\U{3000}' || c == '\U{FEFF}'
  }

  /** The first index at or after `i` that is not white space (`|s|` when
      there is none). */
  function SpanStart(s: string, i: nat): (r: nat)
    requires i <= |s|
    ensures i <= r <= |s|
    ensures forall k :: i <= k < r ==> IsSpace(s[k])
    ensures r < |s| ==> !IsSpace(s[r])
    decreases |s| - i
  {
    if i < |s| && IsSpace(s[i]) then SpanStart(s, i + 1) else i
  }

  /** The index just after the last character before `j` that is not white
      space, looking no further back than `lo` (`lo` when there is none). */
  function SpanEnd(s: string, lo: nat, j: nat): (r: nat)
    requires lo <= j <= |s|
    ensures lo <= r <= j
    ensures forall k :: r <= k < j ==> IsSpace(s[k])
    ensures lo < r ==> !IsSpace(s[r - 1])
    decreases j
  {
    if lo < j && IsSpace(s[j - 1]) then SpanEnd(s, lo, j - 1) else j
  }

  /** How many characters `trim` drops at the front. */
  function LeadingSpaces(s: string): nat
    ensures LeadingSpaces(s) <= |s|
  {
    SpanStart(s, 0)
  }

  /** `trim`: the slice of `s` between its leading and its trailing white
      space; what is cut off is white space only. */
  function Trim(s: string): (r: string)
    ensures r != [] ==> !IsSpace(r[0]) && !IsSpace(r[|r| - 1])
    ensures LeadingSpaces(s) + |r| <= |s|
    ensures r == s[LeadingSpaces(s)..LeadingSpaces(s) + |r|]
    ensures forall k :: 0 <= k < LeadingSpaces(s) ==> IsSpace(s[k])
    ensures forall k :: LeadingSpaces(s) + |r| <= k < |s| ==> IsSpace(s[k])
  {
    var a := SpanStart(s, 0);
    var b := SpanEnd(s, a, |s|);
    assert a < b ==> a < |s|;
    s[a..b]
  }

  /** Trimming a trimmed string changes nothing. */
  lemma TrimIdempotent(s: string)
    ensures Trim(Trim(s)) == Trim(s)
  {
    var r := Trim(s);
    if r != [] {
      assert SpanStart(r, 0) == 0;
      assert SpanEnd(r, 0, |r|) == |r|;
    }
  }

  /** Text made only of white space trims to the empty string. */
  lemma TrimAllSpace(s: string)
    requires forall k :: 0 <= k < |s| ==> IsSpace(s[k])
    ensures Trim(s) == ""
  {
  }

  /** Text that starts and ends with visible characters is its own trim. */
  lemma TrimUnpadded(s: string)
    requires s != [] ==> !IsSpace(s[0]) && !IsSpace(s[|s| - 1])
    ensures Trim(s) == s
  {
  }

  /** One space on each side of a visible text trims away. */
  lemma TrimPadded(c: char, t: string, d: char)
    requires IsSpace(c) && IsSpace(d) && t != [] && !IsSpace(t[0]) && !IsSpace(t[|t| - 1])
    ensures Trim([c] + t + [d]) == t
  {
    var s := [c] + t + [d];
    assert s[1] == t[0] && s[|s| - 2] == t[|t| - 1];
    assert SpanStart(s, 0) == SpanStart(s, 1) == 1;
    assert SpanEnd(s, 1, |s|) == SpanEnd(s, 1, |s| - 1) == |s| - 1;
    assert s[1..|s| - 1] == t;
  }

  /** `toUpperCase` on one character, for the ASCII letters. */
  function UpperChar(c: char): char {
    if 'a' <= c <= 'z' then (c as int - 32) as char else c
  }

  /** `toUpperCase`, character by character. */
  function ToUpper(s: string): (r: string)
    ensures |r| == |s|
    ensures forall i :: 0 <= i < |s| ==> r[i] == UpperChar(s[i])
    decreases |s|
  {
    if s == [] then [] else [UpperChar(s[0])] + ToUpper(s[1..])
  }

  /** No white space in `s[lo..hi]`. */
  predicate AllNonSpace(s: string, lo: int, hi: int)
    requires 0 <= lo <= hi <= |s|
  {
    forall m :: lo <= m < hi ==> !IsSpace(s[m])
  }

  /** An `@` at `a` preceded by a non-space, a `.` at `b` followed by a
      non-space, and one or more non-spaces between them. */
  predicate MatchAt(s: string, a: int, b: int) {
    0 < a && a + 1 < b && b + 1 < |s| && s[a] == '@' && s[b] == '.' &&
    !IsSpace(s[a - 1]) && !IsSpace(s[b + 1]) && AllNonSpace(s, a + 1, b)
  }

  /** `/\S+@\S+\.\S+/.test(s)`: the pattern matches somewhere in `s`; the
      match need not cover the whole string. */
  predicate MatchesEmailPattern(s: string) {
    exists a, b | 0 <= a < |s| && 0 <= b < |s| :: MatchAt(s, a, b)
  }

  /** The pattern matches an address anywhere in the text. */
  lemma EmailPatternAccepts()
    ensures MatchesEmailPattern("a@b.c")
    ensures MatchesEmailPattern("x y@b.c")
  {
    assert MatchAt("a@b.c", 1, 3);
    assert MatchAt("x y@b.c", 3, 5);
  }

  /** The pattern rejects text without a dot after the `@`, and an `@`
      preceded by a space. */
  lemma EmailPatternRejects()
    ensures !MatchesEmailPattern("a@b")
    ensures !MatchesEmailPattern("a @b.c")
  {
    var s := "a @b.c";
    forall a, b | 0 <= a < |s| && 0 <= b < |s| ensures !MatchAt(s, a, b) {
      if a != 2 {
        assert s[a] != '@';
      }
    }
  }

  /** White space added around a matching text keeps it matching: the
      pattern is searched for, not anchored. */
  lemma {:induction false} MatchPadded(c: char, t: string, d: char)
    requires MatchesEmailPattern(t)
    ensures MatchesEmailPattern([c] + t + [d])
  {
    var s := [c] + t + [d];
    var a, b :| 0 <= a < |t| && 0 <= b < |t| && MatchAt(t, a, b);
    assert a + 1 < b && AllNonSpace(t, a + 1, b);
    assert AllNonSpace(s, a + 2, b + 1) by {
      forall k | a + 2 <= k < b + 1 ensures !IsSpace(s[k]) {
        assert s[k] == t[k - 1];
      }
    }
    assert MatchAt(s, a + 1, b + 1);
  }
}
