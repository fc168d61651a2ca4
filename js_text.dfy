/**
 * The three JavaScript string operations the incentive filter relies on:
 * `String.prototype.trim` (only to ask whether the result is empty),
 * `String.prototype.toLowerCase` (restricted to ASCII letters) and
 * `String.prototype.includes` (substring search).
 */
module JsText {

  // ---------------------------------------------------------------------------
  // Whitespace and trim()
  // ---------------------------------------------------------------------------

  /** The code points that `trim()` strips: the WhiteSpace and LineTerminator
      productions of ECMA-262 (tab, vertical tab, form feed, space, no-break
      space, byte order mark, the Unicode space separators, line feed,
      carriage return, line and paragraph separators). */
  predicate IsWhitespace(c: char) {
    || c == '\t' || c == '\n' || c == '\U{000B}' || c == '\U{000C}' || c == '\r'
    || c == ' ' || c == '\U{00A0}' || c == '\U{1680}'
    || ('\U{2000}' <= c <= '\U{200A}')
    || c == '\U{2028}' || c == '\U{2029}' || c == '\U{202F}' || c == '\U{205F}'
    || c == '\U{3000}' || c == '\U{FEFF}'
  }

  ghost predicate AllWhitespace(s: string) {
    forall i :: 0 <= i < |s| ==> IsWhitespace(s[i])
  }

  /** Drops the leading whitespace: the result is the longest suffix of `s`
      that does not start with whitespace. */
  function TrimStart(s: string): (r: string)
    ensures |r| <= |s| && r == s[|s| - |r|..]
    ensures AllWhitespace(s[..|s| - |r|])
    ensures r == [] || !IsWhitespace(r[0])
  {
    if s != [] && IsWhitespace(s[0]) then TrimStart(s[1..]) else s
  }

  /** Drops the trailing whitespace: the result is the longest prefix of `s`
      that does not end with whitespace. */
  function TrimEnd(s: string): (r: string)
    ensures |r| <= |s| && r == s[..|r|]
    ensures AllWhitespace(s[|r|..])
    ensures r == [] || !IsWhitespace(r[|r| - 1])
  {
    if s != [] && IsWhitespace(s[|s| - 1]) then TrimEnd(s[..|s| - 1]) else s
  }

  /** `s.trim()`. */
  function Trim(s: string): string {
    TrimEnd(TrimStart(s))
  }

  /** `!s.trim()`: the trimmed string is empty, which is the only falsy string. */
  predicate IsBlank(s: string) {
    Trim(s) == []
  }

  /** Trimming the end leaves nothing exactly when everything is whitespace. */
  lemma {:induction false} TrimEndEmptyIff(s: string)
    ensures TrimEnd(s) == [] <==> AllWhitespace(s)
    decreases |s|
  {
    if s != [] && IsWhitespace(s[|s| - 1]) {
      var t := s[..|s| - 1];
      TrimEndEmptyIff(t);
      assert s == t + [s[|s| - 1]];
    } else if s != [] {
      assert !IsWhitespace(s[|s| - 1]);
    }
  }

  /** Trimming the start leaves nothing exactly when everything is whitespace. */
  lemma {:induction false} TrimStartEmptyIff(s: string)
    ensures TrimStart(s) == [] <==> AllWhitespace(s)
    decreases |s|
  {
    if s != [] && IsWhitespace(s[0]) {
      TrimStartEmptyIff(s[1..]);
      assert s == [s[0]] + s[1..];
    } else if s != [] {
      assert !IsWhitespace(s[0]);
    }
  }

  /** A string is blank exactly when every character of it is whitespace. */
  lemma BlankIffAllWhitespace(s: string)
    ensures IsBlank(s) <==> AllWhitespace(s)
  {
    var t := TrimStart(s);
    TrimEndEmptyIff(t);
    TrimStartEmptyIff(s);
    if t != [] {
      assert !IsWhitespace(t[0]);
    }
  }

  /** Appending text to a string that is not blank leaves it not blank. */
  lemma NotBlankExtends(a: string, b: string)
    requires !IsBlank(a)
    ensures !IsBlank(a + b)
  {
    BlankIffAllWhitespace(a);
    BlankIffAllWhitespace(a + b);
    var i :| 0 <= i < |a| && !IsWhitespace(a[i]);
    assert (a + b)[i] == a[i];
  }

  // ---------------------------------------------------------------------------
  // toLowerCase()
  // ---------------------------------------------------------------------------

  /** Lower-cases an ASCII capital; every other character is left alone. */
  function LowerChar(c: char): char {
    if 'A' <= c <= 'Z' then (c as int + ('a' as int - 'A' as int)) as char else c
  }

  /** `s.toLowerCase()`, character by character. */
  function Lower(s: string): string {
    seq(|s|, i requires 0 <= i < |s| => LowerChar(s[i]))
  }

  /** Lower-casing never produces an ASCII capital, and it changes exactly the
      ASCII capitals. */
  lemma LowerCharMeaning(c: char)
    ensures !('A' <= LowerChar(c) <= 'Z')
    ensures LowerChar(c) != c <==> 'A' <= c <= 'Z'
    ensures LowerChar(LowerChar(c)) == LowerChar(c)
  {
  }

  /** Lower-casing neither creates nor removes whitespace. */
  lemma LowerCharKeepsWhitespace(c: char)
    ensures IsWhitespace(LowerChar(c)) == IsWhitespace(c)
  {
  }

  /** Lower-casing is idempotent. */
  lemma LowerIdempotent(s: string)
    ensures Lower(Lower(s)) == Lower(s)
  {
    forall i | 0 <= i < |s| ensures Lower(Lower(s))[i] == Lower(s)[i] {
      LowerCharMeaning(s[i]);
    }
  }

  /** Lower-casing distributes over concatenation. */
  lemma LowerAppend(a: string, b: string)
    ensures Lower(a + b) == Lower(a) + Lower(b)
  {
    var l, r := Lower(a + b), Lower(a) + Lower(b);
    assert |l| == |r|;
    forall i | 0 <= i < |l| ensures l[i] == r[i] {
      if i < |a| {
        assert (a + b)[i] == a[i];
      } else {
        assert (a + b)[i] == b[i - |a|];
      }
    }
  }

  /** A string is blank exactly when its lower-cased form is. */
  lemma LowerKeepsBlank(s: string)
    ensures IsBlank(Lower(s)) == IsBlank(s)
  {
    BlankIffAllWhitespace(s);
    BlankIffAllWhitespace(Lower(s));
    forall i | 0 <= i < |s| ensures IsWhitespace(Lower(s)[i]) == IsWhitespace(s[i]) {
      LowerCharKeepsWhitespace(s[i]);
    }
  }

  // ---------------------------------------------------------------------------
  // includes()
  // ---------------------------------------------------------------------------

  /** `pat` occurs in `text` starting at index `k`. */
  predicate OccursAt(text: string, pat: string, k: int) {
    0 <= k && k + |pat| <= |text| && text[k..k + |pat|] == pat
  }

  /** `text.includes(pat)`: `pat` occurs in `text` at some position; the empty
      pattern occurs everywhere. */
  predicate Contains(text: string, pat: string) {
    exists k | 0 <= k <= |text| - |pat| :: OccursAt(text, pat, k)
  }

  /** A pattern longer than the text does not occur in it. */
  lemma LongerNotContained(text: string, pat: string)
    requires |pat| > |text|
    ensures !Contains(text, pat)
  {
  }

  /** An exact occurrence is still an occurrence, at the same position,
      once both sides are lower-cased. */
  lemma LowerOccursAt(text: string, pat: string, k: int)
    requires OccursAt(text, pat, k)
    ensures OccursAt(Lower(text), Lower(pat), k)
  {
    assert Lower(text)[k..k + |pat|] == Lower(text[k..k + |pat|]);
  }

  /** An occurrence in a piece is an occurrence in any text that starts
      with that piece. */
  lemma ContainsLeft(a: string, b: string, pat: string)
    requires Contains(a, pat)
    ensures Contains(a + b, pat)
  {
    var k :| 0 <= k <= |a| - |pat| && OccursAt(a, pat, k);
    assert (a + b)[k..k + |pat|] == a[k..k + |pat|];
    assert OccursAt(a + b, pat, k);
  }

  /** An occurrence in a piece is an occurrence in any text that ends with
      that piece. */
  lemma ContainsRight(a: string, b: string, pat: string)
    requires Contains(b, pat)
    ensures Contains(a + b, pat)
  {
    var k :| 0 <= k <= |b| - |pat| && OccursAt(b, pat, k);
    assert (a + b)[|a| + k..|a| + k + |pat|] == b[k..k + |pat|];
    assert OccursAt(a + b, pat, |a| + k);
  }

  /** A pattern holding a character that the text lacks does not occur. */
  lemma MissingCharNoMatch(text: string, pat: string, c: char)
    requires c in pat && c !in text
    ensures !Contains(text, pat)
  {
    var j :| 0 <= j < |pat| && pat[j] == c;
    forall k ensures !OccursAt(text, pat, k) {
      if 0 <= k && k + |pat| <= |text| {
        assert text[k..k + |pat|][j] == text[k + j];
      }
    }
  }
}
