/**
 * String helpers that stand for the JavaScript string methods the site calls:
 * `includes`, `replace` with a string pattern, `trim`, and
 * `toLowerCase`/`toUpperCase` (on ASCII letters). `IndexOf` is a helper for
 * `includes` and `replace`; the site does not call `indexOf` itself.
 */
module Strings {

  /** `pat` occurs in `s` starting at index `i`. */
  ghost predicate OccursAt(s: string, pat: string, i: int)
  {
    0 <= i && i + |pat| <= |s| && s[i..i + |pat|] == pat
  }

  /** Index of the first occurrence of `pat` in `s`, or -1 (JavaScript `indexOf`). */
  function IndexOf(s: string, pat: string): (r: int)
    ensures -1 <= r <= |s|
    ensures r >= 0 ==> OccursAt(s, pat, r)
    ensures r >= 0 ==> forall j :: 0 <= j < r ==> !OccursAt(s, pat, j)
    ensures r == -1 ==> forall j :: 0 <= j ==> !OccursAt(s, pat, j)
    decreases |s|
  {
    if |s| < |pat| then -1
    else if s[..|pat|] == pat then 0
    else
      var k := IndexOf(s[1..], pat);
      ShiftOccurrence(s, pat);
      assert !OccursAt(s, pat, 0);
      assert forall j :: 1 <= j ==> (OccursAt(s, pat, j) <==> OccursAt(s[1..], pat, j - 1));
      if k < 0 then -1 else k + 1
  }

  /** An occurrence in `s[1..]` is an occurrence in `s` one place further on. */
  lemma ShiftOccurrence(s: string, pat: string)
    requires |s| > 0
    ensures forall j :: 0 <= j ==> (OccursAt(s[1..], pat, j) <==> OccursAt(s, pat, j + 1))
  {
    forall j | 0 <= j
      ensures OccursAt(s[1..], pat, j) <==> OccursAt(s, pat, j + 1)
    {
      if j + 1 + |pat| <= |s| {
        assert s[1..][j..j + |pat|] == s[j + 1..j + 1 + |pat|];
      }
    }
  }

  /** A one-character pattern occurs exactly where that character stands. */
  lemma CharOccurrence(s: string, c: char)
    ensures forall k :: 0 <= k < |s| ==> (OccursAt(s, [c], k) <==> s[k] == c)
  {
    forall k | 0 <= k < |s| ensures OccursAt(s, [c], k) <==> s[k] == c {
      assert s[k..k + 1] == [s[k]];
    }
  }

  /** The first index of a character: no copy of it stands earlier. */
  lemma IndexOfCharFirst(s: string, c: char)
    ensures var j := IndexOf(s, [c]);
      && (j >= 0 ==> j < |s| && s[j] == c)
      && forall k :: 0 <= k < |s| && (j < 0 || k < j) ==> s[k] != c
  {
    CharOccurrence(s, c);
  }

  /** A character at `k` with no earlier copy is found at `k`. */
  lemma IndexOfCharAt(s: string, c: char, k: int)
    requires 0 <= k < |s| && s[k] == c
    requires forall j :: 0 <= j < k ==> s[j] != c
    ensures IndexOf(s, [c]) == k
  {
    CharOccurrence(s, c);
  }

  /** JavaScript `s.includes(pat)`. */
  predicate Contains(s: string, pat: string)
  {
    IndexOf(s, pat) >= 0
  }

  lemma ContainsIff(s: string, pat: string)
    ensures Contains(s, pat) <==> exists j :: OccursAt(s, pat, j)
  {
    var k := IndexOf(s, pat);
    if k >= 0 {
      assert OccursAt(s, pat, k);
    }
  }

  /**
   * JavaScript `s.replace(pat, rep)` with a string pattern: only the first
   * occurrence of `pat` is replaced; without one, `s` is returned unchanged.
   */
  function ReplaceFirst(s: string, pat: string, rep: string): (r: string)
    ensures IndexOf(s, pat) < 0 ==> r == s
    ensures IndexOf(s, pat) >= 0 ==>
      var i := IndexOf(s, pat);
      r == s[..i] + rep + s[i + |pat|..]
  {
    var i := IndexOf(s, pat);
    if i < 0 then s else s[..i] + rep + s[i + |pat|..]
  }

  /** ASCII lower-casing of one character. */
  function LowerChar(c: char): char
  {
    if 'A' <= c <= 'Z' then (c as int + 32) as char else c
  }

  /** ASCII upper-casing of one character. */
  function UpperChar(c: char): char
  {
    if 'a' <= c <= 'z' then (c as int - 32) as char else c
  }

  /** `s.toLowerCase()` restricted to ASCII letters. */
  function ToLower(s: string): (r: string)
    ensures |r| == |s|
    ensures forall i :: 0 <= i < |s| ==> r[i] == LowerChar(s[i])
  {
    seq(|s|, i requires 0 <= i < |s| => LowerChar(s[i]))
  }

  /** `s.toUpperCase()` restricted to ASCII letters. */
  function ToUpper(s: string): (r: string)
    ensures |r| == |s|
    ensures forall i :: 0 <= i < |s| ==> r[i] == UpperChar(s[i])
  {
    seq(|s|, i requires 0 <= i < |s| => UpperChar(s[i]))
  }

  /** The characters `String.prototype.trim` removes: white space and line terminators. */
  predicate IsJsWhitespace(c: char)
  {
    c == '\t' || c == '\n' || c == '\U{B}' || c == '\U{C}' || c == '\r' || c == ' '
    || c == '\U{A0}' || c == '\U{1680}' || ('\U{2000}' <= c <= '\U{200A}')
    || c == '\U{2028}' || c == '\U{2029}' || c == '\U{202F}' || c == '\U{205F}'
    || c == '\U{3000}' || c == '\U{FEFF}'
  }

  /** `s` with its leading white space removed. */
  function TrimStart(s: string): (r: string)
    ensures |r| <= |s| && r == s[|s| - |r|..]
    ensures r == [] || !IsJsWhitespace(s[|s| - |r|])
    ensures r == [] || !IsJsWhitespace(r[0])
    ensures forall i :: 0 <= i < |s| - |r| ==> IsJsWhitespace(s[i])
  {
    if s == [] || !IsJsWhitespace(s[0]) then s else TrimStart(s[1..])
  }

  /** `s` with its trailing white space removed. */
  function TrimEnd(s: string): (r: string)
    ensures |r| <= |s| && r == s[..|r|]
    ensures r == [] || !IsJsWhitespace(s[|r| - 1])
    ensures forall i :: |r| <= i < |s| ==> IsJsWhitespace(s[i])
  {
    if s == [] || !IsJsWhitespace(s[|s| - 1]) then s else TrimEnd(s[..|s| - 1])
  }

  /** JavaScript `s.trim()`. */
  function Trim(s: string): string
  {
    TrimEnd(TrimStart(s))
  }

  /** `s.trim()` is empty exactly when every character of `s` is white space. */
  lemma TrimEmptyIff(s: string)
    ensures Trim(s) == "" <==> forall i :: 0 <= i < |s| ==> IsJsWhitespace(s[i])
  {
    var t := TrimStart(s);
    if Trim(s) == "" {
      assert t == [];
    }
  }
}
