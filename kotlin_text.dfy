/**
 * The few Kotlin string functions the apps' handlers rely on: `isBlank`,
 * `contains(…, ignoreCase = true)`, `startsWith`, `substringBefore` and
 * `ifBlank { null }`. Strings are sequences of UTF-16 code units in Kotlin;
 * here they are sequences of `char`.
 */
module KotlinText {
  import opened Nullable

  /**
   * Kotlin's `Char.isWhitespace()` on the JVM: `Character.isWhitespace(c) ||
   * Character.isSpaceChar(c)`, written out as the list of characters in those
   * two Unicode classes (tab to carriage return, the four information
   * separators, the space separators, the line and paragraph separators).
   */
  predicate IsWhitespace(c: char) {
    || ('\t' <= c <= '\r')
    || ('\U{1C}' <= c <= '\U{1F}')
    || c == ' '
    || c == '\U{A0}'
    || c == '\U{1680}'
    || ('\U{2000}' <= c <= '\U{200A}')
    || c == '\U{2028}'
    || c == '\U{2029}'
    || c == '\U{202F}'
    || c == '\U{205F}'
    || c == '\U{3000}'
  }

  /** `s.isBlank()`: empty, or made of whitespace only. */
  predicate IsBlank(s: string) {
    forall i :: 0 <= i < |s| ==> IsWhitespace(s[i])
  }

  /** The case folding used by `ignoreCase = true` comparisons (ASCII letters only). */
  function FoldCase(c: char): (r: char)
    ensures 'A' <= c <= 'Z' ==> 'a' <= r <= 'z' && r as int - c as int == 32
    ensures !('A' <= c <= 'Z') ==> r == c
  {
    if 'A' <= c <= 'Z' then (c as int + 32) as char else c
  }

  /** `s.regionMatches(at, q, 0, |q|, ignoreCase = true)`. */
  predicate RegionMatchesIgnoreCase(s: string, at: nat, q: string)
    requires at + |q| <= |s|
  {
    forall j :: 0 <= j < |q| ==> FoldCase(s[at + j]) == FoldCase(q[j])
  }

  /** `s.contains(q, ignoreCase = true)`: `q` occurs somewhere in `s`, up to case. */
  predicate ContainsIgnoreCase(s: string, q: string) {
    exists at: nat :: at + |q| <= |s| && RegionMatchesIgnoreCase(s, at, q)
  }

  /** `s.startsWith(prefix)` (case-sensitive). */
  predicate StartsWith(s: string, prefix: string) {
    |prefix| <= |s| && s[..|prefix|] == prefix
  }

  /**
   * `s.substringBefore(delimiter)`: the part of `s` before the first
   * `delimiter`, or the whole of `s` when it has none.
   */
  function SubstringBefore(s: string, delimiter: char): (r: string)
    ensures StartsWith(s, r)
    ensures delimiter !in r
    ensures |r| < |s| ==> s[|r|] == delimiter
    ensures delimiter !in s ==> r == s
  {
    if s == [] then []
    else if s[0] == delimiter then []
    else [s[0]] + SubstringBefore(s[1..], delimiter)
  }

  /** `s.ifBlank { null }`: a blank string becomes null, any other stays as it is. */
  function IfBlankNull(s: string): (r: Option<string>)
    ensures r.None? <==> IsBlank(s)
    ensures r.Some? ==> r.value == s
  {
    if IsBlank(s) then None else Some(s)
  }

  /** The delimiter's first position decides where `substringBefore` cuts. */
  lemma SubstringBeforeAt(s: string, delimiter: char, i: nat)
    requires i < |s| && s[i] == delimiter && delimiter !in s[..i]
    ensures SubstringBefore(s, delimiter) == s[..i]
  {
  }

  /** A text does not start with a prefix whose first character differs from its own. */
  lemma FirstCharDiffers(s: string, p: string)
    requires |s| > 0 && |p| > 0 && s[0] != p[0]
    ensures !StartsWith(s, p)
  {
    if |p| <= |s| {
      assert s[..|p|][0] != p[0];
    }
  }
}
