/**
 * The few string primitives the metadata resolver applies to annotation
 * text: PCRE's `\s` class, `strtolower`, `strpos` compared with 0, the two
 * whitespace regular expressions, and the `strtr` that turns `.`, `_` and `/`
 * into namespace separators.
 */
module Text {
  import opened Wrappers

  /** PCRE's `\s` without the `u` flag: space, tab, line feed, vertical tab, form feed, carriage return. */
  predicate IsWhitespace(c: char) {
    c == ' ' || 9 <= c as int <= 13
  }

  predicate IsUpper(c: char) {
    'A' <= c <= 'Z'
  }

  /** `strtolower` on one character (ASCII letters only). */
  function ToLower(c: char): char {
    if IsUpper(c) then (c as int + 32) as char else c
  }

  /** `strtolower`: the key under which both interning tables file a name. */
  function Lower(s: string): (r: string)
    ensures |r| == |s|
    ensures forall i :: 0 <= i < |s| ==> !IsUpper(r[i])
    ensures forall i :: 0 <= i < |s| && !IsUpper(s[i]) ==> r[i] == s[i]
    ensures forall i :: 0 <= i < |s| && IsUpper(s[i]) ==> r[i] as int == s[i] as int + 32
  {
    seq(|s|, i requires 0 <= i < |s| => ToLower(s[i]))
  }

  predicate OccursAt(haystack: string, needle: string, k: nat) {
    k + |needle| <= |haystack| && haystack[k..k + |needle|] == needle
  }

  /** `strpos(haystack, needle)` searched from offset `from`; PHP 5 answers `false` for an empty needle. */
  function PositionFrom(haystack: string, needle: string, from: nat): (r: Option<nat>)
    requires from <= |haystack|
    ensures r.Some? ==> needle != [] && from <= r.value && OccursAt(haystack, needle, r.value)
    ensures r.Some? ==> forall k :: from <= k < r.value ==> !OccursAt(haystack, needle, k)
    ensures r.None? ==> needle == [] || forall k :: from <= k <= |haystack| ==> !OccursAt(haystack, needle, k)
    decreases |haystack| - from
  {
    if needle == [] || from + |needle| > |haystack| then None
    else if haystack[from..from + |needle|] == needle then Some(from)
    else PositionFrom(haystack, needle, from + 1)
  }

  /** `strpos(haystack, needle)`: the first index at which `needle` occurs. */
  function Position(haystack: string, needle: string): Option<nat> {
    PositionFrom(haystack, needle, 0)
  }

  /** `0 === strpos(haystack, needle)`: under PHP 5 this is a test for a NON-EMPTY prefix. */
  function AtStart(haystack: string, needle: string): (b: bool)
    ensures b <==> needle != [] && needle <= haystack
  {
    assert needle != [] && needle <= haystack ==> OccursAt(haystack, needle, 0);
    Position(haystack, needle) == Some(0)
  }

  /** Index of the first whitespace character, or `|s|` when there is none. */
  function FirstWhitespace(s: string): (i: nat)
    ensures i <= |s|
    ensures forall j :: 0 <= j < i ==> !IsWhitespace(s[j])
    ensures i < |s| ==> IsWhitespace(s[i])
  {
    if s == [] || IsWhitespace(s[0]) then 0 else 1 + FirstWhitespace(s[1..])
  }

  /** End of the whitespace run that starts at `i`. */
  function WhitespaceRunEnd(s: string, i: nat): (j: nat)
    requires i <= |s|
    ensures i <= j <= |s|
    ensures forall k :: i <= k < j ==> IsWhitespace(s[k])
    ensures j < |s| ==> !IsWhitespace(s[j])
    decreases |s| - i
  {
    if i < |s| && IsWhitespace(s[i]) then WhitespaceRunEnd(s, i + 1) else i
  }

  /**
   * `preg_replace('~\s+.*~s', '', s)`: everything before the first whitespace
   * run (the match swallows the rest of the text, newlines included).
   */
  function CutAtWhitespace(s: string): (r: string)
    ensures r <= s
    ensures forall j :: 0 <= j < |r| ==> !IsWhitespace(r[j])
    ensures |r| < |s| ==> IsWhitespace(s[|r|])
  {
    s[..FirstWhitespace(s)]
  }

  /**
   * The second piece of `preg_split('~\s+|$~', s, 2)`: the text after the
   * first whitespace run, or "" when `s` has no whitespace (the split then
   * happens at the end of the text).  Together with CutAtWhitespace this
   * splits `s` into token, non-empty whitespace run, and rest.
   */
  function AfterWhitespace(s: string): (r: string)
    ensures |CutAtWhitespace(s)| + |r| <= |s|
    ensures r == s[|s| - |r|..]
    ensures r != [] ==> !IsWhitespace(r[0])
    ensures forall k :: |CutAtWhitespace(s)| <= k < |s| - |r| ==> IsWhitespace(s[k])
    ensures |CutAtWhitespace(s)| < |s| <==> |CutAtWhitespace(s)| < |s| - |r|
  {
    var i := FirstWhitespace(s);
    if i == |s| then [] else s[WhitespaceRunEnd(s, i)..]
  }

  predicate IsSeparator(c: char) {
    c == '.' || c == '_' || c == '/'
  }

  /** `strtr(s, '._/', '\\\\\\')`: every `.`, `_` and `/` becomes a backslash, in place. */
  function TranslateSeparators(s: string): (r: string)
    ensures |r| == |s|
    ensures forall i :: 0 <= i < |r| ==> !IsSeparator(r[i])
    ensures forall i :: 0 <= i < |s| && !IsSeparator(s[i]) ==> r[i] == s[i]
    ensures forall i :: 0 <= i < |s| && IsSeparator(s[i]) ==> r[i] == '\\'
  {
    seq(|s|, i requires 0 <= i < |s| => if IsSeparator(s[i]) then '\\' else s[i])
  }

  /** Translation works character by character, so it distributes over concatenation. */
  lemma TranslateConcat(a: string, b: string)
    ensures TranslateSeparators(a + b) == TranslateSeparators(a) + TranslateSeparators(b)
  {
  }

  /** ... and it keeps prefixes. */
  lemma TranslatePrefix(p: string, s: string)
    requires p <= s
    ensures TranslateSeparators(p) <= TranslateSeparators(s)
  {
  }

  /** A text without whitespace is its own token. */
  lemma CutPlainToken(s: string)
    requires forall i :: 0 <= i < |s| ==> !IsWhitespace(s[i])
    ensures CutAtWhitespace(s) == s
  {
  }

  /** A text without separators is left alone by the translation. */
  lemma TranslatePlain(s: string)
    requires forall i :: 0 <= i < |s| ==> !IsSeparator(s[i])
    ensures TranslateSeparators(s) == s
  {
  }

  /** Text whose first whitespace is at `k` has `s[..k]` as its token. */
  lemma CutBeforeWhitespace(s: string, k: nat)
    requires k < |s| && IsWhitespace(s[k])
    requires forall i :: 0 <= i < k ==> !IsWhitespace(s[i])
    ensures CutAtWhitespace(s) == s[..k]
  {
  }
}
