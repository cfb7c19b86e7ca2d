/** The three `java.lang.String` tests the controller relies on, over Dafny
    strings (one `char` per Unicode scalar value):
    - `trim()`, which strips leading and trailing characters up to U+0020;
    - `isBlank()`, which is true when every character is `Character.isWhitespace`;
    - `equalsIgnoreCase`, restricted here to ASCII case folding. */
module JavaStrings {

  /** `String.trim()` first skips the leading characters `<= ' '`. */
  function TrimLeading(s: string): (r: string)
    ensures |r| <= |s| && r == s[|s| - |r|..]
    ensures forall i :: 0 <= i < |s| - |r| ==> s[i] <= ' '
    ensures r != [] ==> r[0] > ' '
  {
    if s == [] || s[0] > ' ' then s else TrimLeading(s[1..])
  }

  /** ... and then drops the trailing characters `<= ' '`. */
  function TrimTrailing(s: string): (r: string)
    ensures |r| <= |s| && r == s[..|r|]
    ensures forall i :: |r| <= i < |s| ==> s[i] <= ' '
    ensures r != [] ==> r[|r| - 1] > ' '
  {
    if s == [] || s[|s| - 1] > ' ' then s else TrimTrailing(s[..|s| - 1])
  }

  /** `String.trim()`: what is left is no longer than the input and, unless
      empty, starts and ends with a character above U+0020. */
  function Trim(s: string): (r: string)
    ensures |r| <= |s|
    ensures r != [] ==> r[0] > ' ' && r[|r| - 1] > ' '
  {
    TrimTrailing(TrimLeading(s))
  }

  /** `s.trim().isEmpty()`, the blankness test of the validator: every
      character is at most U+0020 (`TrimmedEmptyIff` ties it to `Trim`).
      Such a string is also `isBlank` unless it holds a control character
      outside U+0009..U+000D and U+001C..U+001F. */
  predicate IsTrimmedEmpty(s: string)
    ensures IsTrimmedEmpty(s) ==>
      (IsBlank(s) <==> forall i :: 0 <= i < |s| ==> '\U{9}' <= s[i] && !('\U{E}' <= s[i] <= '\U{1B}'))
  {
    forall i :: 0 <= i < |s| ==> s[i] <= ' '
  }

  /** Trimming leaves nothing exactly when every character is at most U+0020;
      otherwise it keeps the stretch from the first to the last character
      above U+0020. */
  lemma TrimmedEmptyIff(s: string)
    ensures Trim(s) == [] <==> IsTrimmedEmpty(s)
    ensures Trim(s) != [] ==> Trim(s)[0] > ' ' && Trim(s)[|Trim(s)| - 1] > ' '
  {
  }

  /** `Character.isWhitespace`: the Unicode space, line and paragraph separators
      other than the no-break spaces U+00A0, U+2007 and U+202F, together with
      U+0009..U+000D and U+001C..U+001F. */
  predicate IsWhitespace(c: char)
    ensures IsWhitespace(c) ==> c <= ' ' || c >= '\U{1680}'
    ensures c == '\U{A0}' || c == '\U{2007}' || c == '\U{202F}' ==> !IsWhitespace(c)
    ensures c == ' ' || c == '\U{9}' || c == '\U{A}' || c == '\U{D}' ==> IsWhitespace(c)
  {
    ('\U{9}' <= c <= '\U{D}') || ('\U{1C}' <= c <= ' ') ||
    c == '\U{1680}' || ('\U{2000}' <= c <= '\U{2006}') || ('\U{2008}' <= c <= '\U{200A}') ||
    c == '\U{2028}' || c == '\U{2029}' || c == '\U{205F}' || c == '\U{3000}'
  }

  /** `String.isBlank()`: empty, or whitespace only. */
  predicate IsBlank(s: string)
    ensures IsBlank(s) ==> forall i :: 0 <= i < |s| ==> s[i] <= ' ' || s[i] >= '\U{1680}'
  {
    forall i :: 0 <= i < |s| ==> IsWhitespace(s[i])
  }

  /** A string the validator accepts as a name but `isBlank` rejects is made
      of whitespace and holds at least one space at or above U+1680: these are
      the only names that reach the second blankness check of `addCourse`. */
  lemma BlankButNotTrimmedEmpty(s: string)
    requires !IsTrimmedEmpty(s) && IsBlank(s)
    ensures exists i :: 0 <= i < |s| && s[i] >= '\U{1680}' && IsWhitespace(s[i])
  {
  }

  /** An em space (U+2003) alone is such a name: `trim` keeps it, `isBlank` holds. */
  lemma EmSpaceIsBlankButNotTrimmedEmpty()
    ensures Trim("\U{2003}") == "\U{2003}" && !IsTrimmedEmpty("\U{2003}") && IsBlank("\U{2003}")
  {
  }

  function ToLowerAscii(c: char): (r: char)
    ensures 'A' <= c <= 'Z' ==> 'a' <= r <= 'z' && r as int - 'a' as int == c as int - 'A' as int
    ensures !('A' <= c <= 'Z') ==> r == c
  {
    if 'A' <= c <= 'Z' then (c as int - 'A' as int + 'a' as int) as char else c
  }

  /** `String.equalsIgnoreCase`, with ASCII case folding only. */
  predicate EqualsIgnoreCase(a: string, b: string)
    ensures EqualsIgnoreCase(a, b) ==> |a| == |b|
    ensures a == b ==> EqualsIgnoreCase(a, b)
  {
    |a| == |b| && forall i :: 0 <= i < |a| ==> ToLowerAscii(a[i]) == ToLowerAscii(b[i])
  }

  /** Ignoring case is an equivalence relation that contains equality. */
  lemma EqualsIgnoreCaseIsEquivalence(a: string, b: string, c: string)
    ensures EqualsIgnoreCase(a, a)
    ensures EqualsIgnoreCase(a, b) ==> EqualsIgnoreCase(b, a)
    ensures EqualsIgnoreCase(a, b) && EqualsIgnoreCase(b, c) ==> EqualsIgnoreCase(a, c)
  {
  }

  /** Names that differ only in the case of ASCII letters match. */
  lemma EqualsIgnoreCaseExample()
    ensures EqualsIgnoreCase("CS101", "cs101")
    ensures !EqualsIgnoreCase("CS101", "CS102")
  {
    assert ToLowerAscii("CS101"[4]) != ToLowerAscii("CS102"[4]);
  }
}
