/**
 * The two string tests the route locator uses from Spring's `StringUtils`,
 * over possibly-null Java strings (`None` is `null`).
 */
module StringUtils {
  import opened Wrappers

  /**
   * Java's `Character.isWhitespace`: the ASCII controls TAB, LF, VT, FF, CR,
   * the separators U+001C..U+001F, and every Unicode space, line or paragraph
   * separator except the non-breaking ones (U+00A0, U+2007, U+202F).
   */
  predicate IsWhitespace(c: char) {
    var n := c as int;
    || 0x09 <= n <= 0x0D
    || 0x1C <= n <= 0x20
    || n == 0x1680
    || 0x2000 <= n <= 0x2006
    || 0x2008 <= n <= 0x200A
    || n == 0x2028 || n == 0x2029
    || n == 0x205F
    || n == 0x3000
  }

  /** `StringUtils.isEmpty`: the string is `null` or `""`. */
  predicate IsEmpty(s: Option<string>) {
    s.None? || s.value == ""
  }

  /** Some character of `s` is not whitespace (the scan of `StringUtils.containsText`). */
  predicate ContainsText(s: string) {
    |s| > 0 && (!IsWhitespace(s[0]) || ContainsText(s[1..]))
  }

  /** `StringUtils.hasText`: not `null`, and at least one character is not whitespace. */
  predicate HasText(s: Option<string>) {
    s.Some? && ContainsText(s.value)
  }

  /** `ContainsText` finds exactly the strings with a character that is not whitespace. */
  lemma {:induction false} ContainsTextMeans(s: string)
    ensures ContainsText(s) <==> exists i :: 0 <= i < |s| && !IsWhitespace(s[i])
  {
    if |s| > 0 {
      ContainsTextMeans(s[1..]);
      if !IsWhitespace(s[0]) {
        assert !IsWhitespace(s[0]);
      } else {
        assert forall i :: 1 <= i < |s| ==> s[i] == s[1..][i - 1];
      }
    }
  }

  /** A string with text is never empty; the converse fails for blank strings. */
  lemma HasTextIsNotEmpty(s: Option<string>)
    ensures HasText(s) ==> !IsEmpty(s)
    ensures !IsEmpty(Some(" ")) && !HasText(Some(" "))
  {
  }

}
