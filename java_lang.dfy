/**
 * The few pieces of the Java platform and of Spring's utilities that the
 * interceptor relies on: nullable values, the 64-bit `long`, the rendering of
 * a null String in a concatenation, and `StringUtils.hasText`.
 */
module JavaLang {

  /** A Java reference that may be null: `None` stands for null. */
  datatype Option<T> = None | Some(value: T)

  /** Java's signed 64-bit `long` (the element type behind `Long`). */
  newtype Long = x: int | -0x8000_0000_0000_0000 <= x < 0x8000_0000_0000_0000

  const TWO_TO_64: int := 0x1_0000_0000_0000_0000

  /** The text a (possibly null) String contributes to a `+` concatenation. */
  function Render(s: Option<string>): (r: string)
  {
    match s
    case None => "null"
    case Some(t) => t
  }

  /**
   * `Character.isWhitespace`: the Unicode space, line and paragraph separators
   * other than the three no-break spaces, plus the ASCII controls U+0009..U+000D
   * and U+001C..U+001F. This is the list of Unicode 6.3 and later (Java 9
   * onwards); on Java 7 and 8, U+180E MONGOLIAN VOWEL SEPARATOR is a space
   * separator too and counts as whitespace there, but not here.
   */
  predicate IsWhitespace(c: char)
  {
    var n := c as int;
    || (0x09 <= n <= 0x0D)
    || (0x1C <= n <= 0x20)
    || n == 0x1680
    || (0x2000 <= n <= 0x2006)
    || (0x2008 <= n <= 0x200A)
    || n == 0x2028 || n == 0x2029 || n == 0x205F || n == 0x3000
  }

  /** `StringUtils.hasText`: not null and holding at least one non-whitespace character. */
  predicate HasText(s: Option<string>)
  {
    s.Some? && exists i :: 0 <= i < |s.value| && !IsWhitespace(s.value[i])
  }

  /** A string that starts with a character that is not whitespace has text. */
  lemma HasTextFromFirst(s: string)
    requires |s| > 0 && !IsWhitespace(s[0])
    ensures HasText(Some(s))
  {
  }

  /** Null, the empty string and all-blank strings have no text. */
  lemma NoTextWhenBlank(s: Option<string>)
    requires s.Some? ==> forall i :: 0 <= i < |s.value| ==> IsWhitespace(s.value[i])
    ensures !HasText(s)
  {
  }
}
