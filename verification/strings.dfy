/** The part of java.lang.String the Pet aggregate relies on: `isBlank`. */
module Strings {

  /** Character.isWhitespace: the Unicode space, line and paragraph separators
      except the three non-breaking spaces (U+00A0, U+2007, U+202F), plus the
      controls U+0009..U+000D and U+001C..U+001F. */
  predicate IsWhitespace(c: char) {
    var u := c as int;
    || (0x09 <= u <= 0x0D)
    || (0x1C <= u <= 0x20)
    || u == 0x1680
    || (0x2000 <= u <= 0x2006)
    || (0x2008 <= u <= 0x200A)
    || u == 0x2028
    || u == 0x2029
    || u == 0x205F
    || u == 0x3000
  }

  /** String.isBlank: the string is empty or holds only whitespace. */
  function IsBlank(s: string): (blank: bool)
    ensures blank <==> forall i :: 0 <= i < |s| ==> IsWhitespace(s[i])
    ensures |s| == 0 ==> blank
  {
    if |s| == 0 then true
    else IsWhitespace(s[0]) && IsBlank(s[1..])
  }
}
