/**
 * TextUtils (src/text.js): character classes over the one-unit strings the
 * lexer reads, and the value of a single-character escape.
 *
 * The lexer also hands these predicates `null` (what peek returns past the
 * end). JavaScript compares `null` with a one-char string numerically:
 * `null` becomes 0, a digit string its digit, a string of one white-space
 * or line-terminator char 0, and any other string NaN. So the range tests
 * against '0'..'9' and '0'..'7' succeed on null, and the tests against
 * letters, NUL and the `===` tests fail.
 */
module TextUtils {
  import opened Encoding

  /** A JavaScript value the lexer classifies: a one-unit string, or null. */
  datatype JsChar = Ch(unit: int) | Null

  /** The units ECMAScript's StringToNumber trims as white space: the
      WhiteSpace chars (tab, vertical tab, form feed, space, no-break space,
      the byte order mark and the other space separators) and the four line
      terminators. A string of one of them converts to 0. */
  predicate StrSpace(u: int)
  {
    u in {0x09, 0x0A, 0x0B, 0x0C, 0x0D, 0x20, 0xA0, 0x1680, 0x2028, 0x2029, 0x202F, 0x205F, 0x3000, 0xFEFF}
    || 0x2000 <= u <= 0x200A
  }

  /** The number a JavaScript relational operator makes of a one-char string
      compared with null: the digit value for '0'..'9', 0 for a white-space
      or line-terminator char, otherwise NaN. */
  function NullCompareNumber(digitOrNot: int): (n: Option<int>)
    ensures n.Some? ==> 0 <= n.value <= 9
    ensures '0' as int <= digitOrNot <= '9' as int ==> n == Some(digitOrNot - '0' as int)
    ensures StrSpace(digitOrNot) ==> n == Some(0)
    ensures n.None? <==> !('0' as int <= digitOrNot <= '9' as int) && !StrSpace(digitOrNot)
  {
    if '0' as int <= digitOrNot <= '9' as int then Some(digitOrNot - '0' as int)
    else if StrSpace(digitOrNot) then Some(0)
    else None
  }

  /** `x >= lo && x <= hi` for a unit range [lo, hi]; on null, the test is
      `0 >= n(lo) && 0 <= n(hi)` with n the conversion above. */
  function InRange(c: JsChar, lo: char, hi: char): (b: bool)
    ensures c.Ch? ==> (b <==> lo as int <= c.unit <= hi as int)
    ensures c.Null? ==> (b <==> (lo == '0' || StrSpace(lo as int)) && ('0' <= hi <= '9' || StrSpace(hi as int)))
  {
    match c
    case Ch(u) => lo as int <= u <= hi as int
    case Null =>
      var a := NullCompareNumber(lo as int);
      var b := NullCompareNumber(hi as int);
      a.Some? && b.Some? && 0 >= a.value && 0 <= b.value
  }

  /** isWhitespace: space, tab, vertical tab, form feed, no-break space,
      U+180E and the byte order mark. */
  function IsWhitespace(c: JsChar): (b: bool)
    ensures b ==> c.Ch? && 0x09 <= c.unit <= 0xFEFF && c.unit != 0x0A && c.unit != 0x0D
    ensures c.Ch? && c.unit < 0x80 ==> (b <==> c.unit == 0x20 || (0x09 <= c.unit <= 0x0C && c.unit != 0x0A))
  {
    c.Ch? && c.unit in {0x20, 0x09, 0x0B, 0x0C, 0xA0, 0x180E, 0xFEFF}
  }

  /** isLineTerminator: LF, CR and the two Unicode separators. */
  function IsLineTerminator(c: JsChar): (b: bool)
    ensures b ==> c.Ch? && (c.unit < '0' as int || 0x2028 <= c.unit)
    ensures c.Ch? && c.unit < 0x100 ==> (b <==> c.unit == 0x0A || c.unit == 0x0D)
  {
    c.Ch? && c.unit in {0x0A, 0x0D, 0x2028, 0x2029}
  }

  function IsUpper(c: JsChar): (b: bool)
    ensures b <==> c.Ch? && 'A' as int <= c.unit <= 'Z' as int
  {
    InRange(c, 'A', 'Z')
  }

  function IsLower(c: JsChar): (b: bool)
    ensures b <==> c.Ch? && 'a' as int <= c.unit <= 'z' as int
  {
    InRange(c, 'a', 'z')
  }

  function IsAlpha(c: JsChar): (b: bool)
    ensures b <==> c.Ch? && ('A' as int <= c.unit <= 'Z' as int || 'a' as int <= c.unit <= 'z' as int)
  {
    InRange(c, 'A', 'Z') || InRange(c, 'a', 'z')
  }

  function IsDigit(c: JsChar): (b: bool)
    ensures b <==> c.Null? || (c.Ch? && '0' as int <= c.unit <= '9' as int)
  {
    InRange(c, '0', '9')
  }

  function IsAlphaNumeric(c: JsChar): (b: bool)
    ensures b ==> c.Null? || (c.Ch? && '0' as int <= c.unit <= 'z' as int)
    ensures c.Ch? && c.unit == '_' as int ==> !b
  {
    IsAlpha(c) || IsDigit(c)
  }

  function IsHexDigit(c: JsChar): (b: bool)
    ensures b <==> c.Null? || (c.Ch? && ('0' as int <= c.unit <= '9' as int ||
                                         'A' as int <= c.unit <= 'F' as int || 'a' as int <= c.unit <= 'f' as int))
  {
    IsDigit(c) || InRange(c, 'A', 'F') || InRange(c, 'a', 'f')
  }

  function IsOctalDigit(c: JsChar): (b: bool)
    ensures b <==> c.Null? || (c.Ch? && '0' as int <= c.unit <= '7' as int)
  {
    InRange(c, '0', '7')
  }

  /** isBinaryDigit compares with `===`, so null is not a binary digit. */
  function IsBinaryDigit(c: JsChar): (b: bool)
    ensures b ==> c.Ch? && '0' as int <= c.unit <= '1' as int
  {
    c == Ch('0' as int) || c == Ch('1' as int)
  }

  function IsAscii(c: JsChar): (b: bool)
    ensures b <==> c.Ch? && 0 <= c.unit < 0x80
  {
    InRange(c, '\0', '\U{7F}')
  }

  /** The digit classes nest, letters split into upper and lower case, and
      nothing is both a space and a line terminator. */
  lemma ClassInclusions(c: JsChar)
    ensures IsBinaryDigit(c) ==> IsOctalDigit(c)
    ensures IsOctalDigit(c) ==> IsDigit(c)
    ensures IsDigit(c) ==> IsHexDigit(c) && IsAlphaNumeric(c)
    ensures IsAlpha(c) <==> IsUpper(c) || IsLower(c)
    ensures !(IsUpper(c) && IsLower(c))
    ensures !(IsAlpha(c) && IsDigit(c))
    ensures !(IsWhitespace(c) && IsLineTerminator(c))
    ensures IsAlphaNumeric(c) && c.Ch? ==> IsAscii(c)
  {
  }

  /** What the classes make of null. */
  lemma NullClasses()
    ensures IsDigit(Null) && IsOctalDigit(Null) && IsHexDigit(Null) && IsAlphaNumeric(Null)
    ensures !IsAlpha(Null) && !IsUpper(Null) && !IsLower(Null) && !IsAscii(Null)
    ensures !IsBinaryDigit(Null) && !IsWhitespace(Null) && !IsLineTerminator(Null)
  {
  }

  /** The value of a digit unit in a radix up to 16. */
  function DigitValue(u: int): (d: int)
    requires IsHexDigit(Ch(u))
    ensures 0 <= d < 16
    ensures IsDigit(Ch(u)) <==> d < 10
    ensures IsOctalDigit(Ch(u)) <==> d < 8
  {
    if u <= '9' as int then u - '0' as int
    else if u <= 'F' as int then u - 'A' as int + 10
    else u - 'a' as int + 10
  }

  /** The unit `\` followed by `c` stands for in a string literal, or None
      where getEscapeChar returns the number 0. */
  function GetEscapeChar(c: JsChar): (r: Option<int>)
    ensures r.Some? <==> c.Ch? && c.unit in {'b' as int, 't' as int, 'n' as int, 'v' as int,
                                          'f' as int, 'r' as int, '\\' as int, '\'' as int, '"' as int}
    ensures r.Some? ==> 0 < r.value < 0x80 && !IsAlphaNumeric(Ch(r.value))
  {
    match c
    case Null => None
    case Ch(u) =>
      if u == 'b' as int then Some(0x08)
      else if u == 't' as int then Some(0x09)
      else if u == 'n' as int then Some(0x0A)
      else if u == 'v' as int then Some(0x0B)
      else if u == 'f' as int then Some(0x0C)
      else if u == 'r' as int then Some(0x0D)
      else if u == '\\' as int then Some(0x5C)
      else if u == '\'' as int then Some(0x27)
      else if u == '"' as int then Some(0x22)
      else None
  }

  /** Distinct escape letters stand for distinct units, and the quote and
      backslash escapes stand for themselves. */
  lemma EscapeInjective(a: JsChar, b: JsChar)
    requires GetEscapeChar(a).Some? && GetEscapeChar(b).Some?
    ensures GetEscapeChar(a) == GetEscapeChar(b) ==> a == b
    ensures a.unit in {'\\' as int, '\'' as int, '"' as int} <==> GetEscapeChar(a) == Some(a.unit)
  {
  }
}
