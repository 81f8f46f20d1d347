/**
 * The lexer's character-kind table (src/lexer.js): a 256-entry array that
 * maps a char code to the kind nextToken dispatches on. Kinds are declared
 * in a fixed order; IDENTIFIER_BEGIN and every kind after it stand for
 * identifier characters.
 */
module CharKinds {
  import opened Encoding
  import opened TextUtils

  datatype CharKind =
    | Invalid | LineTerminator | Exclamation | OpenParen | CloseParen | OpenBrace | CloseBrace
    | OpenBracket | CloseBracket | Comma | Colon | Semicolon | Question | Tilde | Quote | Dot
    | Slash | Backslash | Add | Subtract | Multiply | Modulo | And | Or | Xor | Less | Greater
    | Equal | Whitespace | IdentifierBegin | Zero | Number
  {
    /** The position of the kind in the declaration order (the enum values
        increase in this order). */
    function Ordinal(): (n: nat)
      ensures n < 32
      ensures this == IdentifierBegin <==> n == 29
    {
      match this
      case Invalid => 0 case LineTerminator => 1 case Exclamation => 2 case OpenParen => 3
      case CloseParen => 4 case OpenBrace => 5 case CloseBrace => 6 case OpenBracket => 7
      case CloseBracket => 8 case Comma => 9 case Colon => 10 case Semicolon => 11
      case Question => 12 case Tilde => 13 case Quote => 14 case Dot => 15 case Slash => 16
      case Backslash => 17 case Add => 18 case Subtract => 19 case Multiply => 20
      case Modulo => 21 case And => 22 case Or => 23 case Xor => 24 case Less => 25
      case Greater => 26 case Equal => 27 case Whitespace => 28 case IdentifierBegin => 29
      case Zero => 30 case Number => 31
    }
  }

  /** CharacterKindMap: the entry for each code 0..255. Letters, '$', '_'
      and the Latin-1 letters (Ll/Lu) begin identifiers; every code with no
      listed kind is Invalid. */
  function KindTable(code: int): (k: CharKind)
    requires 0 <= code < 256
    ensures 0x80 <= code ==> k == Invalid || k == Whitespace || k == IdentifierBegin
  {
    if code == 9 || code == 11 || code == 12 || code == 32 || code == 160 then Whitespace
    else if code == 10 || code == 13 then LineTerminator
    else if code == 33 then Exclamation
    else if code == 34 || code == 39 then Quote
    else if code == 36 || code == 95 || 65 <= code <= 90 || 97 <= code <= 122 then IdentifierBegin
    else if code == 37 then Modulo
    else if code == 38 then And
    else if code == 40 then OpenParen
    else if code == 41 then CloseParen
    else if code == 42 then Multiply
    else if code == 43 then Add
    else if code == 44 then Comma
    else if code == 45 then Subtract
    else if code == 46 then Dot
    else if code == 47 then Slash
    else if code == 48 then Zero
    else if 49 <= code <= 57 then Number
    else if code == 58 then Colon
    else if code == 59 then Semicolon
    else if code == 60 then Less
    else if code == 61 then Equal
    else if code == 62 then Greater
    else if code == 63 then Question
    else if code == 91 then OpenBracket
    else if code == 92 then Backslash
    else if code == 93 then CloseBracket
    else if code == 94 then Xor
    else if code == 123 then OpenBrace
    else if code == 124 then Or
    else if code == 125 then CloseBrace
    else if code == 126 then Tilde
    else if code == 170 || code == 181 || code == 186 then IdentifierBegin
    else if 192 <= code <= 255 && code != 215 && code != 247 then IdentifierBegin
    else Invalid
  }

  /** getCharacterKind: indexing the table with a code. A code outside
      0..255, and NaN, index no entry and give undefined (None). */
  function KindOf(c: CharCode): (k: Option<CharKind>)
    ensures k.Some? <==> c.Code? && 0 <= c.value < 256
  {
    if c.Code? && 0 <= c.value < 256 then Some(KindTable(c.value)) else None
  }

  /** The kinds nextToken scans as punctuators (a `.` is one only when no
      digit follows it). */
  function IsPunctuation(k: CharKind): (b: bool)
    ensures b ==> 2 <= k.Ordinal() < Whitespace.Ordinal() && k != Quote && k != Dot && k != Backslash
  {
    k in {Exclamation, OpenParen, CloseParen, OpenBrace, CloseBrace, OpenBracket, CloseBracket,
          Comma, Colon, Semicolon, Question, Tilde, Slash, Add, Subtract, Multiply, Modulo,
          And, Or, Xor, Less, Greater, Equal}
  }

  /** Each of the kinds `!` `(` `)` `{` `}` `[` is the kind of that one char. */
  lemma BracketCharacters(c: int)
    requires 0 <= c < 256
    ensures KindTable(c) == Exclamation <==> c == '!' as int
    ensures KindTable(c) == OpenParen <==> c == '(' as int
    ensures KindTable(c) == CloseParen <==> c == ')' as int
    ensures KindTable(c) == OpenBrace <==> c == '{' as int
    ensures KindTable(c) == CloseBrace <==> c == '}' as int
    ensures KindTable(c) == OpenBracket <==> c == '[' as int
  {
    if c < 48 {
    } else if c < 64 {
    } else if c < 96 {
    } else if c < 128 {
    }
  }

  /** Each of the kinds `]` `,` `:` `;` `?` `~` is the kind of that one char. */
  lemma SeparatorCharacters(c: int)
    requires 0 <= c < 256
    ensures KindTable(c) == CloseBracket <==> c == ']' as int
    ensures KindTable(c) == Comma <==> c == ',' as int
    ensures KindTable(c) == Colon <==> c == ':' as int
    ensures KindTable(c) == Semicolon <==> c == ';' as int
    ensures KindTable(c) == Question <==> c == '?' as int
    ensures KindTable(c) == Tilde <==> c == '~' as int
  {
    if c < 48 {
    } else if c < 64 {
    } else if c < 96 {
    } else if c < 128 {
    }
  }

  /** Each of the kinds `.` `/` `\\` `+` `-` `*` `%` is the kind of that one char. */
  lemma ArithmeticCharacters(c: int)
    requires 0 <= c < 256
    ensures KindTable(c) == Dot <==> c == '.' as int
    ensures KindTable(c) == Slash <==> c == '/' as int
    ensures KindTable(c) == Backslash <==> c == '\\' as int
    ensures KindTable(c) == Add <==> c == '+' as int
    ensures KindTable(c) == Subtract <==> c == '-' as int
    ensures KindTable(c) == Multiply <==> c == '*' as int
    ensures KindTable(c) == Modulo <==> c == '%' as int
  {
    if c < 48 {
    } else if c < 64 {
    } else if c < 96 {
    } else if c < 128 {
    }
  }

  /** Each of the kinds `&` `|` `^` `<` `>` `=` is the kind of that one char. */
  lemma ComparisonCharacters(c: int)
    requires 0 <= c < 256
    ensures KindTable(c) == And <==> c == '&' as int
    ensures KindTable(c) == Or <==> c == '|' as int
    ensures KindTable(c) == Xor <==> c == '^' as int
    ensures KindTable(c) == Less <==> c == '<' as int
    ensures KindTable(c) == Greater <==> c == '>' as int
    ensures KindTable(c) == Equal <==> c == '=' as int
  {
    if c < 48 {
    } else if c < 64 {
    } else if c < 96 {
    } else if c < 128 {
    }
  }

  /** QUOTE is the kind of the two quotes, LINE_TERMINATOR of `\n` and `\r`, ZERO of
      `0` and NUMBER of the other digits. */
  lemma LiteralCharacters(c: int)
    requires 0 <= c < 256
    ensures KindTable(c) == Quote <==> c == '"' as int || c == '\'' as int
    ensures KindTable(c) == LineTerminator <==> c == 10 || c == 13
    ensures KindTable(c) == Zero <==> c == '0' as int
    ensures KindTable(c) == Number <==> '1' as int <= c <= '9' as int
  {
  }

  /** Each kind but WHITESPACE, IDENTIFIER_BEGIN and INVALID is the kind of
      the chars it is named after. */
  lemma KindCharacters(c: int)
    requires 0 <= c < 256
    ensures KindTable(c) == Exclamation <==> c == '!' as int
    ensures KindTable(c) == OpenParen <==> c == '(' as int
    ensures KindTable(c) == CloseParen <==> c == ')' as int
    ensures KindTable(c) == OpenBrace <==> c == '{' as int
    ensures KindTable(c) == CloseBrace <==> c == '}' as int
    ensures KindTable(c) == OpenBracket <==> c == '[' as int
    ensures KindTable(c) == CloseBracket <==> c == ']' as int
    ensures KindTable(c) == Comma <==> c == ',' as int
    ensures KindTable(c) == Colon <==> c == ':' as int
    ensures KindTable(c) == Semicolon <==> c == ';' as int
    ensures KindTable(c) == Question <==> c == '?' as int
    ensures KindTable(c) == Tilde <==> c == '~' as int
    ensures KindTable(c) == Dot <==> c == '.' as int
    ensures KindTable(c) == Slash <==> c == '/' as int
    ensures KindTable(c) == Backslash <==> c == '\\' as int
    ensures KindTable(c) == Add <==> c == '+' as int
    ensures KindTable(c) == Subtract <==> c == '-' as int
    ensures KindTable(c) == Multiply <==> c == '*' as int
    ensures KindTable(c) == Modulo <==> c == '%' as int
    ensures KindTable(c) == And <==> c == '&' as int
    ensures KindTable(c) == Or <==> c == '|' as int
    ensures KindTable(c) == Xor <==> c == '^' as int
    ensures KindTable(c) == Less <==> c == '<' as int
    ensures KindTable(c) == Greater <==> c == '>' as int
    ensures KindTable(c) == Equal <==> c == '=' as int
    ensures KindTable(c) == Quote <==> c == '"' as int || c == '\'' as int
    ensures KindTable(c) == LineTerminator <==> c == 10 || c == 13
    ensures KindTable(c) == Zero <==> c == '0' as int
    ensures KindTable(c) == Number <==> '1' as int <= c <= '9' as int
  {
    BracketCharacters(c);
    SeparatorCharacters(c);
    ArithmeticCharacters(c);
    ComparisonCharacters(c);
    LiteralCharacters(c);
  }

  /** isIdentifierBegin: the code's kind is IDENTIFIER_BEGIN. */
  function IsIdentifierBegin(c: CharCode): (b: bool)
    ensures b ==> c.Code? && '$' as int <= c.value < 0x100 && !('0' as int <= c.value <= '9' as int)
  {
    KindOf(c) == Some(IdentifierBegin)
  }

  /** isIdentifierPart: the code's kind is IDENTIFIER_BEGIN or a later one;
      undefined compares false. */
  function IsIdentifierPart(c: CharCode): (b: bool)
    ensures b ==> c.Code? && '$' as int <= c.value < 0x100
  {
    KindOf(c).Some? && KindOf(c).value.Ordinal() >= IdentifierBegin.Ordinal()
  }

  /** Identifier parts are exactly the IDENTIFIER_BEGIN, ZERO and NUMBER
      kinds: every beginning char is a part, digits are parts that cannot
      begin, and no code outside the table is either. */
  lemma IdentifierClasses(c: CharCode)
    ensures IsIdentifierBegin(c) ==> IsIdentifierPart(c)
    ensures IsIdentifierPart(c) <==> KindOf(c) in {Some(IdentifierBegin), Some(Zero), Some(Number)}
    ensures c.Code? && '0' as int <= c.value <= '9' as int ==> IsIdentifierPart(c) && !IsIdentifierBegin(c)
    ensures IsIdentifierPart(c) ==> c.Code? && 0 <= c.value < 256
    ensures c.Code? && c.value < 0x80 ==>
      (IsIdentifierBegin(c) <==> c.value == '$' as int || c.value == '_' as int || IsAlpha(Ch(c.value)))
    ensures c.Code? && c.value < 0x80 ==>
      (IsIdentifierPart(c) <==> c.value == '$' as int || c.value == '_' as int || IsAlphaNumeric(Ch(c.value)))
  {
  }

  /** The table agrees with the TextUtils classes on the codes it covers:
      its WHITESPACE and LINE_TERMINATOR entries are the Latin-1 members of
      those classes, its ZERO and NUMBER entries are the digits, and every
      ASCII letter begins an identifier. */
  lemma TableAgreesWithTextUtils(code: int)
    requires 0 <= code < 256
    ensures KindTable(code) == Whitespace <==> IsWhitespace(Ch(code))
    ensures KindTable(code) == LineTerminator <==> IsLineTerminator(Ch(code))
    ensures KindTable(code) in {Zero, Number} <==> IsDigit(Ch(code))
    ensures IsAlpha(Ch(code)) ==> KindTable(code) == IdentifierBegin
  {
  }

  /** The code points 0x2028 and 0x2029 are line terminators for TextUtils
      but have no table entry, so nextToken reports them as unknown. */
  lemma UnicodeTerminatorsHaveNoKind()
    ensures IsLineTerminator(Ch(0x2028)) && KindOf(Code(0x2028)) == None
    ensures IsLineTerminator(Ch(0x2029)) && KindOf(Code(0x2029)) == None
  {
  }

  /** The table indexed with a one-char string or null, as parseKeyword
      does: a digit string is the array index of that digit, any other
      string and null ("null") name no entry. */
  function KindOfPropertyKey(c: JsChar): (k: Option<CharKind>)
    ensures k.Some? ==> c.Ch? && IsDigit(c)
  {
    if c.Ch? && '0' as int <= c.unit <= '9' as int then Some(KindTable(c.unit - '0' as int)) else None
  }

  /** isIdentifierPart applied to a string or null. */
  function IsIdentifierPartKey(c: JsChar): (b: bool)
    ensures b ==> c.Ch? && '0' as int <= c.unit <= '9' as int
  {
    KindOfPropertyKey(c).Some? && KindOfPropertyKey(c).value.Ordinal() >= IdentifierBegin.Ordinal()
  }

  /** ... is never true: the digit strings index the control codes 0..9
      (INVALID and one WHITESPACE), and nothing else has an entry. */
  lemma IdentifierPartKeyNeverHolds(c: JsChar)
    ensures !IsIdentifierPartKey(c)
  {
  }
}
