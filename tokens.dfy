/**
 * The token vocabulary the lexer produces: the token kinds it names, the
 * value a token carries, the mutable token record nextToken fills in, the
 * error messages it records, and the keyword table it consults.
 *
 * The token module itself (token.Kind, token.Identifiers) is not part of
 * this model: the kinds below are the ones the lexer names, and every other
 * keyword kind is `Keyword(id)`. The keyword table is a parameter.
 */
module Tokens {
  import opened Encoding

  datatype TokenKind =
    | Unknown | Error | Eof
    | StrictEqual | EqualEqual | Equal
    | LshiftEqual | Lshift | LessEqual | Less
    | UrshiftEqual | Urshift | RshiftEqual | Rshift | GreaterEqual | Greater
    | StrictNotEqual | NotEqual | Exclamation
    | DivEqual | Div
    | PlusPlus | PlusPlusAuto | PlusEqual | Plus
    | MinusMinus | MinusMinusAuto | MinusEqual | Minus
    | MultEqual | Mult
    | LogicalAnd | AndEqual | BitwiseAnd
    | OrEqual | LogicalOr | BitwiseOr
    | XorEqual | BitwiseXor
    | ModEqual | Mod
    | Comma | Colon | Semicolon | Question | Tilde | Dot
    | OpenParen | CloseParen | OpenBracket | CloseBracket | OpenBrace | CloseBrace
    | String | Number | Identifier | ReservedStrict
    | Continue | Break | Return | Throw
    | Keyword(id: nat)

  /** The characters of each punctuator; empty for the other kinds. The
      `_AUTO` variants are spelled like the plain operators. */
  function Spelling(k: TokenKind): (s: string)
    ensures |s| <= 4
  {
    match k
    case StrictEqual => "===" case EqualEqual => "==" case Equal => "="
    case LshiftEqual => "<<=" case Lshift => "<<" case LessEqual => "<=" case Less => "<"
    case UrshiftEqual => ">>>=" case Urshift => ">>>" case RshiftEqual => ">>="
    case Rshift => ">>" case GreaterEqual => ">=" case Greater => ">"
    case StrictNotEqual => "!==" case NotEqual => "!=" case Exclamation => "!"
    case DivEqual => "/=" case Div => "/"
    case PlusPlus => "++" case PlusPlusAuto => "++" case PlusEqual => "+=" case Plus => "+"
    case MinusMinus => "--" case MinusMinusAuto => "--" case MinusEqual => "-=" case Minus => "-"
    case MultEqual => "*=" case Mult => "*"
    case LogicalAnd => "&&" case AndEqual => "&=" case BitwiseAnd => "&"
    case OrEqual => "|=" case LogicalOr => "||" case BitwiseOr => "|"
    case XorEqual => "^=" case BitwiseXor => "^"
    case ModEqual => "%=" case Mod => "%"
    case Comma => "," case Colon => ":" case Semicolon => ";" case Question => "?"
    case Tilde => "~" case Dot => "."
    case OpenParen => "(" case CloseParen => ")" case OpenBracket => "[" case CloseBracket => "]"
    case OpenBrace => "{" case CloseBrace => "}"
    case _ => ""
  }

  predicate IsPunctuator(k: TokenKind)
  {
    Spelling(k) != ""
  }

  /** The punctuators that begin with c, longest first: the spellings the
      lexer chooses between once it has dispatched on c. */
  function Family(c: char): seq<string>
  {
    match c
    case '=' => ["===", "==", "="]
    case '<' => ["<<=", "<<", "<=", "<"]
    case '>' => [">>>=", ">>>", ">>=", ">>", ">=", ">"]
    case '!' => ["!==", "!=", "!"]
    case '/' => ["/=", "/"]
    case '+' => ["++", "+=", "+"]
    case '-' => ["--", "-=", "-"]
    case '*' => ["*=", "*"]
    case '&' => ["&&", "&=", "&"]
    case '|' => ["|=", "||", "|"]
    case '^' => ["^=", "^"]
    case '%' => ["%=", "%"]
    case _ => [[c]]
  }

  /** Every punctuator is in the family of its first char. */
  lemma FamilyComplete(k: TokenKind)
    requires IsPunctuator(k)
    ensures Spelling(k) in Family(Spelling(k)[0])
  {
    if k in {StrictEqual, EqualEqual, Equal, LshiftEqual, Lshift, LessEqual, Less} {
      EqualLessFamilies(k);
    } else if k in {UrshiftEqual, Urshift, RshiftEqual, Rshift, GreaterEqual, Greater,
                       StrictNotEqual, NotEqual, Exclamation} {
      GreaterExclamationFamilies(k);
    } else if k in {DivEqual, Div, PlusPlus, PlusPlusAuto, PlusEqual, Plus,
                       MinusMinus, MinusMinusAuto, MinusEqual, Minus} {
      SlashAddSubtractFamilies(k);
    } else if k in {MultEqual, Mult, LogicalAnd, AndEqual, BitwiseAnd} {
      MultiplyAndFamilies(k);
    } else if k in {OrEqual, LogicalOr, BitwiseOr, XorEqual, BitwiseXor, ModEqual, Mod} {
      OrXorModuloFamilies(k);
    } else if IsSingle(k) {
      SingleFamilies(k);
    }
  }

  /** The punctuators beginning with `=` and `<` are in their families. */
  lemma EqualLessFamilies(k: TokenKind)
    requires k in {StrictEqual, EqualEqual, Equal, LshiftEqual, Lshift, LessEqual, Less}
    ensures IsPunctuator(k) && Spelling(k) in Family(Spelling(k)[0])
  {
    match k
    case StrictEqual =>
    case EqualEqual =>
    case Equal =>
    case LshiftEqual =>
    case Lshift =>
    case LessEqual =>
    case Less =>
  }

  /** The punctuators beginning with `>` and `!` are in their families. */
  lemma GreaterExclamationFamilies(k: TokenKind)
    requires k in {UrshiftEqual, Urshift, RshiftEqual, Rshift, GreaterEqual, Greater,
                   StrictNotEqual, NotEqual, Exclamation}
    ensures IsPunctuator(k) && Spelling(k) in Family(Spelling(k)[0])
  {
    match k
    case UrshiftEqual =>
    case Urshift =>
    case RshiftEqual =>
    case Rshift =>
    case GreaterEqual =>
    case Greater =>
    case StrictNotEqual =>
    case NotEqual =>
    case Exclamation =>
  }

  /** The punctuators beginning with `/`, `+` and `-` are in their families. */
  lemma SlashAddSubtractFamilies(k: TokenKind)
    requires k in {DivEqual, Div, PlusPlus, PlusPlusAuto, PlusEqual, Plus,
                   MinusMinus, MinusMinusAuto, MinusEqual, Minus}
    ensures IsPunctuator(k) && Spelling(k) in Family(Spelling(k)[0])
  {
    match k
    case DivEqual =>
    case Div =>
    case PlusPlus =>
    case PlusPlusAuto =>
    case PlusEqual =>
    case Plus =>
    case MinusMinus =>
    case MinusMinusAuto =>
    case MinusEqual =>
    case Minus =>
  }

  /** The punctuators beginning with `*` and `&` are in their families. */
  lemma MultiplyAndFamilies(k: TokenKind)
    requires k in {MultEqual, Mult, LogicalAnd, AndEqual, BitwiseAnd}
    ensures IsPunctuator(k) && Spelling(k) in Family(Spelling(k)[0])
  {
    match k
    case MultEqual =>
    case Mult =>
    case LogicalAnd =>
    case AndEqual =>
    case BitwiseAnd =>
  }

  /** The punctuators beginning with `|`, `^` and `%` are in their families. */
  lemma OrXorModuloFamilies(k: TokenKind)
    requires k in {OrEqual, LogicalOr, BitwiseOr, XorEqual, BitwiseXor, ModEqual, Mod}
    ensures IsPunctuator(k) && Spelling(k) in Family(Spelling(k)[0])
  {
    match k
    case OrEqual =>
    case LogicalOr =>
    case BitwiseOr =>
    case XorEqual =>
    case BitwiseXor =>
    case ModEqual =>
    case Mod =>
  }

  /** The families of the operator chars. */
  lemma OperatorFamilies()
    ensures Family('=') == ["===", "==", "="]
    ensures Family('<') == ["<<=", "<<", "<=", "<"]
    ensures Family('>') == [">>>=", ">>>", ">>=", ">>", ">=", ">"]
    ensures Family('!') == ["!==", "!=", "!"]
    ensures Family('+') == ["++", "+=", "+"]
    ensures Family('-') == ["--", "-=", "-"]
    ensures Family('*') == ["*=", "*"]
    ensures Family('&') == ["&&", "&=", "&"]
    ensures Family('|') == ["|=", "||", "|"]
    ensures Family('^') == ["^=", "^"]
    ensures Family('%') == ["%=", "%"]
  {
  }

  /** The one-char punctuators no other punctuator begins with, and the
      char each is. */
  function SingleChar(k: TokenKind): Option<char>
  {
    match k
    case Comma => Some(',') case Colon => Some(':') case Semicolon => Some(';')
    case Question => Some('?') case Tilde => Some('~') case Dot => Some('.')
    case OpenParen => Some('(') case CloseParen => Some(')')
    case OpenBracket => Some('[') case CloseBracket => Some(']')
    case OpenBrace => Some('{') case CloseBrace => Some('}')
    case _ => None
  }

  predicate IsSingle(k: TokenKind)
  {
    SingleChar(k).Some?
  }

  /** ... each is spelled by its char and is its own family. */
  lemma SingleFamilies(k: TokenKind)
    requires IsSingle(k)
    ensures Spelling(k) == [SingleChar(k).value]
    ensures Family(SingleChar(k).value) == [Spelling(k)]
  {
  }

  /** isLastTokenCompletionKeyword: the kinds after which a line comment
      ends the statement. */
  function IsCompletionKeyword(k: TokenKind): (b: bool)
    ensures b ==> !IsPunctuator(k) && !IsSingle(k)
  {
    k == Continue || k == Break || k == Return || k == Throw
  }

  /** The value a token carries: an integer (a decimal, hex or octal
      literal, or the offset of a brace), NaN (parseInt of no digits), a
      string (identifier, keyword or string literal), or the text of a
      numeric literal that parseFloat would read. */
  datatype TokenValue =
    | NoValue
    | Num(n: int)
    | NaNValue
    | Text(units: seq<int>)
    | NumberText(units: seq<int>)

  /** The token record nextToken fills in. */
  class Token {
    var kind: TokenKind
    var begin: int
    var end: int
    var line: int
    var value: TokenValue

    constructor ()
      ensures kind == Unknown && value == NoValue
    {
      kind := Unknown;
      begin, end, line := 0, 0, 0;
      value := NoValue;
    }
  }

  /** The messages the lexer records with setError or throwOnError. */
  datatype ErrorMessage =
    | ExpectedLineTerminator
    | BufferNotEmpty
    | MultilineCommentNotClosed
    | OctalInStrictMode
    | InvalidCharacter
    | UnknownError
    | NonNumberAfterExponent
    | DigitAfterDecimalPoint
    | NotImplemented
    | HexEscape
    | UnicodeEscape
    | StrictNumericEscape
    | UnterminatedString
    | UnexpectedEndOfFile
    | KeywordUnparsable
    | ExpectedIdentifierBegin

  /** How a call that may throw ends: it returns a value, it throws the
      recorded error, or it never returns. */
  datatype Outcome<T> = Returned(value: T) | Aborted(message: ErrorMessage) | Diverges

  /** The keyword table token.Identifiers: (spelling, kind) pairs in the
      order a for-in loop visits them. */
  type KeywordTable = seq<(seq<int>, TokenKind)>

  /** getTokenKindFromIdentifier: the kind of the first entry spelled `id`,
      or UNKNOWN when there is none. */
  function KindOfIdentifier(table: KeywordTable, id: seq<int>): (k: TokenKind)
    ensures k != Unknown ==> (id, k) in table
    ensures (forall i :: 0 <= i < |table| ==> table[i].0 != id) ==> k == Unknown
    ensures forall i :: (0 <= i < |table| && table[i].0 == id &&
                         forall j :: 0 <= j < i ==> table[j].0 != id) ==> k == table[i].1
  {
    if table == [] then Unknown
    else if table[0].0 == id then table[0].1
    else KindOfIdentifier(table[1..], id)
  }
}
