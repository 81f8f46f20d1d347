/**
 * jsc.Lexer (src/lexer.js): a pull tokenizer over the UTF-16 buffer of a
 * SourceCode. Each nextToken call skips whitespace, dispatches on the kind
 * of the current char code, and scans one token.
 *
 * The lexer keeps the current char twice: `ch`, the one-unit string, and
 * `chCode`, the code the buffer decodes at the position (a surrogate pair
 * decodes to one code above 0xFFFF, whose unit `ch` is the code mod 0x10000).
 * From the end of the scanned range on, both read as 0.
 */
module Lexers {
  import opened Encoding
  import opened TextUtils
  import CharKinds
  import opened Tokens
  import opened Spans
  import opened TextBuffers
  import opened SourceCodes
  import opened Digits

  /** MAX_KEYWORD_LENGTH. */
  const MaxKeywordLength := 11

  /** The number a char code stands for in arithmetic (NaN, which the
      digit runs never hold, as 0). */
  function CodeNumber(c: CharCode): int
  {
    if c.Code? then c.value else 0
  }

  /** The units of a list of chars up to the first null: what parseInt reads
      of their concatenation, where a null reads as "null". */
  function UpToNull(cs: seq<JsChar>): (r: seq<int>)
    ensures |r| <= |cs|
    ensures forall i :: 0 <= i < |r| ==> cs[i] == Ch(r[i])
    ensures |r| < |cs| ==> cs[|r|].Null?
  {
    if cs == [] || cs[0].Null? then [] else [cs[0].unit] + UpToNull(cs[1..])
  }

  /** String.fromCharCode(parseInt(s, 16)) where s joins chars that are all
      hex digits by isHexDigit: a null joins as "null", so the digits parseInt
      reads end at the first one. */
  function HexChar(cs: seq<JsChar>): (u: int)
    requires forall i :: 0 <= i < |cs| ==> IsHexDigit(cs[i])
    ensures 0 <= u < 0x10000
    ensures cs != [] && cs[0].Ch? ==> AllDigitsOf(16, UpToNull(cs)) && u == DigitFold(UpToNull(cs), 16) % 0x10000
  {
    var digits := UpToNull(cs);
    assert AllDigitsOf(16, digits) by {
      forall i | 0 <= i < |digits| ensures IsDigitOf(16, digits[i]) {
        assert cs[i] == Ch(digits[i]);
      }
    }
    DigitFold(digits, 16) % 0x10000
  }

  lemma Concat3(a: seq<int>, b: seq<int>, c: seq<int>)
    ensures a + b + c == a + (b + c)
  {
  }

  lemma Concat4(a: seq<int>, b: seq<int>, c: seq<int>, d: seq<int>)
    ensures a + b + c + d == a + (b + c + d)
  {
  }

  /** A UTF-16 code unit: what getChar returns. */
  type Unit = u: int | 0 <= u < 0x10000

  /** The error, chBuffer and line bookkeeping a cursor move leaves alone. */
  datatype Bookkeeping = Bookkeeping(
    lineNumber: int, lastTokenKind: TokenKind, isLineBegin: bool,
    hasLineTerminator: bool, error: Option<ErrorMessage>, chBuffer: seq<int>)

  /** How the rest of a string literal ends: at its closing quote, with the
      message setError records, or past `end`, from where parseString's loop
      steps on forever. */
  datatype StringEnd = Closed | Failed(message: ErrorMessage) | Runaway

  /** What scanning the rest of a string literal comes to: how it ends, the
      position it stops at, the units it pushes to chBuffer, and the line
      terminators it consumes. */
  datatype StringScan = StringScan(ending: StringEnd, stop: int, pushed: seq<int>, lines: nat)

  /** What one escape sequence after a backslash comes to: the position
      after it, the units it appends and the lines it consumes; or the
      position where it fails and the message. */
  datatype EscapeScan =
    | Escaped(stop: int, units: seq<int>, lines: nat)
    | EscapeFailed(stop: int, message: ErrorMessage)

  /** The one-char punctuator kinds of the table. */
  predicate IsSingleKind(kind: CharKinds.CharKind)
  {
    kind == CharKinds.Comma || kind == CharKinds.Colon || kind == CharKinds.Semicolon ||
    kind == CharKinds.Question || kind == CharKinds.Tilde ||
    kind == CharKinds.OpenParen || kind == CharKinds.CloseParen ||
    kind == CharKinds.OpenBracket || kind == CharKinds.CloseBracket ||
    kind == CharKinds.OpenBrace || kind == CharKinds.CloseBrace
  }

  /** The token each of them is. */
  function SingleOf(kind: CharKinds.CharKind): TokenKind
  {
    match kind
    case Comma => Comma case Colon => Colon case Semicolon => Semicolon
    case Question => Question case Tilde => Tilde
    case OpenParen => OpenParen case CloseParen => CloseParen
    case OpenBracket => OpenBracket case CloseBracket => CloseBracket
    case OpenBrace => OpenBrace case CloseBrace => CloseBrace
    case _ => Unknown
  }

  /** A char of a one-char punctuator kind is the char of its token. */
  lemma SingleLead(c: int)
    requires 0 <= c < 256 && IsSingleKind(CharKinds.KindTable(c))
    ensures var k := SingleOf(CharKinds.KindTable(c));
            IsSingle(k) && k != Dot && SingleChar(k).value as int == c
  {
    CharKinds.BracketCharacters(c);
    CharKinds.SeparatorCharacters(c);
  }

  /** How one pass of nextToken's loop ends: with a token of a kind (the
      `break loop` cases), with an error token (`hasError`), at the start of
      a line comment, with another pass (`continue loop`), or with a throw
      or a scan that never returns. */
  datatype Step = Emit(kind: TokenKind) | Fail | LineComment | Again | Stop(outcome: Outcome<TokenKind>)

  /** How one turn of nextToken's loop ends, the skipped whitespace and
      the rest of a line comment included: with a token (a SEMICOLON when
      a line comment ends a statement), with an error token, at the end of
      the text, with another turn, or with a throw or a runaway scan. */
  datatype Turn = Found(kind: TokenKind, afterComment: bool) | Errored | AtEnd | Onward | Thrown(outcome: Outcome<TokenKind>)

  class Lexer {
    /** The units of the buffer's source, and the offset scanning stops at. */
    const units: seq<int>
    const end: int
    const keywords: KeywordTable
    /** The code and the char the buffer gives at each index, read once:
        `codes[i]` is getCharCode's result and `chars[i]` getChar's. */
    const codes: seq<CharCode>
    const chars: seq<Unit>
    /** Whether isIdentifierPart holds for the code at each index. */
    const parts: seq<bool>

    var position: int
    var lineNumber: int
    var lastTokenKind: TokenKind
    var isLineBegin: bool
    var hasLineTerminator: bool
    var error: Option<ErrorMessage>
    var ch: int
    var chCode: CharCode
    var chLast: JsChar
    var chBuffer: seq<int>

    // -------------------------------------------------------------------
    // The text as the lexer sees it

    /** sourceBuffer.getChar(i): the unit of the code decoded at i (0 for
        an index outside the buffer). */
    function BufferChar(i: int): (u: int)
      ensures 0 <= u < 0x10000
    {
      if 0 <= i < |chars| then chars[i] else 0
    }

    /** The code getCharCode reads at a position: 0 from `end` on. */
    function CodeAt(p: int): (c: CharCode)
      ensures end <= p ==> c == Code(0)
    {
      if p < end then (if 0 <= p < |codes| then codes[p] else NotANumber) else Code(0)
    }

    /** The char getChar reads at a position: '\0' from `end` on. */
    function CharAt(p: int): (u: int)
      ensures 0 <= u < 0x10000
      ensures u != 0 ==> p < end
    {
      if p < end then BufferChar(p) else 0
    }

    /** peek at an absolute position: null from `end` on. */
    function PeekAt(p: int): (c: JsChar)
      ensures c.Null? <==> end <= p
      ensures c.Ch? ==> c.unit == CharAt(p)
    {
      if p < end then Ch(BufferChar(p)) else Null
    }

    /** The chars from p on spell w, a word of at most four chars (the
        longest punctuator, `>>>=`, has four). */
    predicate SpelledAt(p: int, w: string)
    {
      |w| <= 4 &&
      (|w| > 0 ==> CharAt(p) == w[0] as int) &&
      (|w| > 1 ==> CharAt(p + 1) == w[1] as int) &&
      (|w| > 2 ==> CharAt(p + 2) == w[2] as int) &&
      (|w| > 3 ==> CharAt(p + 3) == w[3] as int)
    }

    /** k is the longest punctuator spelled at p. */
    ghost predicate LongestAt(p: int, k: TokenKind)
    {
      IsPunctuator(k) && SpelledAt(p, Spelling(k)) &&
      forall k' :: IsPunctuator(k') && SpelledAt(p, Spelling(k')) ==> |Spelling(k')| <= |Spelling(k)|
    }

    /** k is spelled at p and no longer member of its family is. */
    predicate LongestInFamily(p: int, k: TokenKind)
    {
      IsPunctuator(k) && SpelledAt(p, Spelling(k)) &&
      forall w :: w in Family(Spelling(k)[0]) && SpelledAt(p, w) ==> |w| <= |Spelling(k)|
    }

    /** Every punctuator spelled at p starts with the char there, so it is in
        the family of that char: the longest one of the family is the longest
        of all. */
    lemma LongestInFamilyIsLongest(p: int, k: TokenKind)
      requires LongestInFamily(p, k)
      ensures LongestAt(p, k)
    {
      forall k' | IsPunctuator(k') && SpelledAt(p, Spelling(k'))
        ensures |Spelling(k')| <= |Spelling(k)|
      {
        assert CharAt(p) == Spelling(k')[0] as int == Spelling(k)[0] as int;
        FamilyComplete(k');
      }
    }

    /** A punctuator spelled at p is the longest there when no longer word
        of the list of its family is. */
    lemma LongestOf(p: int, k: TokenKind, f: seq<string>)
      requires IsPunctuator(k) && SpelledAt(p, Spelling(k)) && Family(Spelling(k)[0]) == f
      requires forall w :: w in f && SpelledAt(p, w) ==> |w| <= |Spelling(k)|
      ensures LongestAt(p, k)
    {
      LongestInFamilyIsLongest(p, k);
    }

    /** The choices each operator case makes on the chars after the first
        are the longest matches. */
    lemma EqualIsLongest(p: int, k: TokenKind)
      requires CharAt(p) == '=' as int
      requires k == if CharAt(p + 1) == '=' as int then
                      if CharAt(p + 2) == '=' as int then StrictEqual else EqualEqual
                    else Equal
      ensures LongestAt(p, k)
      ensures |Spelling(k)| == if CharAt(p + 1) != '=' as int then 1 else if CharAt(p + 2) == '=' as int then 3 else 2
    {
      OperatorFamilies();
      LongestOf(p, k, ["===", "==", "="]);
    }

    lemma LessIsLongest(p: int, k: TokenKind)
      requires CharAt(p) == '<' as int
      requires k == if CharAt(p + 1) == '<' as int then
                      if CharAt(p + 2) == '=' as int then LshiftEqual else Lshift
                    else if CharAt(p + 1) == '=' as int then LessEqual else Less
      ensures LongestAt(p, k)
      ensures |Spelling(k)| == if CharAt(p + 1) == '<' as int then (if CharAt(p + 2) == '=' as int then 3 else 2)
                               else if CharAt(p + 1) == '=' as int then 2 else 1
    {
      var f := ["<<=", "<<", "<=", "<"];
      assert Family('<') == f;
      if CharAt(p + 1) != '<' as int {
        LongestOf(p, k, f);
      } else {
        LongestOf(p, k, f);
      }
    }

    lemma GreaterIsLongest(p: int, k: TokenKind)
      requires CharAt(p) == '>' as int
      requires k == if CharAt(p + 1) == '>' as int then
                      if CharAt(p + 2) == '>' as int then
                        if CharAt(p + 3) == '=' as int then UrshiftEqual else Urshift
                      else if CharAt(p + 2) == '=' as int then RshiftEqual else Rshift
                    else if CharAt(p + 1) == '=' as int then GreaterEqual else Greater
      ensures LongestAt(p, k)
      ensures |Spelling(k)| == if CharAt(p + 1) == '>' as int then
                                 if CharAt(p + 2) == '>' as int then
                                   if CharAt(p + 3) == '=' as int then 4 else 3
                                 else if CharAt(p + 2) == '=' as int then 3 else 2
                               else if CharAt(p + 1) == '=' as int then 2 else 1
    {
      var f := [">>>=", ">>>", ">>=", ">>", ">=", ">"];
      assert Family('>') == f;
      if CharAt(p + 1) != '>' as int {
        LongestOf(p, k, f);
      } else if CharAt(p + 2) != '>' as int {
        LongestOf(p, k, f);
      } else {
        LongestOf(p, k, f);
      }
    }

    lemma ExclamationIsLongest(p: int, k: TokenKind)
      requires CharAt(p) == '!' as int
      requires k == if CharAt(p + 1) == '=' as int then
                      if CharAt(p + 2) == '=' as int then StrictNotEqual else NotEqual
                    else Exclamation
      ensures LongestAt(p, k)
      ensures |Spelling(k)| == if CharAt(p + 1) != '=' as int then 1 else if CharAt(p + 2) == '=' as int then 3 else 2
    {
      OperatorFamilies();
      LongestOf(p, k, ["!==", "!=", "!"]);
    }

    lemma AddIsLongest(p: int, auto: bool, k: TokenKind)
      requires CharAt(p) == '+' as int
      requires k == if CharAt(p + 1) == '+' as int then (if auto then PlusPlusAuto else PlusPlus)
                    else if CharAt(p + 1) == '=' as int then PlusEqual else Plus
      ensures LongestAt(p, k)
      ensures |Spelling(k)| == if CharAt(p + 1) == '+' as int || CharAt(p + 1) == '=' as int then 2 else 1
    {
      OperatorFamilies();
      LongestOf(p, k, ["++", "+=", "+"]);
    }

    lemma SubtractIsLongest(p: int, auto: bool, k: TokenKind)
      requires CharAt(p) == '-' as int
      requires k == if CharAt(p + 1) == '-' as int then (if auto then MinusMinusAuto else MinusMinus)
                    else if CharAt(p + 1) == '=' as int then MinusEqual else Minus
      ensures LongestAt(p, k)
      ensures |Spelling(k)| == if CharAt(p + 1) == '-' as int || CharAt(p + 1) == '=' as int then 2 else 1
    {
      OperatorFamilies();
      LongestOf(p, k, ["--", "-=", "-"]);
    }

    lemma MultiplyIsLongest(p: int, k: TokenKind)
      requires CharAt(p) == '*' as int
      requires k == if CharAt(p + 1) == '=' as int then MultEqual else Mult
      ensures LongestAt(p, k)
      ensures |Spelling(k)| == if CharAt(p + 1) == '=' as int then 2 else 1
    {
      OperatorFamilies();
      LongestOf(p, k, ["*=", "*"]);
    }

    lemma AndIsLongest(p: int, k: TokenKind)
      requires CharAt(p) == '&' as int
      requires k == if CharAt(p + 1) == '&' as int then LogicalAnd
                    else if CharAt(p + 1) == '=' as int then AndEqual else BitwiseAnd
      ensures LongestAt(p, k)
      ensures |Spelling(k)| == if CharAt(p + 1) == '&' as int || CharAt(p + 1) == '=' as int then 2 else 1
    {
      OperatorFamilies();
      LongestOf(p, k, ["&&", "&=", "&"]);
    }

    lemma OrIsLongest(p: int, k: TokenKind)
      requires CharAt(p) == '|' as int
      requires k == if CharAt(p + 1) == '=' as int then OrEqual
                    else if CharAt(p + 1) == '|' as int then LogicalOr else BitwiseOr
      ensures LongestAt(p, k)
      ensures |Spelling(k)| == if CharAt(p + 1) == '=' as int || CharAt(p + 1) == '|' as int then 2 else 1
    {
      OperatorFamilies();
      LongestOf(p, k, ["|=", "||", "|"]);
    }

    lemma XorIsLongest(p: int, k: TokenKind)
      requires CharAt(p) == '^' as int
      requires k == if CharAt(p + 1) == '=' as int then XorEqual else BitwiseXor
      ensures LongestAt(p, k)
      ensures |Spelling(k)| == if CharAt(p + 1) == '=' as int then 2 else 1
    {
      OperatorFamilies();
      LongestOf(p, k, ["^=", "^"]);
    }

    lemma ModuloIsLongest(p: int, k: TokenKind)
      requires CharAt(p) == '%' as int
      requires k == if CharAt(p + 1) == '=' as int then ModEqual else Mod
      ensures LongestAt(p, k)
      ensures |Spelling(k)| == if CharAt(p + 1) == '=' as int then 2 else 1
    {
      OperatorFamilies();
      LongestOf(p, k, ["%=", "%"]);
    }

    /** A `/` that opens no comment is `/=` or `/`. */
    lemma SlashIsLongest(p: int, k: TokenKind)
      requires CharAt(p) == '/' as int
      requires k == if CharAt(p + 1) == '=' as int then DivEqual else Div
      ensures LongestAt(p, k)
      ensures |Spelling(k)| == if CharAt(p + 1) == '=' as int then 2 else 1
    {
      assert Family('/') == ["/=", "/"];
      LongestOf(p, k, ["/=", "/"]);
    }

    /** A `.` no digit follows is the punctuator `.`: none longer begins with it. */
    lemma DotIsLongest(p: int)
      requires CharAt(p) == '.' as int
      ensures LongestAt(p, Dot)
    {
      SingleFamilies(Dot);
      LongestInFamilyIsLongest(p, Dot);
    }

    /** The units of the n chars from p on. */
    function Text(p: int, n: nat): (t: seq<int>)
      ensures |t| == n && forall i :: 0 <= i < n ==> t[i] == CharAt(p + i)
    {
      seq(n, i requires 0 <= i < n => CharAt(p + i))
    }

    lemma TextSplit(p: int, n: nat, m: nat)
      ensures Text(p, n + m) == Text(p, n) + Text(p + n, m)
    {
      var whole, front, back := Text(p, n + m), Text(p, n), Text(p + n, m);
      forall i | 0 <= i < n + m
        ensures whole[i] == (front + back)[i]
      {
        if i >= n {
          assert back[i - n] == CharAt(p + n + (i - n));
        }
      }
    }

    lemma TextSnoc(p: int, n: nat)
      ensures Text(p, n + 1) == Text(p, n) + [CharAt(p + n)]
    {
      TextSplit(p, n, 1);
    }

    /** Every char from p up to q is a digit of the radix. */
    predicate RunOf(radix: int, p: int, q: int)
    {
      forall i :: p <= i < q ==> IsDigitOf(radix, CharAt(i))
    }

    lemma RunDigits(radix: int, p: int, q: int)
      requires p <= q && RunOf(radix, p, q)
      ensures AllDigitsOf(radix, Text(p, q - p))
    {
      var t := Text(p, q - p);
      forall i | 0 <= i < |t| ensures IsDigitOf(radix, t[i]) {
        assert t[i] == CharAt(p + i);
      }
    }

    /** Where the run of digits of the radix that starts at p ends. From
        `end` on every char is '\0', so every run stops there. */
    function RunEnd(radix: int, p: int): (q: int)
      ensures q >= p
      decreases end - p
    {
      if IsDigitOf(radix, CharAt(p)) then RunEnd(radix, p + 1) else p
    }

    /** The run is made of digits and stops at a non-digit. */
    lemma {:induction false} RunEndStops(radix: int, p: int)
      ensures RunOf(radix, p, RunEnd(radix, p)) && !IsDigitOf(radix, CharAt(RunEnd(radix, p)))
      decreases end - p
    {
      if IsDigitOf(radix, CharAt(p)) {
        RunEndStops(radix, p + 1);
      }
    }

    /** A run of digits is at most as long as the run that starts there. */
    lemma {:induction false} RunEndBeyond(radix: int, p: int, q: int)
      requires p <= q && RunOf(radix, p, q)
      ensures RunEnd(radix, p) >= q
      decreases q - p
    {
      if p < q {
        RunEndBeyond(radix, p + 1, q);
      }
    }

    /** A run of digits that stops at a non-digit is the whole run. */
    lemma {:induction false} RunEndUnique(radix: int, p: int, q: int)
      requires p <= q && RunOf(radix, p, q) && !IsDigitOf(radix, CharAt(q))
      ensures RunEnd(radix, p) == q
      decreases q - p
    {
      if p < q {
        RunEndUnique(radix, p + 1, q);
      }
    }

    /** The value parseDecimal's fast path computes from the n codes from p
        on: each step multiplies by ten and adds the code minus 0x30. */
    function DecimalCodes(p: int, n: nat): int
    {
      if n == 0 then 0 else DecimalCodes(p, n - 1) * 10 + (CodeNumber(CodeAt(p + n - 1)) - 0x30)
    }

    /** Where the codes are the chars (no surrogate pair among the digits,
        see CharIsUnitOfCode), the fast path computes parseInt of the
        digits, a number below 10^n. */
    lemma {:induction false} DecimalCodesAreDigitFold(p: int, n: nat)
      requires RunOf(10, p, p + n)
      requires forall i :: p <= i < p + n ==> CodeAt(i) == Code(CharAt(i))
      ensures AllDigitsOf(10, Text(p, n))
      ensures DecimalCodes(p, n) == DigitFold(Text(p, n), 10)
      ensures 0 <= DecimalCodes(p, n) < Pow(10, n)
    {
      RunDigits(10, p, p + n);
      if n > 0 {
        DecimalCodesAreDigitFold(p, n - 1);
        assert Text(p, n)[..n - 1] == Text(p, n - 1);
        assert IsDigitOf(10, CharAt(p + n - 1));
      }
      DigitFoldBounds(Text(p, n), 10);
    }

    // -------------------------------------------------------------------
    // State

    /** The tables hold what the UTF-16 buffer gives at each index: the
        decoded code, and its unit. */
    ghost predicate Tables()
    {
      |codes| == |units| && |chars| == |units| && |parts| == |units| &&
      (forall i :: 0 <= i < |units| ==> codes[i] == Utf16CharCode(units, i)) &&
      (forall i :: 0 <= i < |units| ==> chars[i] == ToUnit(codes[i])) &&
      (forall i :: 0 <= i < |units| ==> parts[i] == CharKinds.IsIdentifierPart(codes[i]))
    }

    /** The char at a position is the unit of the code there, as getChar
        and getCharCode agree. */
    lemma CharIsUnitOfCode(p: int)
      requires Tables()
      ensures CharAt(p) == ToUnit(CodeAt(p))
      ensures p < end ==> CodeAt(p) == Utf16CharCode(units, p)
      ensures CodeAt(p).Code? && 0 <= CodeAt(p).value < 0x10000 ==> CodeAt(p) == Code(CharAt(p))
    {
    }

    /** `ch` is the unit of `chCode` whenever the two are read together. */
    lemma SyncedCharIsUnit()
      requires Tables() && Synced()
      ensures ch == ToUnit(chCode)
    {
      CharIsUnitOfCode(position);
    }

    /** `ch` and `chCode` are the char and code at the position. Everything
        but isNextTokenColon keeps them so; it moves the position alone. */
    predicate Synced()
      reads this
    {
      ch == CharAt(position) && chCode == CodeAt(position)
    }

    function Books(): Bookkeeping
      reads this
    {
      Bookkeeping(lineNumber, lastTokenKind, isLineBegin, hasLineTerminator, error, chBuffer)
    }

    /** isEnd: the code is 0 (or NaN) and the position is exactly `end`. */
    function IsEnd(): (b: bool)
      reads this
      ensures b ==> position == end
      ensures Synced() ==> (b <==> position == end)
    {
      (chCode == Code(0) || chCode.NotANumber?) && position == end
    }

    /** isLastTokenCompletionKeyword. */
    function IsLastTokenCompletionKeyword(): (b: bool)
      reads this
      ensures b ==> !IsPunctuator(lastTokenKind)
    {
      IsCompletionKeyword(lastTokenKind)
    }

    // -------------------------------------------------------------------
    // Construction and the cursor

    /** The lexer starts at the span's begin with the first line number of
        the source code, and with ch and chCode read there. */
    constructor (source: SourceCode, keywords: KeywordTable)
      ensures units == source.buffer.source && end == source.OffsetEnd() && this.keywords == keywords
      ensures position == source.OffsetBegin() && lineNumber == source.startLine
      ensures lastTokenKind == Unknown && isLineBegin && !hasLineTerminator
      ensures error == None && chBuffer == [] && chLast == Null
      ensures Tables() && Synced()
    {
      units := source.buffer.source;
      end := source.OffsetEnd();
      var us := source.buffer.source;
      var cs := seq(|us|, i requires 0 <= i < |us| => Utf16CharCode(us, i));
      codes := cs;
      chars := seq(|cs|, i requires 0 <= i < |cs| => ToUnit(cs[i]) as Unit);
      parts := seq(|cs|, i requires 0 <= i < |cs| => CharKinds.IsIdentifierPart(cs[i]));
      this.keywords := keywords;
      position := source.OffsetBegin();
      lineNumber := source.startLine;
      lastTokenKind := Unknown;
      isLineBegin := true;
      hasLineTerminator := false;
      error := None;
      chBuffer := [];
      chLast := Null;
      new;
      ch := GetChar();
      chCode := GetCharCode();
    }

    /** getChar: the char at the position, which is the unit of getCharCode. */
    function GetChar(): (u: int)
      reads this
      ensures u == CharAt(position)
    {
      if position < end then BufferChar(position) else 0
    }

    /** getCharCode: the code at the position, 0 from `end` on. */
    function GetCharCode(): (c: CharCode)
      reads this
      ensures c == CodeAt(position)
      ensures position >= end ==> c == Code(0)
    {
      CodeAt(position)
    }

    /** peek(offset): the char `offset` places after the position, or null
        from `end` on. */
    function Peek(offset: int): (c: JsChar)
      reads this
      ensures c.Null? <==> position + offset >= end
      ensures c.Ch? ==> c.unit == CharAt(position + offset)
    {
      PeekAt(position + offset)
    }

    /** next: advance one unit and read ch and chCode there. */
    method Next()
      modifies this
      ensures position == old(position) + 1 && chLast == Ch(old(ch))
      ensures Synced()
      ensures Books() == old(Books())
    {
      position := position + 1;
      chLast := Ch(ch);
      ch := GetChar();
      chCode := GetCharCode();
    }

    /** seek(offset): advance `offset` units. */
    method Seek(offset: int)
      modifies this
      ensures position == old(position) + offset && chLast == Ch(old(ch))
      ensures Synced()
      ensures Books() == old(Books())
    {
      position := position + offset;
      chLast := Ch(ch);
      ch := GetChar();
      chCode := GetCharCode();
    }

    /** The position setter: clear the error and the char buffer, move, and
        read ch and chCode there. */
    method SetPosition(value: int)
      modifies this
      ensures position == value && chLast == Ch(old(ch))
      ensures error == None && chBuffer == []
      ensures Synced()
      ensures lineNumber == old(lineNumber) && lastTokenKind == old(lastTokenKind)
      ensures isLineBegin == old(isLineBegin) && hasLineTerminator == old(hasLineTerminator)
    {
      error := None;
      position := value;
      chBuffer := [];
      chLast := Ch(ch);
      ch := GetChar();
      chCode := GetCharCode();
    }

    /** nextLine: consume one line terminator, or `\n` followed by `\r`,
        and count one line. A char that is no terminator makes the source
        throw, so it is a precondition here. */
    method NextLine()
      requires IsLineTerminator(Ch(ch))
      modifies this
      ensures lineNumber == old(lineNumber) + 1
      ensures position == old(position) + (if old(ch) == 0x0A && CharAt(old(position) + 1) == 0x0D then 2 else 1)
      ensures old(Synced()) ==> position <= end
      ensures Synced()
      ensures lastTokenKind == old(lastTokenKind) && isLineBegin == old(isLineBegin)
      ensures hasLineTerminator == old(hasLineTerminator) && error == old(error) && chBuffer == old(chBuffer)
    {
      var prevChar := ch;
      Next();
      if prevChar == 0x0A && ch == 0x0D {
        Next();
      }
      lineNumber := lineNumber + 1;
    }

    /** isNextTokenColon moves on from position q when the char it peeks
        there, at q + q, is whitespace or a line terminator. */
    predicate ColonScanSkips(q: int)
    {
      IsWhitespace(PeekAt(q + q)) || IsLineTerminator(PeekAt(q + q))
    }

    /** isNextTokenColon: move the position over whitespace and line
        terminators, then report whether getChar() is ':'. The char it tests
        at each step is peek(position), which is `position` places after
        the position, i.e. at twice the position. ch, chCode and chLast are
        not refreshed. */
    method IsNextTokenColon() returns (colon: bool)
      modifies this
      ensures colon <==> CharAt(position) == ':' as int
      ensures old(position) <= position && (position > old(position) ==> position <= end)
      ensures forall q :: old(position) <= q < position ==> ColonScanSkips(q)
      ensures position < end ==> !ColonScanSkips(position)
      ensures ch == old(ch) && chCode == old(chCode) && chLast == old(chLast)
      ensures Books() == old(Books())
    {
      while position < end
        invariant old(position) <= position && (position > old(position) ==> position <= end)
        invariant forall q :: old(position) <= q < position ==> ColonScanSkips(q)
        invariant ch == old(ch) && chCode == old(chCode) && chLast == old(chLast)
        invariant Books() == old(Books())
        decreases end - position
      {
        var nextChar := Peek(position);
        if IsWhitespace(nextChar) || IsLineTerminator(nextChar) {
          position := position + 1;
          continue;
        }
        break;
      }
      colon := GetChar() == ':' as int;
    }

    /** skipWhitespace: advance while ch is whitespace. */
    method SkipWhitespace()
      modifies this
      ensures !IsWhitespace(Ch(ch))
      ensures position >= old(position)
      ensures position == old(position) ==> ch == old(ch) && chCode == old(chCode) && chLast == old(chLast)
      ensures position > old(position) ==> Synced() && IsWhitespace(Ch(old(ch))) &&
                                           forall q :: old(position) < q < position ==> IsWhitespace(Ch(CharAt(q)))
      ensures old(Synced()) ==> Synced() && (position > old(position) ==> position <= end)
      ensures Books() == old(Books())
    {
      while IsWhitespace(Ch(ch))
        invariant position >= old(position)
        invariant position == old(position) ==> ch == old(ch) && chCode == old(chCode) && chLast == old(chLast)
        invariant position > old(position) ==> Synced() && IsWhitespace(Ch(old(ch))) &&
                                               forall q :: old(position) < q < position ==> IsWhitespace(Ch(CharAt(q)))
        invariant old(Synced()) ==> Synced() && (position > old(position) ==> position <= end)
        invariant Books() == old(Books())
        decreases (if position < end then end - position else 0) + (if IsWhitespace(Ch(ch)) then 1 else 0)
      {
        Next();
      }
    }

    /** The buffer chars appendString(index, n) pushes: the n from index on,
        none when n is not positive. */
    function BufferText(index: int, n: int): (t: seq<int>)
      ensures |t| == if n > 0 then n else 0
      ensures forall k :: 0 <= k < |t| ==> t[k] == BufferChar(index + k)
    {
      seq(if n > 0 then n else 0, k => BufferChar(index + k))
    }

    /** The units appendString pushes for a run grow by the next one. */
    lemma BufferTextSnoc(index: int, n: nat)
      ensures BufferText(index, n + 1) == BufferText(index, n) + [BufferChar(index + n)]
    {
      assert BufferText(index, n + 1)[..n] == BufferText(index, n);
    }

    /** appendString(index, length): push the buffer chars at index, index + 1, ... */
    method AppendString(index: int, length: int)
      modifies this
      ensures chBuffer == old(chBuffer) + BufferText(index, length)
      ensures position == old(position) && ch == old(ch) && chCode == old(chCode) && chLast == old(chLast)
      ensures lineNumber == old(lineNumber) && lastTokenKind == old(lastTokenKind) && error == old(error)
      ensures isLineBegin == old(isLineBegin) && hasLineTerminator == old(hasLineTerminator)
    {
      var n := if length > 0 then length else 0;
      for i := 0 to n
        invariant chBuffer == old(chBuffer) + BufferText(index, i)
        invariant position == old(position) && ch == old(ch) && chCode == old(chCode) && chLast == old(chLast)
        invariant lineNumber == old(lineNumber) && lastTokenKind == old(lastTokenKind) && error == old(error)
        invariant isLineBegin == old(isLineBegin) && hasLineTerminator == old(hasLineTerminator)
      {
        chBuffer := chBuffer + [BufferChar(index + i)];
      }
    }

    // -------------------------------------------------------------------
    // Errors

    /** setError: record a message. */
    method SetError(message: ErrorMessage)
      modifies this`error
      ensures error == Some(message)
    {
      error := Some(message);
    }

    /** clearError: forget the recorded message. */
    method ClearError()
      modifies this`error
      ensures error == None
    {
      error := None;
    }

    /** throwOnError(message): record the message if there is one; throw
        when a message is recorded, whether just now or before. */
    method ThrowOnError(message: Option<ErrorMessage>) returns (thrown: bool)
      modifies this`error
      ensures error == if message.Some? then message else old(error)
      ensures thrown <==> error.Some?
    {
      if message.Some? {
        SetError(message.value);
      }
      thrown := error.Some?;
    }

    // -------------------------------------------------------------------
    // Numbers

    /** The loop parseDecimal, parseHex, parseOctal and the parsers after a
        decimal point or exponent share: while ch is a digit of the radix,
        push it to chBuffer and move on. */
    method AppendDigits(radix: int)
      requires IsRadix(radix) && Synced()
      modifies this
      ensures position >= old(position) && RunOf(radix, old(position), position)
      ensures !IsDigitOf(radix, ch) && Synced()
      ensures position == RunEnd(radix, old(position))
      ensures chBuffer == old(chBuffer) + Text(old(position), position - old(position))
      ensures position > old(position) ==> position <= end && chLast == Ch(CharAt(position - 1))
      ensures position == old(position) ==> chLast == old(chLast)
      ensures Books() == old(Books()).(chBuffer := chBuffer)
    {
      ghost var p := position;
      while IsDigitOf(radix, ch)
        invariant position >= p && RunOf(radix, p, position)
        invariant Synced()
        invariant chBuffer == old(chBuffer) + Text(p, position - p)
        invariant position > p ==> position <= end && chLast == Ch(CharAt(position - 1))
        invariant position == p ==> chLast == old(chLast)
        invariant Books() == old(Books()).(chBuffer := chBuffer)
        decreases end - position
      {
        TextSnoc(p, position - p);
        chBuffer := chBuffer + [ch];
        Next();
      }
      RunEndUnique(radix, p, position);
    }

    /** parseDecimal: with an empty chBuffer, read up to ten digits while
        computing their value; nine or fewer not followed by '.', 'e' or 'E'
        are a complete literal whose value goes to the token. Otherwise the
        digits go to chBuffer, in source order, followed by the rest of the
        digit run. */
    method ParseDecimal(tok: Token) returns (done: bool)
      requires Synced()
      requires chBuffer == [] ==> IsDigit(Ch(ch))
      modifies this, tok`value
      ensures position == RunEnd(10, old(position)) && Synced()
      ensures old(chBuffer) == [] ==> position > old(position)
      ensures done <==> old(chBuffer) == [] && FastDecimal(old(position))
      ensures done ==> chBuffer == [] && tok.value == Num(DecimalCodes(old(position), position - old(position)))
      ensures !done ==> chBuffer == old(chBuffer) + Text(old(position), position - old(position))
      ensures !done ==> tok.value == old(tok.value)
      ensures position > old(position) ==> IsDigit(Ch(CharAt(position - 1))) && chLast == Ch(CharAt(position - 1))
      ensures position == old(position) ==> chLast == old(chLast)
      ensures old(position) <= end ==> position <= end
      ensures Books() == old(Books()).(chBuffer := chBuffer)
    {
      ghost var p := position;
      if chBuffer == [] {
        done := DecimalPrefix(tok);
        if done {
          return;
        }
      } else {
        assert chBuffer == old(chBuffer) + Text(p, 0);
      }
      ghost var q := position;
      AppendDigits(10);
      TextSplit(p, q - p, position - q);
      RunContinues(p, q, position);
      return false;
    }

    /** The first run of up to nine digits of parseDecimal: the literal
        when it ends there (the fast path), and otherwise the digits
        pushed to chBuffer. */
    method DecimalPrefix(tok: Token) returns (done: bool)
      requires Synced() && chBuffer == [] && IsDigit(Ch(ch))
      modifies this, tok`value
      ensures done <==> FastDecimal(old(position))
      ensures old(position) < position && RunOf(10, old(position), position) && Synced()
      ensures done ==> position == RunEnd(10, old(position)) && chBuffer == [] &&
                       tok.value == Num(DecimalCodes(old(position), position - old(position))) &&
                       IsDigit(Ch(CharAt(position - 1)))
      ensures !done ==> chBuffer == Text(old(position), position - old(position)) && tok.value == old(tok.value)
      ensures chLast == Ch(CharAt(position - 1))
      ensures old(position) <= end ==> position <= end
      ensures Books() == old(Books()).(chBuffer := chBuffer)
    {
      ghost var p := position;
      var digits, decimalValue, maxDigits := ReadDecimalPrefix();
      PrefixDecides(p, position, maxDigits);
      if maxDigits >= 0 && ch != '.' as int && ch != 'e' as int && ch != 'E' as int {
        assert IsDigitOf(10, CharAt(position - 1));
        tok.value := Num(decimalValue);
        return true;
      }
      chBuffer := digits;
      return false;
    }

    /** A run of decimal digits from p to q, read on to the end of the run
        from q, is the run from p, and ends in a digit when it is not empty. */
    lemma RunContinues(p: int, q: int, r: int)
      requires p <= q && RunOf(10, p, q) && r == RunEnd(10, q)
      ensures r == RunEnd(10, p) && RunOf(10, p, r)
      ensures r > p ==> IsDigit(Ch(CharAt(r - 1)))
    {
      RunEndStops(10, q);
      RunEndUnique(10, p, r);
      if r > p {
        assert IsDigitOf(10, CharAt(r - 1));
      }
    }

    /** The digits the do-while at the head of parseDecimal reads decide
        whether the literal is complete: it is when the run stopped before
        ten digits and is followed by none of '.', 'e' and 'E'. */
    lemma PrefixDecides(p: int, q: int, maxDigits: int)
      requires -1 <= maxDigits <= 8 && q == p + 9 - maxDigits
      requires IsDigit(Ch(CharAt(p))) && RunOf(10, p + 1, q)
      requires maxDigits >= 0 ==> !IsDigit(Ch(CharAt(q)))
      ensures RunOf(10, p, q) && (maxDigits >= 0 ==> RunEnd(10, p) == q)
      ensures FastDecimal(p) <==> maxDigits >= 0 && CharAt(q) != '.' as int && CharAt(q) != 'e' as int && CharAt(q) != 'E' as int
    {
      assert RunOf(10, p, q);
      if maxDigits >= 0 {
        RunEndUnique(10, p, q);
      } else {
        RunEndBeyond(10, p, q);
      }
    }

    /** The do-while at the head of parseDecimal: read digits, at least one
        and at most ten, computing decimalValue from their codes; maxDigits
        counts down from 9 and is -1 once ten have been read. */
    method ReadDecimalPrefix() returns (digits: seq<int>, decimalValue: int, maxDigits: int)
      requires Synced()
      modifies this
      ensures -1 <= maxDigits <= 8 && position == old(position) + 9 - maxDigits
      ensures maxDigits >= 0 ==> !IsDigit(Ch(ch))
      ensures RunOf(10, old(position) + 1, position) && digits == Text(old(position), position - old(position))
      ensures decimalValue == DecimalCodes(old(position), position - old(position))
      ensures Synced() && chLast == Ch(CharAt(position - 1))
      ensures old(position) < end ==> position <= end
      ensures Books() == old(Books())
    {
      ghost var p := position;
      maxDigits := 9;
      decimalValue := CodeNumber(chCode) - 0x30;
      digits := [ch];
      maxDigits := maxDigits - 1;
      Next();
      while IsDigit(Ch(ch)) && maxDigits >= 0
        invariant -1 <= maxDigits <= 8 && position == p + 9 - maxDigits
        invariant RunOf(10, p + 1, position) && digits == Text(p, position - p)
        invariant decimalValue == DecimalCodes(p, position - p)
        invariant Synced() && chLast == Ch(CharAt(position - 1))
        invariant p < end ==> position <= end
        invariant Books() == old(Books())
        decreases maxDigits
      {
        TextSnoc(p, position - p);
        decimalValue := decimalValue * 10 + (CodeNumber(chCode) - 0x30);
        digits := digits + [ch];
        maxDigits := maxDigits - 1;
        Next();
      }
    }

    /** parseHex: step over the 'x' and push the hex digits that follow; the
        value is parseInt of chBuffer in base 16, NaN when it is empty. */
    method ParseHex(tok: Token)
      requires Synced() && AllDigitsOf(16, chBuffer)
      modifies this, tok`value
      ensures position > old(position) && RunOf(16, old(position) + 1, position) && !IsHexDigit(Ch(ch))
      ensures chBuffer == old(chBuffer) + Text(old(position) + 1, position - old(position) - 1)
      ensures AllDigitsOf(16, chBuffer)
      ensures tok.value == if chBuffer == [] then NaNValue else Num(DigitFold(chBuffer, 16))
      ensures old(position) < end ==> position <= end
      ensures Synced() && Books() == old(Books()).(chBuffer := chBuffer)
    {
      Next();
      AppendDigits(16);
      RunDigits(16, old(position) + 1, position);
      tok.value := if chBuffer == [] then NaNValue else Num(DigitFold(chBuffer, 16));
    }

    /** parseOctal: push the octal digits at the position; the value is
        parseInt of chBuffer in base 8. It always reports success. */
    method ParseOctal(tok: Token) returns (ok: bool)
      requires Synced() && AllDigitsOf(8, chBuffer)
      modifies this, tok`value
      ensures ok
      ensures position >= old(position) && RunOf(8, old(position), position) && !IsOctalDigit(Ch(ch))
      ensures chBuffer == old(chBuffer) + Text(old(position), position - old(position))
      ensures AllDigitsOf(8, chBuffer)
      ensures tok.value == if chBuffer == [] then NaNValue else Num(DigitFold(chBuffer, 8))
      ensures position > old(position) ==> position <= end && chLast == Ch(CharAt(position - 1))
      ensures position == old(position) ==> chLast == old(chLast)
      ensures Synced() && Books() == old(Books()).(chBuffer := chBuffer)
    {
      AppendDigits(8);
      RunDigits(8, old(position), position);
      tok.value := if chBuffer == [] then NaNValue else Num(DigitFold(chBuffer, 8));
      return true;
    }

    /** parseNumberAfterDecimalPoint: push '.' and then the digits at the
        position. */
    method ParseNumberAfterDecimalPoint()
      requires Synced()
      modifies this
      ensures position >= old(position) && RunOf(10, old(position), position) && !IsDigit(Ch(ch))
      ensures position == RunEnd(10, old(position))
      ensures chBuffer == old(chBuffer) + ['.' as int] + Text(old(position), position - old(position))
      ensures position > old(position) ==> position <= end && chLast == Ch(CharAt(position - 1))
      ensures position == old(position) ==> chLast == old(chLast)
      ensures Synced() && Books() == old(Books()).(chBuffer := chBuffer)
    {
      chBuffer := chBuffer + ['.' as int];
      AppendDigits(10);
    }

    /** Where the digits of an exponent begin: after the exponent letter at
        p and a sign, if there is one. */
    function ExponentDigits(p: int): int
    {
      if CharAt(p + 1) == '+' as int || CharAt(p + 1) == '-' as int then p + 2 else p + 1
    }

    /** The head of parseNumberAfterExponent: push 'e' (whatever the case of
        the letter at the position), step over it, and push and step over a
        sign if there is one. */
    method AppendExponentSign()
      requires Synced()
      modifies this
      ensures position == ExponentDigits(old(position)) && chLast == Ch(CharAt(position - 1))
      ensures chBuffer == old(chBuffer) + ['e' as int] + Text(old(position) + 1, position - old(position) - 1)
      ensures old(position) < end ==> position <= end
      ensures Synced() && Books() == old(Books()).(chBuffer := chBuffer)
    {
      ghost var p := position;
      chBuffer := chBuffer + ['e' as int];
      Next();
      assert Text(p + 1, 0) == [];
      if ch == '+' as int || ch == '-' as int {
        TextSnoc(p + 1, 0);
        chBuffer := chBuffer + [ch];
        Next();
      }
    }

    /** parseNumberAfterExponent: after the exponent letter and its sign
        there must be at least one digit; push them all. */
    method ParseNumberAfterExponent() returns (ok: bool)
      requires Synced()
      modifies this
      ensures ok <==> IsDigit(Ch(CharAt(ExponentDigits(old(position)))))
      ensures ok ==> position > ExponentDigits(old(position)) && RunOf(10, ExponentDigits(old(position)), position)
      ensures !ok ==> position == ExponentDigits(old(position))
      ensures chBuffer == old(chBuffer) + ['e' as int] + Text(old(position) + 1, position - old(position) - 1)
      ensures !IsDigit(Ch(ch)) && chLast == Ch(CharAt(position - 1))
      ensures old(position) < end ==> position <= end
      ensures Synced() && Books() == old(Books()).(chBuffer := chBuffer)
    {
      ghost var p := position;
      AppendExponentSign();
      assert ch == CharAt(ExponentDigits(p));
      if !IsDigit(Ch(ch)) {
        return false;
      }
      ghost var q, head := position, chBuffer;
      assert RunEnd(10, q) > q by { assert IsDigitOf(10, CharAt(q)); }
      AppendDigits(10);
      assert position > q && chLast == Ch(CharAt(position - 1));
      ExponentTextJoins(old(chBuffer), head, chBuffer, p, q, position);
      return true;
    }

    /** The exponent head and its digits read on together as one text. */
    lemma ExponentTextJoins(buffer0: seq<int>, head: seq<int>, buffer: seq<int>, p: int, q: int, r: int)
      requires p + 1 <= q <= r
      requires head == buffer0 + ['e' as int] + Text(p + 1, q - p - 1)
      requires buffer == head + Text(q, r - q)
      ensures buffer == buffer0 + ['e' as int] + Text(p + 1, r - p - 1)
    {
      TextSplit(p + 1, q - p - 1, r - q);
      var front, back := Text(p + 1, q - p - 1), Text(q, r - q);
      assert buffer == (buffer0 + ['e' as int]) + (front + back);
    }

    /** The literal parseDecimal completes alone: a run of at most nine
        digits from p, followed by none of '.', 'e' and 'E'. */
    predicate FastDecimal(p: int)
    {
      var q := RunEnd(10, p);
      q - p <= 9 && CharAt(q) != '.' as int && CharAt(q) != 'e' as int && CharAt(q) != 'E' as int
    }

    /** Where the fraction of a literal ends when the lexer reads on from
        q with `c` the char there and `last` the char before: after a '.'
        at q, or a '.' just read, come the digits of the fraction. */
    function FractionFrom(q: int, c: int, last: JsChar): (r: int)
      ensures r >= q
    {
      if c == '.' as int then RunEnd(10, q + 1)
      else if last == Ch('.' as int) then RunEnd(10, q)
      else q
    }

    /** What reading the fraction from q pushes to chBuffer: the '.' and
        the digits after it. */
    function FractionText(q: int, c: int, last: JsChar): seq<int>
    {
      if c == '.' as int then Text(q, FractionFrom(q, c, last) - q)
      else if last == Ch('.' as int) then ['.' as int] + Text(q, FractionFrom(q, c, last) - q)
      else []
    }

    /** Where the integer and fraction parts of a literal whose digits start
        at p end: a run of digits (none when a '.' was just read), then,
        after a '.', a second run. */
    function FractionEnd(p: int, dotBefore: bool): (q: int)
      ensures q >= p
    {
      var q1 := if dotBefore then p else RunEnd(10, p);
      FractionFrom(q1, CharAt(q1), if dotBefore then Ch('.' as int) else Null)
    }

    /** The exponent is well formed: it is absent, or a digit follows the
        exponent letter and its sign. */
    predicate ExponentOk(q: int)
    {
      (CharAt(q) == 'e' as int || CharAt(q) == 'E' as int) ==> IsDigit(Ch(CharAt(ExponentDigits(q))))
    }

    /** Where the lexer stops reading a literal whose fraction ends at q:
        after the digits of the exponent, or where they should have begun. */
    function ExponentEnd(q: int): (r: int)
      ensures r >= q && (CharAt(q) == 'e' as int || CharAt(q) == 'E' as int ==> r > q)
    {
      if CharAt(q) == 'e' as int || CharAt(q) == 'E' as int then
        if IsDigit(Ch(CharAt(ExponentDigits(q)))) then RunEnd(10, ExponentDigits(q)) else ExponentDigits(q)
      else q
    }

    /** What reading an exponent from q pushes to chBuffer: the letter,
        written 'e', then the sign and digits. */
    function ExponentText(q: int): seq<int>
    {
      if CharAt(q) == 'e' as int || CharAt(q) == 'E' as int
      then ['e' as int] + Text(q + 1, ExponentEnd(q) - q - 1) else []
    }

    /** What the literal from p pushes to chBuffer: a '.' when one was just
        read but the position was set past it, the chars up to the end of
        the fraction, and the exponent. */
    function NumberLexeme(p: int, dotBefore: bool): seq<int>
    {
      (if dotBefore && CharAt(p) != '.' as int then ['.' as int] else []) +
      Text(p, FractionEnd(p, dotBefore) - p) + ExponentText(FractionEnd(p, dotBefore))
    }

    /** The middle of the inNumber block: step over a '.', and read the
        fraction after a '.' just read. */
    method ScanFraction()
      requires Synced()
      modifies this
      ensures position == FractionFrom(old(position), old(ch), old(chLast))
      ensures chBuffer == old(chBuffer) + FractionText(old(position), old(ch), old(chLast))
      ensures old(ch) == '.' as int || old(chLast) == Ch('.' as int) ==> !IsDigit(Ch(ch))
      ensures Synced()
      ensures old(position) <= end ==> position <= end
      ensures Books() == old(Books()).(chBuffer := chBuffer)
    {
      ghost var q := position;
      if ch == '.' as int {
        Next();
        assert chLast == Ch('.' as int) && CharAt(q) == '.' as int;
      }
      if chLast == Ch('.' as int) {
        ParseNumberAfterDecimalPoint();
        if q < position - 1 || CharAt(q) == '.' as int {
          TextSplit(q, 1, position - q - 1);
        }
      }
    }

    /** The end of the inNumber block: read an exponent if one begins at the
        position; it fails when no digit follows its letter and sign. */
    method ScanExponent() returns (ok: bool)
      requires Synced()
      modifies this
      ensures ok <==> ExponentOk(old(position))
      ensures position == ExponentEnd(old(position))
      ensures chBuffer == old(chBuffer) + ExponentText(old(position))
      ensures position > old(position) ==> !IsDigit(Ch(ch))
      ensures Synced()
      ensures old(position) <= end ==> position <= end
      ensures Books() == old(Books()).(chBuffer := chBuffer)
    {
      ghost var q, b := position, chBuffer;
      ok := true;
      if ch == 'e' as int || ch == 'E' as int {
        ok := ParseNumberAfterExponent();
        ExponentRead(q, position, ok, b, chBuffer);
      } else {
        NoExponent(q, b);
      }
    }

    /** What parseNumberAfterExponent leaves, in terms of the exponent
        functions. */
    lemma ExponentRead(q: int, r: int, ok: bool, before: seq<int>, after: seq<int>)
      requires CharAt(q) == 'e' as int || CharAt(q) == 'E' as int
      requires ok <==> IsDigit(Ch(CharAt(ExponentDigits(q))))
      requires ok ==> r > ExponentDigits(q) && RunOf(10, ExponentDigits(q), r) && !IsDigit(Ch(CharAt(r)))
      requires !ok ==> r == ExponentDigits(q)
      requires after == before + ['e' as int] + Text(q + 1, r - q - 1)
      ensures ok <==> ExponentOk(q)
      ensures r == ExponentEnd(q) && r > q
      ensures after == before + ExponentText(q)
    {
      if ok {
        RunEndUnique(10, ExponentDigits(q), r);
      }
      Concat3(before, ['e' as int], Text(q + 1, r - q - 1));
    }

    /** Without an exponent letter nothing is read. */
    lemma NoExponent(q: int, before: seq<int>)
      requires CharAt(q) != 'e' as int && CharAt(q) != 'E' as int
      ensures ExponentOk(q) && ExponentEnd(q) == q && before + ExponentText(q) == before
    {
      assert ExponentText(q) == [];
    }

    /** parseDecimal completes the literal alone: no '.' was just read, the
        buffer is empty and the digit run is short and ends the literal. */
    predicate IsFastNumber(p: int, last: JsChar, buffer: seq<int>)
    {
      last != Ch('.' as int) && buffer == [] && FastDecimal(p)
    }

    /** The slow path of the inNumber block, from where parseDecimal
        stopped (or from the digit after a '.'): the fraction, the exponent,
        and the literal's text as its value. */
    method ScanNumberText(tok: Token) returns (ok: bool)
      requires Synced()
      modifies this, tok`value
      ensures var q := FractionFrom(old(position), old(ch), old(chLast));
              position == ExponentEnd(q) && (ok <==> ExponentOk(q)) &&
              chBuffer == old(chBuffer) + FractionText(old(position), old(ch), old(chLast)) +
                          ExponentText(q)
      ensures ok ==> tok.value == NumberText(chBuffer) && error == old(error)
      ensures !ok ==> error == Some(NonNumberAfterExponent) && tok.value == old(tok.value)
      ensures Synced() && position >= old(position)
      ensures old(position) <= end ==> position <= end
      ensures Books() == old(Books()).(chBuffer := chBuffer, error := error)
    {
      ScanFraction();
      ok := ScanExponent();
      if !ok {
        SetError(NonNumberAfterExponent);
        return false;
      }
      tok.value := NumberText(chBuffer);
    }

    /** The inNumber block of nextToken. Unless a '.' was just read,
        parseDecimal reads the digits and may complete the literal itself.
        Otherwise the block steps over a '.', reads the fraction, reads the
        exponent, and the literal is the text collected in chBuffer (which
        parseFloat reads). A missing exponent digit is an error. */
    method ScanNumber(tok: Token) returns (ok: bool)
      requires Synced()
      requires chBuffer == [] && chLast != Ch('.' as int) ==> IsDigit(Ch(ch))
      modifies this, tok`value
      ensures var p := old(position);
              IsFastNumber(p, old(chLast), old(chBuffer)) ==>
                ok && position == RunEnd(10, p) && chBuffer == [] &&
                tok.value == Num(DecimalCodes(p, position - p))
      ensures var p, dot := old(position), old(chLast) == Ch('.' as int);
              !IsFastNumber(p, old(chLast), old(chBuffer)) ==>
                position == ExponentEnd(FractionEnd(p, dot)) &&
                (ok <==> ExponentOk(FractionEnd(p, dot))) &&
                chBuffer == old(chBuffer) + NumberLexeme(p, dot)
      ensures ok && !IsFastNumber(old(position), old(chLast), old(chBuffer)) ==> tok.value == NumberText(chBuffer)
      ensures ok ==> error == old(error)
      ensures !ok ==> error == Some(NonNumberAfterExponent) && tok.value == old(tok.value)
      ensures Synced() && position >= old(position)
      ensures old(position) <= end ==> position <= end
      ensures Books() == old(Books()).(chBuffer := chBuffer, error := error)
    {
      ghost var p, dot := position, chLast == Ch('.' as int);
      if chLast != Ch('.' as int) {
        var done := ParseDecimal(tok);
        if done {
          return true;
        }
      }
      ghost var q1, last1, buffer1 := position, chLast, chBuffer;
      ok := ScanNumberText(tok);
      LexemeComposes(p, dot, q1, last1, old(chBuffer), buffer1, chBuffer);
    }

    /** The text the two halves of the inNumber block push is the lexeme of
        the literal. */
    lemma LexemeComposes(p: int, dot: bool, q1: int, last1: JsChar, buffer0: seq<int>, buffer1: seq<int>, final: seq<int>)
      requires dot ==> q1 == p && last1 == Ch('.' as int) && buffer1 == buffer0
      requires !dot ==> q1 == RunEnd(10, p) && last1 != Ch('.' as int) && buffer1 == buffer0 + Text(p, q1 - p)
      requires final == buffer1 + FractionText(q1, CharAt(q1), last1) + ExponentText(FractionFrom(q1, CharAt(q1), last1))
      ensures FractionFrom(q1, CharAt(q1), last1) == FractionEnd(p, dot)
      ensures final == buffer0 + NumberLexeme(p, dot)
    {
      var fraction, exponent := FractionText(q1, CharAt(q1), last1), ExponentText(FractionFrom(q1, CharAt(q1), last1));
      if dot {
        LexemeAfterDot(p);
        Concat3(buffer0, fraction, exponent);
      } else {
        LexemeAfterDigits(p, last1);
        Concat4(buffer0, Text(p, q1 - p), fraction, exponent);
      }
    }

    /** The literal read on from a '.' just read: its text is what the
        fraction and the exponent push. */
    lemma LexemeAfterDot(p: int)
      ensures FractionEnd(p, true) == FractionFrom(p, CharAt(p), Ch('.' as int))
      ensures NumberLexeme(p, true) ==
                FractionText(p, CharAt(p), Ch('.' as int)) + ExponentText(FractionEnd(p, true))
    {
    }

    /** The literal read on from the end of the digit run at p: its text is
        the run, then what the fraction and the exponent push. */
    lemma LexemeAfterDigits(p: int, last: JsChar)
      requires last != Ch('.' as int)
      ensures var q1 := RunEnd(10, p);
              FractionEnd(p, false) == FractionFrom(q1, CharAt(q1), last) &&
              NumberLexeme(p, false) ==
                Text(p, q1 - p) + FractionText(q1, CharAt(q1), last) + ExponentText(FractionEnd(p, false))
    {
      var q1 := RunEnd(10, p);
      var f := FractionEnd(p, false);
      assert f == FractionFrom(q1, CharAt(q1), last);
      FractionAfterDigits(p, q1, f, last);
      NumberLexemeWithoutDot(p, f);
    }

    /** The digit run and the fraction that follows it make up the text up
        to the end of the fraction. */
    lemma FractionAfterDigits(p: int, q1: int, f: int, last: JsChar)
      requires p <= q1 && last != Ch('.' as int) && f == FractionFrom(q1, CharAt(q1), last)
      ensures Text(p, q1 - p) + FractionText(q1, CharAt(q1), last) == Text(p, f - p)
    {
      if CharAt(q1) == '.' as int {
        TextSplit(p, q1 - p, f - q1);
      } else {
        assert FractionText(q1, CharAt(q1), last) == [];
      }
    }

    /** Without a '.' just read, the lexeme is the text up to the end of the
        fraction, then the exponent. */
    lemma NumberLexemeWithoutDot(p: int, f: int)
      requires f == FractionEnd(p, false)
      ensures NumberLexeme(p, false) == Text(p, f - p) + ExponentText(f)
    {
      assert [] + Text(p, f - p) == Text(p, f - p);
    }

    /** parseUnicodeHex: when ch and the next three chars are hex digits
        (null counts as one), move past the four and return the char of
        parseInt of their concatenation; otherwise return null and stay. */
    method ParseUnicodeHex() returns (r: Option<int>)
      requires Synced()
      modifies this
      ensures var p := old(position);
              r.Some? <==> IsHexDigit(Ch(CharAt(p))) && IsHexDigit(PeekAt(p + 1)) &&
                           IsHexDigit(PeekAt(p + 2)) && IsHexDigit(PeekAt(p + 3))
      ensures r.None? ==> position == old(position) && ch == old(ch) && chCode == old(chCode) && chLast == old(chLast)
      ensures r.Some? ==> position == old(position) + 4 && Synced() && chLast == Ch(old(ch))
      ensures r.Some? ==>
                r.value == HexChar([Ch(CharAt(old(position))), PeekAt(old(position) + 1),
                                    PeekAt(old(position) + 2), PeekAt(old(position) + 3)])
      ensures Books() == old(Books())
    {
      var a, b, c, d := Ch(ch), Peek(1), Peek(2), Peek(3);
      if !IsHexDigit(a) || !IsHexDigit(b) || !IsHexDigit(c) || !IsHexDigit(d) {
        return None;
      }
      var unit := HexChar([a, b, c, d]);
      Seek(4);
      return Some(unit);
    }

    // -------------------------------------------------------------------
    // Operators

    /** `=`, `==`, `===`. */
    method ScanEqual() returns (k: TokenKind)
      requires Synced() && ch == '=' as int
      modifies this
      ensures k in {StrictEqual, EqualEqual, Equal}
      ensures LongestAt(old(position), k) && position == old(position) + |Spelling(k)|
      ensures Synced() && Books() == old(Books())
    {
      ghost var p := position;
      Next();
      if ch == '=' as int {
        Next();
        if ch == '=' as int {
          Next();
          k := StrictEqual;
        } else {
          k := EqualEqual;
        }
      } else {
        k := Equal;
      }
      EqualIsLongest(p, k);
    }

    /** `<`, `<<`, `<<=`, `<=`, or the start `<!--` of a line comment, which
        leaves the position on the `!`. */
    method ScanLess() returns (k: TokenKind, comment: bool)
      requires Synced() && ch == '<' as int
      modifies this
      ensures comment <==> CharAt(old(position) + 1) == '!' as int && SpelledAt(old(position) + 2, "--")
      ensures comment ==> position == old(position) + 1
      ensures !comment ==> k in {LshiftEqual, Lshift, LessEqual, Less}
      ensures !comment ==> LongestAt(old(position), k) && position == old(position) + |Spelling(k)|
      ensures Synced() && Books() == old(Books())
    {
      ghost var p := position;
      k := Unknown;
      Next();
      if ch == '!' as int && Peek(1) == Ch('-' as int) && Peek(2) == Ch('-' as int) {
        comment := true;
        return;
      }
      comment := false;
      if ch == '<' as int {
        Next();
        if ch == '=' as int {
          Next();
          k := LshiftEqual;
        } else {
          k := Lshift;
        }
      } else if ch == '=' as int {
        Next();
        k := LessEqual;
      } else {
        k := Less;
      }
      LessIsLongest(p, k);
    }

    /** `>`, `>>`, `>>>`, `>>>=`, `>>=`, `>=`. */
    method ScanGreater() returns (k: TokenKind)
      requires Synced() && ch == '>' as int
      modifies this
      ensures k in {UrshiftEqual, Urshift, RshiftEqual, Rshift, GreaterEqual, Greater}
      ensures LongestAt(old(position), k) && position == old(position) + |Spelling(k)|
      ensures Synced() && Books() == old(Books())
    {
      ghost var p := position;
      Next();
      if ch == '>' as int {
        Next();
        if ch == '>' as int {
          Next();
          if ch == '=' as int {
            Next();
            k := UrshiftEqual;
          } else {
            k := Urshift;
          }
        } else if ch == '=' as int {
          Next();
          k := RshiftEqual;
        } else {
          k := Rshift;
        }
      } else if ch == '=' as int {
        Next();
        k := GreaterEqual;
      } else {
        k := Greater;
      }
      GreaterIsLongest(p, k);
    }

    /** `!`, `!=`, `!==`. */
    method ScanExclamation() returns (k: TokenKind)
      requires Synced() && ch == '!' as int
      modifies this
      ensures k in {StrictNotEqual, NotEqual, Exclamation}
      ensures LongestAt(old(position), k) && position == old(position) + |Spelling(k)|
      ensures Synced() && Books() == old(Books())
    {
      ghost var p := position;
      Next();
      if ch == '=' as int {
        Next();
        if ch == '=' as int {
          Next();
          k := StrictNotEqual;
        } else {
          k := NotEqual;
        }
      } else {
        k := Exclamation;
      }
      ExclamationIsLongest(p, k);
    }

    /** `+`, `+=`, and `++`, which is PLUSPLUS_AUTO when a line terminator
        was crossed in this nextToken call. */
    method ScanAdd() returns (k: TokenKind)
      requires Synced() && ch == '+' as int
      modifies this
      ensures k in {PlusPlus, PlusPlusAuto, PlusEqual, Plus}
      ensures LongestAt(old(position), k) && position == old(position) + |Spelling(k)|
      ensures k in {PlusPlus, PlusPlusAuto} ==> (k == PlusPlusAuto <==> hasLineTerminator)
      ensures Synced() && Books() == old(Books())
    {
      ghost var p := position;
      Next();
      if ch == '+' as int {
        Next();
        k := if !hasLineTerminator then PlusPlus else PlusPlusAuto;
      } else if ch == '=' as int {
        Next();
        k := PlusEqual;
      } else {
        k := Plus;
      }
      AddIsLongest(p, hasLineTerminator, k);
    }

    /** `-`, `-=`, and `--`, which is MINUSMINUS_AUTO when a line terminator
        was crossed in this call; at the beginning of a line `-->` instead
        starts a line comment, leaving the position after the `>`. */
    method ScanSubtract() returns (k: TokenKind, comment: bool)
      requires Synced() && ch == '-' as int
      modifies this
      ensures comment <==> isLineBegin && SpelledAt(old(position) + 1, "->")
      ensures comment ==> position == old(position) + 3
      ensures !comment ==> k in {MinusMinus, MinusMinusAuto, MinusEqual, Minus}
      ensures !comment ==> LongestAt(old(position), k) && position == old(position) + |Spelling(k)|
      ensures !comment && k in {MinusMinus, MinusMinusAuto} ==> (k == MinusMinusAuto <==> hasLineTerminator)
      ensures Synced() && Books() == old(Books())
    {
      ghost var p := position;
      k, comment := Unknown, false;
      Next();
      if ch == '-' as int {
        Next();
        if ch == '>' as int && isLineBegin {
          Next();
          comment := true;
          return;
        }
        k := if !hasLineTerminator then MinusMinus else MinusMinusAuto;
      } else if ch == '=' as int {
        Next();
        k := MinusEqual;
      } else {
        k := Minus;
      }
      SubtractIsLongest(p, hasLineTerminator, k);
    }

    /** `*`, `*=`. */
    method ScanMultiply() returns (k: TokenKind)
      requires Synced() && ch == '*' as int
      modifies this
      ensures k in {MultEqual, Mult}
      ensures LongestAt(old(position), k) && position == old(position) + |Spelling(k)|
      ensures Synced() && Books() == old(Books())
    {
      ghost var p := position;
      Next();
      if ch == '=' as int {
        Next();
        k := MultEqual;
      } else {
        k := Mult;
      }
      MultiplyIsLongest(p, k);
    }

    /** `&`, `&&`, `&=`. */
    method ScanAnd() returns (k: TokenKind)
      requires Synced() && ch == '&' as int
      modifies this
      ensures k in {LogicalAnd, AndEqual, BitwiseAnd}
      ensures LongestAt(old(position), k) && position == old(position) + |Spelling(k)|
      ensures Synced() && Books() == old(Books())
    {
      ghost var p := position;
      Next();
      if ch == '&' as int {
        Next();
        k := LogicalAnd;
      } else if ch == '=' as int {
        Next();
        k := AndEqual;
      } else {
        k := BitwiseAnd;
      }
      AndIsLongest(p, k);
    }

    /** `|`, `|=`, `||`. */
    method ScanOr() returns (k: TokenKind)
      requires Synced() && ch == '|' as int
      modifies this
      ensures k in {OrEqual, LogicalOr, BitwiseOr}
      ensures LongestAt(old(position), k) && position == old(position) + |Spelling(k)|
      ensures Synced() && Books() == old(Books())
    {
      ghost var p := position;
      Next();
      if ch == '=' as int {
        Next();
        k := OrEqual;
      } else if ch == '|' as int {
        Next();
        k := LogicalOr;
      } else {
        k := BitwiseOr;
      }
      OrIsLongest(p, k);
    }

    /** `^`, `^=`. */
    method ScanXor() returns (k: TokenKind)
      requires Synced() && ch == '^' as int
      modifies this
      ensures k in {XorEqual, BitwiseXor}
      ensures LongestAt(old(position), k) && position == old(position) + |Spelling(k)|
      ensures Synced() && Books() == old(Books())
    {
      ghost var p := position;
      Next();
      if ch == '=' as int {
        Next();
        k := XorEqual;
      } else {
        k := BitwiseXor;
      }
      XorIsLongest(p, k);
    }

    /** `%`, `%=`. */
    method ScanModulo() returns (k: TokenKind)
      requires Synced() && ch == '%' as int
      modifies this
      ensures k in {ModEqual, Mod}
      ensures LongestAt(old(position), k) && position == old(position) + |Spelling(k)|
      ensures Synced() && Books() == old(Books())
    {
      ghost var p := position;
      Next();
      if ch == '=' as int {
        Next();
        k := ModEqual;
      } else {
        k := Mod;
      }
      ModuloIsLongest(p, k);
    }

    /** A one-char punctuator that no longer one extends: `,` `:` `;` `?`
        `~` `(` `)` `[` `]` `{` `}`. */
    method ScanSingle(k: TokenKind)
      requires IsSingle(k) && k != Dot
      requires Synced() && ch == SingleChar(k).value as int
      modifies this
      ensures LongestAt(old(position), k) && position == old(position) + 1
      ensures Synced() && Books() == old(Books())
    {
      ghost var p := position;
      SingleFamilies(k);
      Next();
      LongestInFamilyIsLongest(p, k);
    }

    // -------------------------------------------------------------------
    // Block comments

    /** A block comment closes at q: `*` there and `/` after it. */
    predicate ClosesAt(q: int)
    {
      CharAt(q) == '*' as int && CharAt(q + 1) == '/' as int
    }

    /** How many places nextLine takes from a line terminator at p: two for
        `\n` followed by `\r`, one otherwise. */
    function BreakWidth(p: int): (w: int)
      ensures 1 <= w <= 2
      ensures w == 2 ==> p + 1 < end && IsLineTerminator(Ch(CharAt(p))) && IsLineTerminator(Ch(CharAt(p + 1)))
    {
      if CharAt(p) == 0x0A && CharAt(p + 1) == 0x0D then 2 else 1
    }

    /** The scan parseMultilineComment makes from p: whether it finds the
        closing `*` `/`, where it stops (just after them, or at `end`), and how
        many line breaks nextLine counts on the way. */
    function CommentScan(p: int): (r: (bool, int, nat))
      requires p <= end
      ensures p <= r.1 <= end
      decreases end - p
    {
      if p == end then (false, end, 0)
      else if ClosesAt(p) then (true, p + 2, 0)
      else if IsLineTerminator(Ch(CharAt(p))) then
        var r := CommentScan(p + BreakWidth(p));
        (r.0, r.1, r.2 + 1)
      else CommentScan(p + 1)
    }

    /** The `\r` of a `\n` `\r` pair, which nextLine takes with the `\n`. */
    predicate PairTail(i: int)
    {
      CharAt(i) == 0x0D && CharAt(i - 1) == 0x0A
    }

    /** The line terminators in [a, q) that do not end a `\n` `\r` pair. */
    function Breaks(a: int, q: int): nat
      decreases q - a
    {
      if q <= a then 0
      else (if IsLineTerminator(Ch(CharAt(a))) && !PairTail(a) then 1 else 0) + Breaks(a + 1, q)
    }

    /** The line breaks in [p, q): every line terminator, a `\n` `\r` pair
        counting once (the char at p itself always counts). */
    function LineBreaks(p: int, q: int): nat
    {
      if q <= p then 0
      else (if IsLineTerminator(Ch(CharAt(p))) then 1 else 0) + Breaks(p + 1, q)
    }

    /** The comment scan stops just after the first `*` `/` from p, or at
        `end` when there is none. */
    lemma {:induction false} CommentScanCloses(p: int)
      requires p <= end
      ensures var s := CommentScan(p);
              (s.0 ==> p + 2 <= s.1 && ClosesAt(s.1 - 2)) && (!s.0 ==> s.1 == end) &&
              forall q :: p <= q < (if s.0 then s.1 - 2 else end) ==> !ClosesAt(q)
      decreases end - p
    {
      if p < end && !ClosesAt(p) {
        var w := if IsLineTerminator(Ch(CharAt(p))) then BreakWidth(p) else 1;
        CommentScanCloses(p + w);
        if w == 2 {
          assert !ClosesAt(p + 1);
        }
      }
    }

    /** ... and counts one line per line break it passes. */
    lemma {:induction false} CommentScanLines(p: int)
      requires p <= end
      ensures CommentScan(p).2 == LineBreaks(p, CommentScan(p).1)
      decreases end - p
    {
      var s := CommentScan(p);
      if p < end && !ClosesAt(p) {
        var w := if IsLineTerminator(Ch(CharAt(p))) then BreakWidth(p) else 1;
        CommentScanLines(p + w);
        if p + w < s.1 {
          assert !PairTail(p + w);
        }
        if w == 2 {
          assert PairTail(p + 1);
        }
      }
    }

    /** Partway through parseMultilineComment: the scan from p ends where
        the scan s0 from the start does, and the `lines` counted so far make
        up the difference in lines. */
    predicate CommentRest(s0: (bool, int, nat), p: int, lines: int)
    {
      p <= end &&
      var s := CommentScan(p);
      s.0 == s0.0 && s.1 == s0.1 && lines + s.2 == s0.2
    }

    /** The inner loop of parseMultilineComment: while ch is `*`, move on,
        and when a `/` follows, move past it too and report the comment
        closed. */
    method SkipStars(ghost s0: (bool, int, nat), ghost lines: int) returns (closed: bool)
      requires Synced() && CommentRest(s0, position, lines)
      modifies this
      ensures Synced() && old(position) <= position && Books() == old(Books())
      ensures closed ==> s0 == (true, position, lines)
      ensures !closed ==> ch != '*' as int && CommentRest(s0, position, lines)
    {
      while ch == '*' as int
        invariant Synced() && old(position) <= position && Books() == old(Books())
        invariant CommentRest(s0, position, lines)
        decreases end - position
      {
        Next();
        if ch == '/' as int {
          Next();
          return true;
        }
      }
      return false;
    }

    /** parseMultilineComment, from just after the opening `/` `*`: skip to
        just after the closing `*` `/` and return true, or return false at
        the end of the input; every line terminator on the way goes through
        nextLine and sets hasLineTerminator. From beyond `end` the source
        never returns, so the position is at most `end`. */
    method ParseMultilineComment() returns (closed: bool)
      requires Synced() && position <= end
      modifies this
      ensures var s := CommentScan(old(position));
              closed == s.0 && position == s.1 && lineNumber == old(lineNumber) + s.2
      ensures hasLineTerminator == (old(hasLineTerminator) || lineNumber > old(lineNumber))
      ensures Synced() && lastTokenKind == old(lastTokenKind) && isLineBegin == old(isLineBegin)
      ensures error == old(error) && chBuffer == old(chBuffer)
    {
      ghost var s0 := CommentScan(position);
      while true
        invariant Synced()
        invariant CommentRest(s0, position, lineNumber - old(lineNumber))
        invariant lineNumber >= old(lineNumber)
        invariant hasLineTerminator == (old(hasLineTerminator) || lineNumber > old(lineNumber))
        invariant lastTokenKind == old(lastTokenKind) && isLineBegin == old(isLineBegin)
        invariant error == old(error) && chBuffer == old(chBuffer)
        decreases end - position
      {
        closed := SkipStars(s0, lineNumber - old(lineNumber));
        if closed {
          return;
        }
        if IsEnd() {
          return false;
        }
        if !IsLineTerminator(Ch(ch)) {
          Next();
        } else {
          NextLine();
          hasLineTerminator := true;
        }
      }
    }

    // -------------------------------------------------------------------
    // Keywords and identifiers

    /** compareString's test at p: each char of w is what peek gives at its
        place from p on. */
    predicate MatchesAt(p: int, w: seq<int>)
    {
      forall j :: 0 <= j < |w| ==> PeekAt(p + j) == Ch(w[j])
    }

    /** The chars match exactly when all of w lies before `end` and the
        text there is w. */
    lemma MatchesAtIsText(p: int, w: seq<int>)
      ensures MatchesAt(p, w) <==> (w == [] || p + |w| <= end) && Text(p, |w|) == w
    {
      if MatchesAt(p, w) && w != [] {
        assert PeekAt(p + (|w| - 1)) == Ch(w[|w| - 1]);
        forall j | 0 <= j < |w| ensures Text(p, |w|)[j] == w[j] {
          assert PeekAt(p + j) == Ch(w[j]);
        }
      }
    }

    /** compareString(str): whether str is spelled from the position on. */
    method CompareString(str: seq<int>) returns (equal: bool)
      ensures equal <==> MatchesAt(position, str)
    {
      for i := 0 to |str|
        invariant forall j :: 0 <= j < i ==> PeekAt(position + j) == Ch(str[j])
      {
        if Peek(i) != Ch(str[i]) {
          return false;
        }
      }
      return true;
    }

    /** The first entry of the keyword table, from index i on, with a
        spelling that is not empty and is spelled at p. */
    function KeywordFrom(p: int, i: nat): (r: Option<nat>)
      ensures r.Some? ==> i <= r.value < |keywords| && keywords[r.value].0 != [] &&
                          MatchesAt(p, keywords[r.value].0)
      ensures forall j :: i <= j < |keywords| && (r.Some? ==> j < r.value) ==>
                keywords[j].0 == [] || !MatchesAt(p, keywords[j].0)
      decreases |keywords| - i
    {
      if i >= |keywords| then None
      else if keywords[i].0 != [] && MatchesAt(p, keywords[i].0) then Some(i)
      else KeywordFrom(p, i + 1)
    }

    /** parseKeyword: with fewer than MAX_KEYWORD_LENGTH chars left it
        throws. Otherwise it takes the first entry of the table whose first
        char is getChar() and which compareString finds at the position,
        moves past it and gives its kind, with the spelling as the token's
        value; with no such entry it gives IDENTIFIER and stays. The test
        that no identifier char follows passes a one-char string to
        isIdentifierPart, which never holds, so it never rejects a match. */
    method ParseKeyword(tok: Token) returns (r: Outcome<TokenKind>)
      requires Synced()
      modifies this, tok`value
      ensures end - old(position) < MaxKeywordLength ==>
                r == Aborted(KeywordUnparsable) && error == Some(KeywordUnparsable) &&
                position == old(position) && tok.value == old(tok.value)
      ensures end - old(position) >= MaxKeywordLength ==>
                error == old(error) &&
                match KeywordFrom(old(position), 0)
                case Some(i) =>
                  r == Returned(keywords[i].1) && tok.value == TokenValue.Text(keywords[i].0) &&
                  position == old(position) + |keywords[i].0| && chLast == Ch(old(ch))
                case None =>
                  r == Returned(Identifier) && tok.value == old(tok.value) &&
                  position == old(position) && chLast == old(chLast)
      ensures Synced() && Books() == old(Books()).(error := error)
    {
      if end - position < MaxKeywordLength {
        var thrown := ThrowOnError(Some(KeywordUnparsable));
        return Aborted(KeywordUnparsable);
      }
      var c := GetChar();
      for i := 0 to |keywords|
        invariant position == old(position) && Synced() && chLast == old(chLast)
        invariant tok.value == old(tok.value) && Books() == old(Books())
        invariant KeywordFrom(position, 0) == KeywordFrom(position, i)
      {
        var keyword := keywords[i].0;
        var equal := false;
        if keyword != [] && c == keyword[0] {
          equal := CompareString(keyword);
        }
        if keyword != [] && MatchesAt(position, keyword) {
          assert PeekAt(position) == Ch(keyword[0]);
        }
        if equal {
          CharKinds.IdentifierPartKeyNeverHolds(Peek(|keyword|));
          if !CharKinds.IsIdentifierPartKey(Peek(|keyword|)) {
            Seek(|keyword|);
            tok.value := TokenValue.Text(keyword);
            return Returned(keywords[i].1);
          }
        }
      }
      return Returned(Identifier);
    }

    /** sourceBuffer.toString(), which Lexer.getString calls whatever its
        arguments: getString() with no arguments, the whole buffer decoded. */
    function BufferString(): (r: seq<int>)
      ensures |r| <= |units|
      ensures units != [] ==> r != []
    {
      DecodeFrom(Utf16, units, 0, 0, |units|)
    }

    /** Whether the code at p is an identifier part, by the table: never
        from `end` on, where the code is 0. */
    function PartAt(p: int): bool
    {
      p < end && 0 <= p < |parts| && parts[p]
    }

    /** The table agrees with isIdentifierPart of the code at p. */
    lemma PartIsIdentifierPart(p: int)
      requires Tables()
      ensures PartAt(p) == CharKinds.IsIdentifierPart(CodeAt(p))
    {
      if end <= p {
        assert CharKinds.KindTable(0) == CharKinds.Invalid;
      }
    }

    /** Where the run of identifier parts from p ends. */
    function PartsEnd(p: int): (q: int)
      ensures p <= q && !PartAt(q)
      ensures forall i :: p <= i < q ==> PartAt(i)
      decreases end - p
    {
      if PartAt(p) then PartsEnd(p + 1) else p
    }

    /** The kind parseIdentifier gives a kind found for a word: outside
        strict mode RESERVED_STRICT is an IDENTIFIER. */
    function StrictKind(k: TokenKind, inStrictMode: bool): (r: TokenKind)
      ensures r == Identifier <==> k == Identifier || (k == ReservedStrict && !inStrictMode)
      ensures r != Identifier ==> r == k
    {
      if k == ReservedStrict && !inStrictMode then Identifier else k
    }

    /** Where parseIdentifier starts its own scan from p: past the keyword
        parseKeyword found when that keyword's kind is IDENTIFIER. */
    function KeywordEnd(p: int): (b: int)
      ensures b >= p
    {
      var kw := KeywordFrom(p, 0);
      if end - p >= MaxKeywordLength && kw.Some? then p + |keywords[kw.value].0| else p
    }

    /** What parseIdentifierOrEscape leaves, started at b, when the
        identifier parts from b end at a backslash at q: appendString(q,
        q - b) when the code at b is not the code at q, then ERROR when no
        'u' follows the backslash, and "NOT IMPLEMENTED" thrown when one does. */
    predicate EscapeEnds(b: int, q: int, r: Outcome<TokenKind>, buffer0: seq<int>, error0: Option<ErrorMessage>)
      reads this
    {
      b <= q &&
      chBuffer == buffer0 + (if CodeAt(b) != CodeAt(q) then BufferText(q, q - b) else []) &&
      if CharAt(q + 1) != 'u' as int then r == Returned(Error) && position == q + 1 && error == error0
      else r == Aborted(NotImplemented) && position == q + 2 && error == Some(NotImplemented)
    }

    /** The loop that skips identifier parts, in parseIdentifier and at the
        head of parseIdentifierOrEscape's loop: while isIdentifierPart(chCode),
        next. */
    method SkipIdentifierParts()
      requires Tables() && Synced()
      modifies this
      ensures position == PartsEnd(old(position)) && Synced() && Books() == old(Books())
    {
      PartIsIdentifierPart(position);
      while CharKinds.IsIdentifierPart(chCode)
        invariant Synced() && old(position) <= position
        invariant PartsEnd(position) == PartsEnd(old(position)) && Books() == old(Books())
        invariant PartAt(position) == CharKinds.IsIdentifierPart(chCode)
        decreases end - position
      {
        Next();
        PartIsIdentifierPart(position);
      }
    }

    /** parseIdentifierOrEscape: skip the identifier parts; at a backslash,
        give ERROR unless a 'u' follows, and throw "NOT IMPLEMENTED" when it
        does (`\uXXXX` in identifiers is not decoded); anywhere else throw
        "NOT IMPLEMENTED". The source's loop thus never goes past its first
        backslash. */
    method ParseIdentifierOrEscape(tok: Token, inStrictMode: bool) returns (r: Outcome<TokenKind>)
      requires Tables() && Synced()
      modifies this
      ensures var q := PartsEnd(old(position));
              if CharAt(q) == '\\' as int then EscapeEnds(old(position), q, r, old(chBuffer), old(error))
              else r == Aborted(NotImplemented) && position == q && error == Some(NotImplemented) &&
                   chBuffer == old(chBuffer)
      ensures r != Returned(Identifier)
      ensures Synced() && Books() == old(Books()).(error := error, chBuffer := chBuffer)
    {
      var identifierBeginIndex := position;
      var identifierBeginCharCode := GetCharCode();
      SkipIdentifierParts();
      if ch != '\\' as int {
        var thrown := ThrowOnError(Some(NotImplemented));
        return Aborted(NotImplemented);
      }
      r := ScanBackslash(identifierBeginIndex, identifierBeginCharCode);
    }

    /** The backslash branch of parseIdentifierOrEscape's loop, with the
        position at the backslash and the identifier begun at beginIndex. */
    method ScanBackslash(beginIndex: int, beginCode: CharCode) returns (r: Outcome<TokenKind>)
      requires Synced() && beginIndex <= position && beginCode == CodeAt(beginIndex)
      requires CharAt(position) == '\\' as int
      modifies this
      ensures EscapeEnds(beginIndex, old(position), r, old(chBuffer), old(error))
      ensures Synced() && Books() == old(Books()).(error := error, chBuffer := chBuffer)
    {
      if beginCode != GetCharCode() {
        AppendString(position, position - beginIndex);
      }
      Next();
      if ch != 'u' as int {
        return Returned(Error);
      }
      Next();
      var thrown := ThrowOnError(Some(NotImplemented));
      return Aborted(NotImplemented);
    }

    /** parseIdentifier. With at least MAX_KEYWORD_LENGTH chars left, a
        keyword parseKeyword finds is the token, unless its kind is
        IDENTIFIER; otherwise the scan goes on from where parseKeyword left
        the position. */
    method ParseIdentifier(tok: Token, inStrictMode: bool) returns (r: Outcome<TokenKind>)
      requires Tables() && Synced()
      modifies this, tok`value
      ensures var p := old(position);
              var kw := KeywordFrom(p, 0);
              end - p >= MaxKeywordLength && kw.Some? && keywords[kw.value].1 != Identifier ==>
                r == Returned(StrictKind(keywords[kw.value].1, inStrictMode)) &&
                position == p + |keywords[kw.value].0| && tok.value == TokenValue.Text(keywords[kw.value].0) &&
                Books() == old(Books())
      ensures var p := old(position);
              var kw := KeywordFrom(p, 0);
              !(end - p >= MaxKeywordLength && kw.Some? && keywords[kw.value].1 != Identifier) ==>
                IdentifierScanned(KeywordEnd(p), end - p, inStrictMode, r, tok.value, old(Books()))
      ensures Synced() && Books() == old(Books()).(error := error, chBuffer := chBuffer)
    {
      var remain := end - position;
      if remain >= MaxKeywordLength {
        var keyword := ParseKeyword(tok);
        var k := keyword.value;
        if k != Identifier {
          return Returned(StrictKind(k, inStrictMode));
        }
      }
      assert position == KeywordEnd(old(position)) && Books() == old(Books());
      r := ScanIdentifier(tok, inStrictMode, remain);
    }

    /** What the scan of an identifier from b leaves, with `remain` chars
        left when parseIdentifier began: at a backslash after the identifier
        parts, what parseIdentifierOrEscape leaves from b with the error and
        chBuffer cleared; otherwise the position after the parts, the whole
        buffer's text as the value and, with fewer than MAX_KEYWORD_LENGTH
        chars left, the kind the keyword table gives that text. */
    predicate IdentifierScanned(b: int, remain: int, inStrictMode: bool, r: Outcome<TokenKind>,
                                value: TokenValue, books0: Bookkeeping)
      reads this
    {
      var q := PartsEnd(b);
      if CharAt(q) == '\\' as int then EscapeEnds(b, q, r, [], None)
      else
        position == q && value == TokenValue.Text(BufferString()) && Books() == books0 &&
        r == Returned(if remain >= MaxKeywordLength then Identifier
                      else IdentifierKind(KindOfIdentifier(keywords, BufferString()), inStrictMode))
    }

    /** The rest of parseIdentifier: skip the identifier parts; at a
        backslash go back to where they began (which clears the error and
        chBuffer) and let parseIdentifierOrEscape take over; otherwise the
        value is the whole buffer's text (getString ignores its arguments),
        and with fewer than MAX_KEYWORD_LENGTH chars left that text is
        looked up in the keyword table. */
    method ScanIdentifier(tok: Token, inStrictMode: bool, remain: int) returns (r: Outcome<TokenKind>)
      requires Tables() && Synced()
      modifies this, tok`value
      ensures IdentifierScanned(old(position), remain, inStrictMode, r, tok.value, old(Books()))
      ensures Synced() && Books() == old(Books()).(error := error, chBuffer := chBuffer)
    {
      var identifierBeginIndex := position;
      SkipIdentifierParts();
      if ch == '\\' as int {
        SetPosition(identifierBeginIndex);
        r := ParseIdentifierOrEscape(tok, inStrictMode);
        return;
      }
      tok.value := TokenValue.Text(BufferString());
      if remain < MaxKeywordLength {
        var identifierTokenKind := KindOfIdentifier(keywords, tok.value.units);
        if identifierTokenKind == Unknown {
          return Returned(Identifier);
        }
        return Returned(StrictKind(identifierTokenKind, inStrictMode));
      }
      return Returned(Identifier);
    }

    /** The kind of a word looked up in the table: IDENTIFIER when it is
        not there, otherwise its kind, with RESERVED_STRICT an IDENTIFIER
        outside strict mode. */
    function IdentifierKind(k: TokenKind, inStrictMode: bool): (r: TokenKind)
      ensures k == Unknown ==> r == Identifier
      ensures k != Unknown ==> r == StrictKind(k, inStrictMode)
    {
      if k == Unknown then Identifier else StrictKind(k, inStrictMode)
    }

    // -------------------------------------------------------------------
    // String literals

    /** How many octal digits an octal escape from p reads: the run of
        octal digits there, cut at n. */
    function OctalDigitsAt(p: int, n: nat): (k: nat)
      ensures k <= n
      ensures forall i :: p <= i < p + k ==> IsOctalDigit(Ch(CharAt(i)))
      ensures k < n ==> !IsOctalDigit(Ch(CharAt(p + k)))
      decreases n
    {
      if n == 0 || !IsOctalDigit(Ch(CharAt(p))) then 0 else 1 + OctalDigitsAt(p + 1, n - 1)
    }

    /** The escape sequence whose char is at p, in the order parseString
        tries them: a single-char escape, a line continuation, `\x` with two
        hex digits, `\u` with four (or alone before the quote), `\0` in
        strict mode, one to three octal digits outside it, and any other
        char, which stands for itself; at `end` the string is unterminated. */
    function EscapeAt(p: int, quote: int, strict: bool): (r: EscapeScan)
      requires p <= end
      ensures r.Escaped? ==> p < r.stop
      ensures p <= r.stop
    {
      var c := CharAt(p);
      if GetEscapeChar(Ch(c)).Some? then Escaped(p + 1, [GetEscapeChar(Ch(c)).value], 0)
      else if IsLineTerminator(Ch(c)) then Escaped(p + BreakWidth(p), [], 1)
      else if c == 'x' as int then HexEscapeAt(p)
      else if c == 'u' as int then UnicodeEscapeAt(p, quote)
      else if strict && IsDigit(Ch(c)) then StrictEscapeAt(p)
      else if !strict && IsOctalDigit(Ch(c)) then
        var k := OctalDigitsAt(p, 3);
        Escaped(p + k, [DigitFold(Text(p, k), 8)], 0)
      else if p < end then Escaped(p + 1, [c], 0)
      else EscapeFailed(p, UnterminatedString)
    }

    /** `\x` at p: two hex digits after it make one unit. */
    function HexEscapeAt(p: int): (r: EscapeScan)
    {
      if IsHexDigit(Ch(CharAt(p + 1))) && IsHexDigit(PeekAt(p + 2))
      then Escaped(p + 3, [HexChar([Ch(CharAt(p + 1)), PeekAt(p + 2)])], 0)
      else EscapeFailed(p + 1, HexEscape)
    }

    /** `\u` at p: four hex digits after it make one unit; with none, a
        quote right after keeps the `u`. */
    function UnicodeEscapeAt(p: int, quote: int): (r: EscapeScan)
    {
      if IsHexDigit(Ch(CharAt(p + 1))) && IsHexDigit(PeekAt(p + 2)) &&
         IsHexDigit(PeekAt(p + 3)) && IsHexDigit(PeekAt(p + 4))
      then Escaped(p + 5, [HexChar([Ch(CharAt(p + 1)), PeekAt(p + 2), PeekAt(p + 3), PeekAt(p + 4)])], 0)
      else if CharAt(p + 1) == quote then Escaped(p + 1, ['u' as int], 0)
      else EscapeFailed(p + 1, UnicodeEscape)
    }

    /** A digit at p in strict mode: only a `0` followed by no digit, which
        stands for the unit 0. */
    function StrictEscapeAt(p: int): (r: EscapeScan)
    {
      if CharAt(p) != '0' as int || IsDigit(Ch(CharAt(p + 1))) then EscapeFailed(p + 1, StrictNumericEscape)
      else Escaped(p + 1, [0], 0)
    }

    /** The rest of a string literal from p, with `pending` the units read
        since the last flush: a raw char joins them; a backslash flushes
        them and its escape is read; the quote flushes them and closes the
        string; a line terminator or `end` fails, and the pending units are
        never pushed; past `end` the scan runs away. */
    function StringFrom(p: int, quote: int, strict: bool, pending: seq<int>): (r: StringScan)
      ensures p <= r.stop
      decreases if p <= end then end + 1 - p else 0
    {
      if p > end then StringScan(Runaway, p, [], 0)
      else if CharAt(p) == quote then StringScan(Closed, p, pending, 0)
      else if CharAt(p) == '\\' as int then
        match EscapeAt(p + 1, quote, strict)
        case EscapeFailed(q, message) => StringScan(Failed(message), q, pending, 0)
        case Escaped(q, units, lines) =>
          var rest := StringFrom(q, quote, strict, []);
          StringScan(rest.ending, rest.stop, pending + units + rest.pushed, lines + rest.lines)
      else if p == end || IsLineTerminator(Ch(CharAt(p))) then StringScan(Failed(UnexpectedEndOfFile), p, [], 0)
      else StringFrom(p + 1, quote, strict, pending + [BufferChar(p)])
    }

    /** The octal branch of an escape: read up to three octal digits and
        append the unit parseInt gives them in base 8. */
    method AppendOctalEscape()
      requires Synced()
      modifies this
      ensures var k := OctalDigitsAt(old(position), 3);
              position == old(position) + k && AllDigitsOf(8, Text(old(position), k)) &&
              chBuffer == old(chBuffer) + [DigitFold(Text(old(position), k), 8)]
      ensures Synced() && Books() == old(Books()).(chBuffer := chBuffer)
    {
      ghost var p := position;
      var octalChars: seq<int> := [];
      for i := 0 to 3
        invariant Synced() && |octalChars| == i && position == p + i
        invariant octalChars == Text(p, i) && AllDigitsOf(8, octalChars)
        invariant OctalDigitsAt(p, 3) == i + OctalDigitsAt(position, 3 - i)
        invariant Books() == old(Books())
      {
        if !IsOctalDigit(Ch(ch)) {
          break;
        }
        TextSnoc(p, i);
        octalChars := octalChars + [ch];
        Next();
      }
      chBuffer := chBuffer + [DigitFold(octalChars, 8)];
    }

    /** The state an escape leaves: on success the position after it, its
        units appended and its lines counted; on failure the error recorded. */
    predicate EscapeDone(e: EscapeScan, ok: bool, buffer0: seq<int>, lines0: int, error0: Option<ErrorMessage>)
      reads this
    {
      ok == e.Escaped? && position == e.stop &&
      (ok ==> chBuffer == buffer0 + e.units && lineNumber == lines0 + e.lines && error == error0) &&
      (!ok ==> chBuffer == buffer0 && lineNumber == lines0 && error == Some(e.message))
    }

    /** The `\x` branch of an escape. */
    method ScanHexEscape() returns (ok: bool)
      requires Synced()
      modifies this
      ensures EscapeDone(HexEscapeAt(old(position)), ok, old(chBuffer), old(lineNumber), old(error))
      ensures Synced() && lastTokenKind == old(lastTokenKind) && isLineBegin == old(isLineBegin)
      ensures hasLineTerminator == old(hasLineTerminator)
    {
      Next();
      if !IsHexDigit(Ch(ch)) || !IsHexDigit(Peek(1)) {
        SetError(HexEscape);
        return false;
      }
      chBuffer := chBuffer + [HexChar([Ch(ch), Peek(1)])];
      Seek(2);
      return true;
    }

    /** The `\u` branch of an escape. */
    method ScanUnicodeEscape(quoteChar: int) returns (ok: bool)
      requires Synced()
      modifies this
      ensures EscapeDone(UnicodeEscapeAt(old(position), quoteChar), ok, old(chBuffer), old(lineNumber), old(error))
      ensures Synced() && lastTokenKind == old(lastTokenKind) && isLineBegin == old(isLineBegin)
      ensures hasLineTerminator == old(hasLineTerminator)
    {
      Next();
      var unicodeChar := ParseUnicodeHex();
      if unicodeChar.Some? {
        chBuffer := chBuffer + [unicodeChar.value];
      } else if ch == quoteChar {
        chBuffer := chBuffer + ['u' as int];
      } else {
        SetError(UnicodeEscape);
        return false;
      }
      return true;
    }

    /** The strict-mode digit branch of an escape. */
    method ScanStrictEscape() returns (ok: bool)
      requires Synced()
      modifies this
      ensures EscapeDone(StrictEscapeAt(old(position)), ok, old(chBuffer), old(lineNumber), old(error))
      ensures Synced() && lastTokenKind == old(lastTokenKind) && isLineBegin == old(isLineBegin)
      ensures hasLineTerminator == old(hasLineTerminator)
    {
      var prevChar := ch;
      Next();
      if prevChar != '0' as int || IsDigit(Ch(ch)) {
        SetError(StrictNumericEscape);
        return false;
      }
      chBuffer := chBuffer + [0];
      return true;
    }

    /** The escape branch of parseString's loop, from the char after the
        backslash: read the escape and append the unit it stands for, or
        record the error and report failure. */
    method ScanEscape(quoteChar: int, inStrictMode: bool) returns (ok: bool)
      requires Synced() && position <= end
      modifies this
      ensures EscapeDone(EscapeAt(old(position), quoteChar, inStrictMode), ok, old(chBuffer), old(lineNumber), old(error))
      ensures Synced() && lastTokenKind == old(lastTokenKind) && isLineBegin == old(isLineBegin)
      ensures hasLineTerminator == old(hasLineTerminator)
    {
      ghost var p := position;
      var escapeChar := GetEscapeChar(Ch(ch));
      if escapeChar.Some? {
        chBuffer := chBuffer + [escapeChar.value];
        Next();
      } else if IsLineTerminator(Ch(ch)) {
        NextLine();
      } else if ch == 'x' as int {
        ok := ScanHexEscape();
        assert EscapeAt(p, quoteChar, inStrictMode) == HexEscapeAt(p);
        return;
      } else if ch == 'u' as int {
        ok := ScanUnicodeEscape(quoteChar);
        assert EscapeAt(p, quoteChar, inStrictMode) == UnicodeEscapeAt(p, quoteChar);
        return;
      } else if inStrictMode && IsDigit(Ch(ch)) {
        ok := ScanStrictEscape();
        assert EscapeAt(p, quoteChar, inStrictMode) == StrictEscapeAt(p);
        return;
      } else if !inStrictMode && IsOctalDigit(Ch(ch)) {
        AppendOctalEscape();
      } else if !IsEnd() {
        chBuffer := chBuffer + [ch];
        Next();
      } else {
        SetError(UnterminatedString);
        return false;
      }
      return true;
    }

    /** parseString's loop, at p with `pending` the units since startOffset
        and `buffer` the chBuffer so far, comes to s0 from a start where
        chBuffer was buffer0, having consumed `lines` line terminators. */
    predicate StringRest(s0: StringScan, p: int, quote: int, strict: bool, pending: seq<int>,
                         buffer: seq<int>, buffer0: seq<int>, lines: int)
    {
      var s := StringFrom(p, quote, strict, pending);
      s.ending == s0.ending && s.stop == s0.stop && lines + s.lines == s0.lines &&
      (s0.ending != Runaway ==> buffer + s.pushed == buffer0 + s0.pushed)
    }

    /** A string closes only at a quote before `end`, and what it pushes
        begins with the units pending when the scan began. */
    lemma {:induction false} StringClosesAtQuote(p: int, quote: int, strict: bool, pending: seq<int>)
      requires quote != 0
      ensures var s := StringFrom(p, quote, strict, pending);
              s.ending == Closed ==> p <= s.stop < end && CharAt(s.stop) == quote && pending <= s.pushed
      decreases if p <= end then end + 1 - p else 0
    {
      if p <= end && CharAt(p) != quote {
        if CharAt(p) == '\\' as int {
          var e := EscapeAt(p + 1, quote, strict);
          if e.Escaped? {
            StringClosesAtQuote(e.stop, quote, strict, []);
            var rest := StringFrom(e.stop, quote, strict, []);
            assert pending <= pending + (e.units + rest.pushed);
            assert pending + e.units + rest.pushed == pending + (e.units + rest.pushed);
          }
        } else if p < end && !IsLineTerminator(Ch(CharAt(p))) {
          StringClosesAtQuote(p + 1, quote, strict, pending + [BufferChar(p)]);
        }
      }
    }

    /** Plain chars up to the quote (no backslash, no line terminator) are
        copied as they are, in one run. */
    lemma {:induction false} PlainStringCopied(p: int, q: int, quote: int, strict: bool, pending: seq<int>)
      requires p <= q < end && CharAt(q) == quote
      requires forall i :: p <= i < q ==>
                 CharAt(i) != quote && CharAt(i) != '\\' as int && !IsLineTerminator(Ch(CharAt(i)))
      ensures StringFrom(p, quote, strict, pending) == StringScan(Closed, q, pending + BufferText(p, q - p), 0)
      decreases q - p
    {
      if p < q {
        PlainStringCopied(p + 1, q, quote, strict, pending + [BufferChar(p)]);
        assert BufferText(p, q - p) == [BufferChar(p)] + BufferText(p + 1, q - p - 1);
      } else {
        assert BufferText(p, 0) == [];
      }
    }

    /** As written, a string whose last units are a backslash, an 'x' and
        one hex digit runs away: the null peek(1) gives at `end` passes
        isHexDigit, seek(2) steps past `end`, and the loop never stops. */
    lemma HexEscapeAtEndRunsAway(p: int, quote: int, strict: bool, pending: seq<int>)
      requires p + 3 == end && CharAt(p) == '\\' as int && CharAt(p + 1) == 'x' as int
      requires IsHexDigit(Ch(CharAt(p + 2))) && quote != '\\' as int
      ensures StringFrom(p, quote, strict, pending).ending == Runaway
    {
      assert IsHexDigit(PeekAt(p + 3));
      assert EscapeAt(p + 1, quote, strict) == HexEscapeAt(p + 1);
      assert StringFrom(end + 1, quote, strict, []).ending == Runaway;
    }

    /** A raw char joins the pending units. */
    lemma RestAfterRaw(s0: StringScan, p: int, quote: int, strict: bool, pending: seq<int>,
                       buffer: seq<int>, buffer0: seq<int>, lines: int)
      requires StringRest(s0, p, quote, strict, pending, buffer, buffer0, lines)
      requires p < end && CharAt(p) != quote && CharAt(p) != '\\' as int && !IsLineTerminator(Ch(CharAt(p)))
      ensures StringRest(s0, p + 1, quote, strict, pending + [BufferChar(p)], buffer, buffer0, lines)
    {
      assert StringFrom(p, quote, strict, pending) == StringFrom(p + 1, quote, strict, pending + [BufferChar(p)]);
    }

    /** A backslash flushes the pending units, and an escape read after it
        appends its units; the scan goes on after it with none pending. */
    lemma RestAfterEscape(s0: StringScan, p: int, quote: int, strict: bool, pending: seq<int>,
                          buffer: seq<int>, buffer0: seq<int>, lines: int)
      requires StringRest(s0, p, quote, strict, pending, buffer, buffer0, lines)
      requires p < end && CharAt(p) == '\\' as int && quote != '\\' as int
      requires EscapeAt(p + 1, quote, strict).Escaped?
      ensures var e := EscapeAt(p + 1, quote, strict);
              StringRest(s0, e.stop, quote, strict, [], buffer + pending + e.units, buffer0, lines + e.lines)
    {
      var e := EscapeAt(p + 1, quote, strict);
      var rest := StringFrom(e.stop, quote, strict, []);
      assert StringFrom(p, quote, strict, pending) ==
             StringScan(rest.ending, rest.stop, pending + e.units + rest.pushed, e.lines + rest.lines);
      var a, b, c := pending, e.units, rest.pushed;
      assert buffer + (a + b + c) == buffer + a + b + c;
    }

    /** ... and an escape that fails ends the scan with the pending units
        flushed. */
    lemma RestAfterFailedEscape(s0: StringScan, p: int, quote: int, strict: bool, pending: seq<int>,
                                buffer: seq<int>, buffer0: seq<int>, lines: int)
      requires StringRest(s0, p, quote, strict, pending, buffer, buffer0, lines)
      requires p < end && CharAt(p) == '\\' as int && quote != '\\' as int
      requires EscapeAt(p + 1, quote, strict).EscapeFailed?
      ensures var e := EscapeAt(p + 1, quote, strict);
              s0.ending == Failed(e.message) && s0.stop == e.stop && s0.lines == lines &&
              buffer + pending == buffer0 + s0.pushed
    {
    }

    /** What parseString leaves when its scan comes to s: closed, the token
        value is chBuffer with the units pushed, and chBuffer is emptied;
        failed, the message is recorded and the token is left alone; run
        away, the call never returns. */
    predicate StringParsed(s: StringScan, r: Outcome<bool>, value: TokenValue, value0: TokenValue,
                           buffer0: seq<int>, lines0: int, error0: Option<ErrorMessage>)
      reads this
    {
      match s.ending
      case Runaway => r == Diverges
      case Closed =>
        r == Returned(true) && position == s.stop && lineNumber == lines0 + s.lines &&
        value == TokenValue.Text(buffer0 + s.pushed) && chBuffer == [] && error == error0
      case Failed(message) =>
        r == Returned(false) && position == s.stop && lineNumber == lines0 + s.lines &&
        value == value0 && chBuffer == buffer0 + s.pushed && error == Some(message)
    }

    /** The backslash branch of parseString's loop: flush the units since
        startOffset, step over the backslash and read the escape. The scan
        goes on with none pending, or ends as the escape failed. */
    method ScanStringEscape(ghost s0: StringScan, startOffset: int, quoteChar: int, inStrictMode: bool,
                            ghost pending: seq<int>, ghost buffer0: seq<int>, ghost lines0: int)
      returns (ok: bool)
      requires Synced() && CharAt(position) == '\\' as int && quoteChar != '\\' as int
      requires startOffset <= position && pending == BufferText(startOffset, position - startOffset)
      requires StringRest(s0, position, quoteChar, inStrictMode, pending, chBuffer, buffer0, lineNumber - lines0)
      modifies this
      ensures Synced() && old(position) < position
      ensures ok ==> StringRest(s0, position, quoteChar, inStrictMode, [], chBuffer, buffer0, lineNumber - lines0) &&
                     error == old(error)
      ensures !ok ==> s0.ending.Failed? && error == Some(s0.ending.message) && position == s0.stop &&
                      lineNumber == lines0 + s0.lines && chBuffer == buffer0 + s0.pushed
      ensures lastTokenKind == old(lastTokenKind) && isLineBegin == old(isLineBegin)
      ensures hasLineTerminator == old(hasLineTerminator)
    {
      ghost var p, buffer, lines := position, chBuffer, lineNumber - lines0;
      if startOffset != position {
        AppendString(startOffset, position - startOffset);
      }
      assert chBuffer == buffer + pending;
      Next();
      ghost var e := EscapeAt(p + 1, quoteChar, inStrictMode);
      ok := ScanEscape(quoteChar, inStrictMode);
      if !ok {
        RestAfterFailedEscape(s0, p, quoteChar, inStrictMode, pending, buffer, buffer0, lines);
        return;
      }
      assert position == e.stop && chBuffer == buffer + pending + e.units;
      assert lineNumber - lines0 == lines + e.lines;
      RestAfterEscape(s0, p, quoteChar, inStrictMode, pending, buffer, buffer0, lines);
    }

    /** parseString's loop, from the char after the opening quote with the
        units from `start` pending: scan until the quote (the units since
        startOffset still pending), a failure, or past `end`. */
    method StringLoop(ghost s0: StringScan, start: int, quoteChar: int, inStrictMode: bool,
                      ghost buffer0: seq<int>, ghost lines0: int)
      returns (r: Outcome<bool>, startOffset: int)
      requires Synced() && start <= position && (quoteChar == '"' as int || quoteChar == '\'' as int)
      requires StringRest(s0, position, quoteChar, inStrictMode, BufferText(start, position - start),
                          chBuffer, buffer0, lineNumber - lines0)
      modifies this
      ensures !r.Aborted? && (r == Diverges <==> s0.ending == Runaway) && (r == Returned(true) <==> s0.ending == Closed)
      ensures r == Returned(true) ==>
                position == s0.stop && lineNumber == lines0 + s0.lines &&
                startOffset <= position && chBuffer + BufferText(startOffset, position - startOffset) == buffer0 + s0.pushed &&
                error == old(error)
      ensures r == Returned(false) ==>
                s0.ending.Failed? && error == Some(s0.ending.message) && position == s0.stop &&
                lineNumber == lines0 + s0.lines && chBuffer == buffer0 + s0.pushed
      ensures Synced() && lastTokenKind == old(lastTokenKind) && isLineBegin == old(isLineBegin)
      ensures hasLineTerminator == old(hasLineTerminator)
    {
      startOffset := start;
      ghost var pending := BufferText(start, position - start);
      while ch != quoteChar
        invariant Synced() && startOffset <= position
        invariant pending == BufferText(startOffset, position - startOffset)
        invariant StringRest(s0, position, quoteChar, inStrictMode, pending, chBuffer, buffer0, lineNumber - lines0)
        invariant error == old(error) && lastTokenKind == old(lastTokenKind) && isLineBegin == old(isLineBegin)
        invariant hasLineTerminator == old(hasLineTerminator)
        decreases if position <= end then end + 1 - position else 0
      {
        if position > end {
          // From beyond `end` the source's loop only steps on, forever.
          assert s0.ending == Runaway;
          return Diverges, startOffset;
        }
        if ch == '\\' as int {
          var escaped := ScanStringEscape(s0, startOffset, quoteChar, inStrictMode, pending, buffer0, lines0);
          if !escaped {
            return Returned(false), startOffset;
          }
          startOffset := position;
          pending := [];
          continue;
        }
        if IsEnd() || IsLineTerminator(Ch(ch)) {
          assert s0.ending == Failed(UnexpectedEndOfFile) && s0.stop == position &&
                 lineNumber == lines0 + s0.lines && chBuffer == buffer0 + s0.pushed;
          SetError(UnexpectedEndOfFile);
          return Returned(false), startOffset;
        }
        RestAfterRaw(s0, position, quoteChar, inStrictMode, pending, chBuffer, buffer0, lineNumber - lines0);
        BufferTextSnoc(startOffset, position - startOffset);
        pending := pending + [BufferChar(position)];
        Next();
      }
      assert s0.ending == Closed;
      return Returned(true), startOffset;
    }

    /** parseString: from the opening quote to the closing one, copying
        raw chars by runs from startOffset (the run that begins at the
        opening quote includes it) and escapes as the units they stand for.
        A line terminator or the end inside the string fails. */
    method ParseString(tok: Token, inStrictMode: bool) returns (r: Outcome<bool>)
      requires Synced() && (ch == '"' as int || ch == '\'' as int)
      modifies this, tok`value
      ensures StringParsed(StringFrom(old(position) + 1, old(ch), inStrictMode, [old(ch)]),
                           r, tok.value, old(tok.value), old(chBuffer), old(lineNumber), old(error))
      ensures Synced() && lastTokenKind == old(lastTokenKind) && isLineBegin == old(isLineBegin)
      ensures hasLineTerminator == old(hasLineTerminator)
    {
      var startOffset := position;
      var quoteChar := ch;
      ghost var s0 := StringFrom(position + 1, quoteChar, inStrictMode, [quoteChar]);
      Next();
      assert BufferText(startOffset, 1) == [quoteChar];
      r, startOffset := StringLoop(s0, startOffset, quoteChar, inStrictMode, old(chBuffer), old(lineNumber));
      if r != Returned(true) {
        assert s0.ending.Failed? ==> r.Returned? && !r.value;
        return;
      }
      if position != startOffset {
        AppendString(startOffset, position - startOffset);
      }
      tok.value := TokenValue.Text(chBuffer);
      chBuffer := [];
      return Returned(true);
    }

    // -------------------------------------------------------------------
    // nextToken

    /** The table kind of the code at p: what nextToken dispatches on when
        a token begins there. */
    function LeadAt(p: int): Option<CharKinds.CharKind>
    {
      CharKinds.KindOf(CodeAt(p))
    }

    /** A token beginning at p is a punctuator: its char is one, or it is a
        `.` no digit follows. */
    predicate OperatorLead(p: int)
    {
      LeadAt(p).Some? &&
      (CharKinds.IsPunctuation(LeadAt(p).value) ||
       (LeadAt(p).value == CharKinds.Dot && !IsDigit(Ch(CharAt(p + 1)))))
    }

    /** A token beginning at p is a numeric literal: a digit, or a `.` a
        digit follows. */
    predicate NumberLead(p: int)
    {
      LeadAt(p) == Some(CharKinds.Zero) || LeadAt(p) == Some(CharKinds.Number) ||
      (LeadAt(p) == Some(CharKinds.Dot) && IsDigit(Ch(CharAt(p + 1))))
    }

    /** A token beginning at p is a string literal. */
    predicate QuoteLead(p: int)
    {
      LeadAt(p) == Some(CharKinds.Quote)
    }

    /** A token begins as at most one of a punctuator, a numeric literal
        and a string literal. */
    lemma LeadsExclusive(p: int)
      ensures OperatorLead(p) ==> !NumberLead(p) && !QuoteLead(p)
    {
    }

    /** A token beginning at a quote is neither a punctuator nor a numeric
        literal. */
    lemma QuoteLeadOnly(p: int)
      requires QuoteLead(p)
      ensures !OperatorLead(p) && !NumberLead(p)
    {
    }

    /** A token beginning at a digit is a numeric literal. */
    lemma DigitLeadOnly(p: int)
      requires LeadAt(p) == Some(CharKinds.Zero) || LeadAt(p) == Some(CharKinds.Number)
      ensures NumberLead(p) && !OperatorLead(p) && !QuoteLead(p)
    {
    }

    /** The scan of the string literal whose opening quote is at p. */
    function StringAt(p: int, inStrictMode: bool): StringScan
    {
      StringFrom(p + 1, CharAt(p), inStrictMode, [CharAt(p)])
    }

    /** A code the table has an entry for is ch itself, and any entry but
        INVALID lies before `end`. */
    lemma LeadIsChar()
      requires Tables() && Synced() && LeadAt(position).Some?
      ensures chCode == Code(ch) && 0 <= ch < 256 && LeadAt(position) == Some(CharKinds.KindTable(ch))
      ensures LeadAt(position) != Some(CharKinds.Invalid) ==> 0 <= position < end
    {
      SyncedCharIsUnit();
      if position >= end {
        assert CharKinds.KindTable(0) == CharKinds.Invalid;
      }
    }

    /** What one pass of nextToken's loop leaves, begun at p with the
        bookkeeping books0 (no error, an empty chBuffer):
        - a token: a punctuator is the longest one spelled at p, and `++`
          and `--` are the `_AUTO` kinds exactly when a line terminator was
          crossed; a numeric literal has no identifier char right after it;
          a quote begins a string literal; any token but ERROR leaves no
          error and an empty chBuffer;
        - an error token with the message recorded;
        - the start of a line comment, past its opening chars;
        - another pass, further on and at most at `end`, with
          hasLineTerminator set when lines were crossed;
        - a runaway string literal, or the throw of an identifier escape. */
    ghost predicate PassDone(p: int, step: Step, books0: Bookkeeping)
      reads this
    {
      (step != Stop(Diverges) ==> PassFrame(p, books0)) && StepShape(p, step, books0) && LeadFacts(p, step, books0)
    }

    /** What every pass keeps: the chars stay synced, the position does
        not go back, the last token's kind is kept and lines only add up. */
    ghost predicate PassFrame(p: int, books0: Bookkeeping)
      reads this
    {
      Synced() && p <= position && lastTokenKind == books0.lastTokenKind && lineNumber >= books0.lineNumber
    }

    /** What each kind of step leaves, whatever the char it began at. */
    ghost predicate StepShape(p: int, step: Step, books0: Bookkeeping)
      reads this
    {
      match step
      case Emit(k) =>
        isLineBegin == books0.isLineBegin && hasLineTerminator == books0.hasLineTerminator &&
        error == None && (k != Error ==> chBuffer == [])
      case Fail =>
        error.Some? && isLineBegin == books0.isLineBegin &&
        (hasLineTerminator ==> books0.hasLineTerminator || lineNumber > books0.lineNumber)
      case LineComment =>
        p < position <= end && Books() == books0
      case Again =>
        p < position <= end && error == books0.error && chBuffer == books0.chBuffer &&
        hasLineTerminator == (books0.hasLineTerminator || lineNumber > books0.lineNumber)
      case Stop(o) =>
        o == Diverges || o == Aborted(NotImplemented)
    }

    /** What a step owes to the char it began at. */
    ghost predicate LeadFacts(p: int, step: Step, books0: Bookkeeping)
      reads this
    {
      (step.Emit? && OperatorLead(p) ==>
         var k := step.kind;
         LongestAt(p, k) && position == p + |Spelling(k)| && lineNumber == books0.lineNumber &&
         (k in {PlusPlus, PlusPlusAuto, MinusMinus, MinusMinusAuto} ==>
            (k in {PlusPlusAuto, MinusMinusAuto} <==> hasLineTerminator))) &&
      (step.Emit? && NumberLead(p) ==> step.kind == Number && !CharKinds.IsIdentifierBegin(chCode)) &&
      (step.Emit? && QuoteLead(p) ==> step.kind == String) &&
      (step == Stop(Diverges) ==> QuoteLead(p)) &&
      (step == LineComment ==> OperatorLead(p))
    }

    /** The string literal begun at p and ended at stop: its scan closes,
        stop is just after the closing quote, and the value is what the
        scan pushes (the opening quote first). */
    ghost predicate StringToken(p: int, stop: int, value: TokenValue, inStrictMode: bool)
    {
      var s := StringAt(p, inStrictMode);
      s.ending == Closed && stop == s.stop + 1 && value == TokenValue.Text(s.pushed)
    }

    /** The char kinds of the operators: each begins a family of
        punctuators the longest match chooses from. */
    predicate IsOperatorKind(kind: CharKinds.CharKind)
    {
      kind in {CharKinds.Equal, CharKinds.Less, CharKinds.Greater, CharKinds.Exclamation, CharKinds.Add,
               CharKinds.Subtract, CharKinds.Multiply, CharKinds.And, CharKinds.Or, CharKinds.Xor,
               CharKinds.Modulo}
    }

    /** The operator cases of nextToken's switch: the longest operator at
        the position, or the start of a line comment at `<!--`, or, at the
        beginning of a line, at `-->`. */
    method ScanOperator(kind: CharKinds.CharKind) returns (k: TokenKind, comment: bool)
      requires Tables() && Synced() && LeadAt(position) == Some(kind) && IsOperatorKind(kind)
      modifies this
      ensures comment ==> old(position) < position <= end
      ensures !comment ==> LongestAt(old(position), k) && position == old(position) + |Spelling(k)|
      ensures !comment && k in {PlusPlus, PlusPlusAuto, MinusMinus, MinusMinusAuto} ==>
                (k in {PlusPlusAuto, MinusMinusAuto} <==> hasLineTerminator)
      ensures Synced() && Books() == old(Books())
    {
      LeadIsChar();
      CharKinds.ArithmeticCharacters(ch);
      CharKinds.ComparisonCharacters(ch);
      CharKinds.BracketCharacters(ch);
      comment := false;
      match kind
      case Equal => k := ScanEqual();
      case Less => k, comment := ScanLess();
      case Greater => k := ScanGreater();
      case Exclamation => k := ScanExclamation();
      case Add => k := ScanAdd();
      case Subtract => k, comment := ScanSubtract();
      case Multiply => k := ScanMultiply();
      case And => k := ScanAnd();
      case Or => k := ScanOr();
      case Xor => k := ScanXor();
      case Modulo => k := ScanModulo();
    }

    /** The one-char punctuator cases of nextToken's switch; the brace
        cases record their position as the token's value. */
    method ScanPunctuator(tok: Token, kind: CharKinds.CharKind) returns (k: TokenKind)
      requires Tables() && Synced() && LeadAt(position) == Some(kind)
      requires IsSingleKind(kind)
      modifies this, tok`value
      ensures LongestAt(old(position), k) && position == old(position) + |Spelling(k)|
      ensures k in {OpenBrace, CloseBrace} ==> tok.value == Num(old(position))
      ensures k == SingleOf(kind) && k !in {PlusPlus, PlusPlusAuto, MinusMinus, MinusMinusAuto}
      ensures OperatorLead(old(position)) && !NumberLead(old(position)) && !QuoteLead(old(position))
      ensures Synced() && Books() == old(Books())
    {
      LeadIsChar();
      SingleLead(ch);
      k := SingleOf(kind);
      if kind == CharKinds.OpenBrace || kind == CharKinds.CloseBrace {
        tok.value := Num(position);
      }
      ScanSingle(k);
      SingleFamilies(k);
    }

    /** An operator case as one pass: the operator is the token, or a line
        comment begins. */
    method OperatorPass(kind: CharKinds.CharKind) returns (step: Step)
      requires Tables() && Synced() && LeadAt(position) == Some(kind) && IsOperatorKind(kind)
      requires error == None && chBuffer == []
      modifies this
      ensures PassFrame(old(position), old(Books()))
      ensures StepShape(old(position), step, old(Books()))
      ensures LeadFacts(old(position), step, old(Books()))
    {
      var k, comment := ScanOperator(kind);
      step := if comment then LineComment else Emit(k);
    }

    /** A one-char punctuator case as one pass. */
    method PunctuatorPass(tok: Token, kind: CharKinds.CharKind) returns (step: Step)
      requires Tables() && Synced() && LeadAt(position) == Some(kind) && IsSingleKind(kind)
      requires error == None && chBuffer == []
      modifies this, tok`value
      ensures PassFrame(old(position), old(Books()))
      ensures StepShape(old(position), step, old(Books()))
      ensures LeadFacts(old(position), step, old(Books()))
      ensures step == Emit(SingleOf(kind))
    {
      var k := ScanPunctuator(tok, kind);
      step := Emit(k);
    }

    /** The SLASH case: two slashes begin a line comment; a slash and a
        star a block comment, after which the loop goes on when it is
        closed and the token is an error when it is not; otherwise `/=` or
        `/`. */
    method SlashPass() returns (step: Step)
      requires Tables() && Synced() && LeadAt(position) == Some(CharKinds.Slash)
      requires error == None && chBuffer == []
      modifies this
      ensures PassFrame(old(position), old(Books()))
      ensures StepShape(old(position), step, old(Books()))
      ensures LeadFacts(old(position), step, old(Books()))
      ensures step == LineComment <==> CharAt(old(position) + 1) == '/' as int
      ensures CharAt(old(position) + 1) == '*' as int ==>
                var s := CommentScan(old(position) + 2);
                (step == Again <==> s.0) && position == s.1 && lineNumber == old(lineNumber) + s.2 &&
                (step == Fail ==> error == Some(MultilineCommentNotClosed))
    {
      LeadIsChar();
      CharKinds.ArithmeticCharacters(ch);
      ghost var p := position;
      Next();
      if ch == '/' as int {
        Next();
        return LineComment;
      }
      if ch == '*' as int {
        Next();
        var closed := ParseMultilineComment();
        if closed {
          return Again;
        }
        SetError(MultilineCommentNotClosed);
        return Fail;
      }
      var k := Div;
      if ch == '=' as int {
        Next();
        k := DivEqual;
      }
      SlashEmitted(p, k, old(Books()));
      return Emit(k);
    }

    /** A `/` at p that begins no comment is `/=` or `/`, and is the token
        when the position is just after it. */
    lemma SlashEmitted(p: int, k: TokenKind, books0: Bookkeeping)
      requires Synced() && LeadAt(p) == Some(CharKinds.Slash) && CharAt(p) == '/' as int
      requires CharAt(p + 1) != '/' as int && CharAt(p + 1) != '*' as int
      requires k == if CharAt(p + 1) == '=' as int then DivEqual else Div
      requires position == if k == DivEqual then p + 2 else p + 1
      requires Books() == books0 && error == None && chBuffer == []
      ensures PassFrame(p, books0) && StepShape(p, Emit(k), books0) && LeadFacts(p, Emit(k), books0)
    {
      SlashIsLongest(p, k);
    }

    /** The validateNumericLiteral block: an identifier char right after
        the literal is an error; otherwise chBuffer is emptied and the
        literal is the token, unless its scan failed. */
    method ValidateNumber(ok: bool) returns (step: Step)
      modifies this
      ensures step == if CharKinds.IsIdentifierBegin(chCode) || !ok then Fail else Emit(Number)
      ensures CharKinds.IsIdentifierBegin(chCode) ==> error == Some(DigitAfterDecimalPoint) && chBuffer == old(chBuffer)
      ensures !CharKinds.IsIdentifierBegin(chCode) ==> error == old(error) && chBuffer == []
      ensures position == old(position) && ch == old(ch) && chCode == old(chCode) && chLast == old(chLast)
      ensures Books() == old(Books()).(error := error, chBuffer := chBuffer)
    {
      if CharKinds.IsIdentifierBegin(chCode) {
        SetError(DigitAfterDecimalPoint);
        return Fail;
      }
      chBuffer := [];
      step := if ok then Emit(Number) else Fail;
    }

    /** The inNumber block followed by validateNumericLiteral. */
    method FinishNumber(tok: Token) returns (step: Step)
      requires Synced() && error == None
      requires chBuffer == [] && chLast != Ch('.' as int) ==> IsDigit(Ch(ch))
      modifies this, tok`value
      ensures step == Emit(Number) || step == Fail
      ensures step == Emit(Number) ==> !CharKinds.IsIdentifierBegin(chCode) && error == None && chBuffer == []
      ensures step == Fail ==> error.Some?
      ensures Synced() && old(position) <= position
      ensures Books() == old(Books()).(error := error, chBuffer := chBuffer)
    {
      var ok := ScanNumber(tok);
      step := ValidateNumber(ok);
    }

    /** The ZERO case: `0x` with a hex digit after it is a hex literal;
        `0` and an octal digit a legacy octal literal, an error in strict
        mode; anything else goes on as a decimal literal with `0` in
        chBuffer. */
    method ZeroPass(tok: Token, inStrictMode: bool) returns (step: Step)
      requires Tables() && Synced() && LeadAt(position) == Some(CharKinds.Zero)
      requires error == None && chBuffer == []
      modifies this, tok`value
      ensures PassFrame(old(position), old(Books()))
      ensures StepShape(old(position), step, old(Books()))
      ensures LeadFacts(old(position), step, old(Books()))
      ensures IsOctalDigit(Ch(CharAt(old(position) + 1))) && inStrictMode ==> step == Fail && error == Some(OctalInStrictMode)
    {
      DigitLeadOnly(position);
      LeadIsChar();
      CharKinds.LiteralCharacters(ch);
      Next();
      step := AfterZero(tok, inStrictMode);
    }

    /** What follows the `0` of a numeric literal, with the position just
        after it. */
    method AfterZero(tok: Token, inStrictMode: bool) returns (step: Step)
      requires Synced() && error == None && chBuffer == []
      modifies this, tok`value
      ensures step == Emit(Number) || step == Fail
      ensures step == Emit(Number) ==> !CharKinds.IsIdentifierBegin(chCode) && error == None && chBuffer == []
      ensures step == Fail ==> error.Some?
      ensures IsOctalDigit(Ch(old(ch))) && inStrictMode ==> step == Fail && error == Some(OctalInStrictMode)
      ensures Synced() && old(position) <= position
      ensures Books() == old(Books()).(error := error, chBuffer := chBuffer)
    {
      if (ch == 'x' as int || ch == 'X' as int) && IsHexDigit(Peek(1)) {
        ParseHex(tok);
        step := ValidateNumber(true);
        return;
      }
      step := ZeroDigits(tok, inStrictMode);
    }

    /** The ZERO case once no hex literal starts: the `0` is pushed, then a
        legacy octal literal or the rest of a decimal one. */
    method ZeroDigits(tok: Token, inStrictMode: bool) returns (step: Step)
      requires Synced() && error == None && chBuffer == []
      modifies this, tok`value
      ensures step == Emit(Number) || step == Fail
      ensures step == Emit(Number) ==> !CharKinds.IsIdentifierBegin(chCode) && error == None && chBuffer == []
      ensures step == Fail ==> error.Some?
      ensures IsOctalDigit(Ch(old(ch))) && inStrictMode ==> step == Fail && error == Some(OctalInStrictMode)
      ensures Synced() && old(position) <= position
      ensures Books() == old(Books()).(error := error, chBuffer := chBuffer)
    {
      assert IsDigitOf(8, '0' as int);
      chBuffer := chBuffer + ['0' as int];
      if IsOctalDigit(Ch(ch)) {
        var ok := ParseOctal(tok);
        if ok {
          if inStrictMode {
            SetError(OctalInStrictMode);
            return Fail;
          }
          step := ValidateNumber(true);
          return;
        }
      }
      step := FinishNumber(tok);
    }

    /** The DOT case: a `.` no digit follows is the token; otherwise the
        number goes on from the digit. */
    method DotPass(tok: Token) returns (step: Step)
      requires Tables() && Synced() && LeadAt(position) == Some(CharKinds.Dot)
      requires error == None && chBuffer == []
      modifies this, tok`value
      ensures PassFrame(old(position), old(Books()))
      ensures StepShape(old(position), step, old(Books()))
      ensures LeadFacts(old(position), step, old(Books()))
    {
      LeadIsChar();
      CharKinds.ArithmeticCharacters(ch);
      ghost var p := position;
      Next();
      if !IsDigit(Ch(ch)) {
        DotEmitted(p, old(Books()));
        return Emit(Dot);
      }
      step := DotNumber(tok, p);
    }

    /** A `.` a digit follows, at p: the number goes on from the digit. */
    method DotNumber(tok: Token, ghost p: int) returns (step: Step)
      requires Synced() && error == None && chBuffer == [] && position == p + 1
      requires NumberLead(p) && IsDigit(Ch(ch))
      modifies this, tok`value
      ensures PassFrame(p, old(Books()))
      ensures StepShape(p, step, old(Books()))
      ensures LeadFacts(p, step, old(Books()))
    {
      assert !OperatorLead(p) && !QuoteLead(p);
      step := FinishNumber(tok);
    }

    /** A `.` no digit follows, at p, is the token when the position is
        just after it. */
    lemma DotEmitted(p: int, books0: Bookkeeping)
      requires Synced() && position == p + 1 && CharAt(p) == '.' as int
      requires LeadAt(p) == Some(CharKinds.Dot) && !IsDigit(Ch(ch)) && Books() == books0
      requires error == None && chBuffer == []
      ensures PassFrame(p, books0) && StepShape(p, Emit(Dot), books0) && LeadFacts(p, Emit(Dot), books0)
    {
      DotIsLongest(p);
    }

    /** The QUOTE case: the string literal, stepping over its closing quote. */
    method QuotePass(tok: Token, inStrictMode: bool) returns (step: Step)
      requires Tables() && Synced() && QuoteLead(position)
      requires error == None && chBuffer == []
      modifies this, tok`value
      ensures step != Stop(Diverges) ==> PassFrame(old(position), old(Books()))
      ensures StepShape(old(position), step, old(Books()))
      ensures LeadFacts(old(position), step, old(Books()))
      ensures step.Emit? ==> StringToken(old(position), position, tok.value, inStrictMode)
    {
      ghost var p := position;
      QuoteLeadOnly(p);
      LeadIsChar();
      ghost var s := StringFrom(position + 1, ch, inStrictMode, [ch]);
      assert s == StringAt(p, inStrictMode);
      var r := ParseString(tok, inStrictMode);
      if r == Diverges {
        return Stop(Diverges);
      }
      if r.Returned? && r.value {
        assert [] + s.pushed == s.pushed;
        Next();
        return Emit(String);
      }
      return Fail;
    }

    /** The IDENTIFIER_BEGIN and BACKSLASH cases: the identifier (or
        keyword) is the token. */
    method WordPass(tok: Token, inStrictMode: bool) returns (step: Step)
      requires Tables() && Synced()
      requires LeadAt(position) == Some(CharKinds.IdentifierBegin) || LeadAt(position) == Some(CharKinds.Backslash)
      requires error == None && chBuffer == []
      modifies this, tok`value
      ensures PassFrame(old(position), old(Books()))
      ensures StepShape(old(position), step, old(Books()))
      ensures LeadFacts(old(position), step, old(Books()))
    {
      ghost var p := position;
      assert !OperatorLead(p) && !NumberLead(p) && !QuoteLead(p);
      var r := ParseIdentifier(tok, inStrictMode);
      if r.Returned? {
        return Emit(r.value);
      }
      return Stop(r);
    }

    /** The NUMBER case: a decimal literal from its first digit. */
    method NumberPass(tok: Token) returns (step: Step)
      requires Tables() && Synced() && LeadAt(position) == Some(CharKinds.Number)
      requires error == None && chBuffer == []
      modifies this, tok`value
      ensures PassFrame(old(position), old(Books()))
      ensures StepShape(old(position), step, old(Books()))
      ensures LeadFacts(old(position), step, old(Books()))
    {
      DigitLeadOnly(position);
      LeadIsChar();
      CharKinds.LiteralCharacters(ch);
      step := FinishNumber(tok);
    }

    /** The LINE_TERMINATOR case: step over the line break; the next pass
        begins a line after a line terminator. */
    method LineTerminatorPass() returns (step: Step)
      requires Tables() && Synced() && LeadAt(position) == Some(CharKinds.LineTerminator)
      modifies this
      ensures PassFrame(old(position), old(Books()))
      ensures StepShape(old(position), step, old(Books()))
      ensures LeadFacts(old(position), step, old(Books()))
      ensures step == Again && isLineBegin && hasLineTerminator && lineNumber == old(lineNumber) + 1
    {
      LeadIsChar();
      CharKinds.LiteralCharacters(ch);
      NextLine();
      isLineBegin := true;
      hasLineTerminator := true;
      step := Again;
    }

    /** One pass of nextToken's loop at a char that is not whitespace: the
        switch on the char's kind. An INVALID char is an error, and so is
        a code the table has no entry for (the default case). */
    method ScanPass(tok: Token, inStrictMode: bool) returns (step: Step, ghost quoted: bool)
      requires Tables() && Synced() && error == None && chBuffer == []
      modifies this, tok`value
      ensures step != Stop(Diverges) ==> PassFrame(old(position), old(Books()))
      ensures StepShape(old(position), step, old(Books()))
      ensures LeadFacts(old(position), step, old(Books()))
      ensures quoted <==> QuoteLead(old(position))
      ensures quoted && step.Emit? ==> StringToken(old(position), position, tok.value, inStrictMode)
      ensures LeadAt(old(position)) == Some(CharKinds.Invalid) ==> step == Fail && error == Some(InvalidCharacter)
      ensures LeadAt(old(position)).None? ==> step == Fail && error == Some(UnknownError)
    {
      var kind := CharKinds.KindOf(chCode);
      quoted := kind == Some(CharKinds.Quote);
      if kind.None? {
        SetError(UnknownError);
        step := Fail;
        return;
      }
      match kind.value {
        case Equal | Less | Greater | Exclamation | Add | Subtract | Multiply | And | Or | Xor | Modulo =>
          step := OperatorPass(kind.value);
        case OpenParen | CloseParen | OpenBrace | CloseBrace | OpenBracket | CloseBracket | Comma | Colon
           | Semicolon | Question | Tilde =>
          step := PunctuatorPass(tok, kind.value);
        case Slash => step := SlashPass();
        case Dot => step := DotPass(tok);
        case Quote => step := QuotePass(tok, inStrictMode);
        case Zero => step := ZeroPass(tok, inStrictMode);
        case Number => step := NumberPass(tok);
        case LineTerminator => step := LineTerminatorPass();
        case IdentifierBegin | Backslash => step := WordPass(tok, inStrictMode);
        case Invalid =>
          SetError(InvalidCharacter);
          step := Fail;
        case Whitespace =>
          SetError(UnknownError);
          step := Fail;
      }
    }

    /** The loop that skips the rest of a line comment: up to the line
        terminator, or to the end of the text. */
    method SkipLineComment() returns (eof: bool)
      requires Synced() && position <= end
      modifies this
      ensures Synced() && old(position) <= position <= end && Books() == old(Books())
      ensures eof <==> position == end
      ensures !eof ==> IsLineTerminator(Ch(ch))
      ensures forall q :: old(position) <= q < position ==> !IsLineTerminator(Ch(CharAt(q)))
    {
      while !IsLineTerminator(Ch(ch))
        invariant Synced() && old(position) <= position <= end && Books() == old(Books())
        invariant forall q :: old(position) <= q < position ==> !IsLineTerminator(Ch(CharAt(q)))
        decreases end - position
      {
        if IsEnd() {
          return true;
        }
        Next();
      }
      return false;
    }

    /** The rest of a line comment: skip to its line terminator and step
        over it, so that the next pass begins a line after a line
        terminator; or reach the end of the text. */
    method EndLineComment() returns (eof: bool)
      requires Synced() && position <= end
      modifies this
      ensures Synced() && old(position) <= position <= end
      ensures eof ==> position == end && Books() == old(Books())
      ensures !eof ==> old(position) < position && isLineBegin && hasLineTerminator &&
                       Books() == old(Books()).(lineNumber := old(lineNumber) + 1, isLineBegin := true,
                                                hasLineTerminator := true)
    {
      eof := SkipLineComment();
      if eof {
        return;
      }
      NextLine();
      isLineBegin := true;
      hasLineTerminator := true;
    }

    /** What one turn of nextToken's loop leaves, begun at p0 with the
        bookkeeping books0, when the token it ends with begins at b and
        carries value. */
    ghost predicate TurnDone(p0: int, books0: Bookkeeping, x: Turn, b: int, value: TokenValue, inStrictMode: bool)
      reads this
    {
      match x
      case Thrown(o) =>
        (o == Diverges && p0 <= b && QuoteLead(b)) || o == Aborted(NotImplemented)
      case AtEnd =>
        Synced() && p0 <= position == end && Books() == books0
      case Onward =>
        Synced() && p0 < position <= end && error == None && chBuffer == [] &&
        lastTokenKind == books0.lastTokenKind && lineNumber >= books0.lineNumber &&
        hasLineTerminator == (books0.hasLineTerminator || lineNumber > books0.lineNumber)
      case Errored =>
        p0 <= b && PassFrame(b, books0) && StepShape(b, Fail, books0)
      case Found(k, afterComment) =>
        p0 <= b && PassFrame(b, books0) &&
        if afterComment then
          k == Semicolon && OperatorLead(b) && IsCompletionKeyword(lastTokenKind) && error == None && chBuffer == [] &&
          lineNumber > books0.lineNumber && hasLineTerminator && isLineBegin
        else
          StepShape(b, Emit(k), books0) && LeadFacts(b, Emit(k), books0) &&
          (QuoteLead(b) ==> StringToken(b, position, value, inStrictMode))
    }

    /** One turn of nextToken's loop: skip whitespace, stop at the end of
        the text, and otherwise make a pass at the token's begin; the rest
        of a line comment is skipped here, and ends the statement after a
        completion keyword. */
    method LoopTurn(tok: Token, inStrictMode: bool) returns (x: Turn)
      requires Tables() && Synced() && error == None && chBuffer == []
      modifies this, tok`begin, tok`value
      ensures TurnDone(old(position), old(Books()), x, tok.begin, tok.value, inStrictMode)
    {
      SkipWhitespace();
      if IsEnd() {
        return AtEnd;
      }
      tok.begin := position;
      var step, quoted := ScanPass(tok, inStrictMode);
      match step {
        case Emit(k) => x := Found(k, false);
        case Fail => x := Errored;
        case Stop(o) => x := Thrown(o);
        case Again => x := Onward;
        case LineComment =>
          var eof := EndLineComment();
          if eof {
            x := AtEnd;
          } else if IsLastTokenCompletionKeyword() {
            x := Found(Semicolon, true);
          } else {
            x := Onward;
          }
      }
    }

    /** What nextToken's loop leaves, begun at p0 with lineNumber lines0 and
        no line terminator seen, when the token it ends with begins at b
        and carries value. */
    ghost predicate LoopDone(p0: int, lines0: int, books0: Bookkeeping, x: Turn, b: int, value: TokenValue,
                             inStrictMode: bool)
      reads this
    {
      match x
      case Thrown(o) =>
        (o == Diverges && p0 <= b && QuoteLead(b)) || o == Aborted(NotImplemented)
      case Onward => false
      case AtEnd =>
        Synced() && p0 <= position == end && error == None && chBuffer == [] &&
        lastTokenKind == books0.lastTokenKind && lineNumber >= lines0 && (hasLineTerminator <==> lineNumber > lines0)
      case Errored =>
        Synced() && p0 <= b <= position && error.Some? && lastTokenKind == books0.lastTokenKind &&
        lineNumber >= lines0 && (hasLineTerminator ==> lineNumber > lines0)
      case Found(k, afterComment) =>
        Synced() && p0 <= b <= position && lastTokenKind == books0.lastTokenKind && lineNumber >= lines0 &&
        error == None && (k != Error ==> chBuffer == []) &&
        if afterComment then
          k == Semicolon && OperatorLead(b) && IsCompletionKeyword(lastTokenKind) &&
          lineNumber > lines0 && hasLineTerminator && isLineBegin
        else
          (hasLineTerminator ==> lineNumber > lines0) &&
          (OperatorLead(b) ==>
             LongestAt(b, k) && position == b + |Spelling(k)| && (hasLineTerminator <==> lineNumber > lines0) &&
             (k in {PlusPlus, PlusPlusAuto, MinusMinus, MinusMinusAuto} ==>
                (k in {PlusPlusAuto, MinusMinusAuto} <==> hasLineTerminator))) &&
          (NumberLead(b) ==> k == Number && !CharKinds.IsIdentifierBegin(chCode)) &&
          (QuoteLead(b) ==> k == String && StringToken(b, position, value, inStrictMode))
    }

    /** nextToken's loop: turns until one ends with something other than
        another turn. */
    method TokenLoop(tok: Token, inStrictMode: bool) returns (x: Turn)
      requires Tables() && Synced() && error == None && chBuffer == [] && !hasLineTerminator
      modifies this, tok`begin, tok`value
      ensures LoopDone(old(position), old(lineNumber), old(Books()), x, tok.begin, tok.value, inStrictMode)
    {
      ghost var books0 := Books();
      ghost var p0 := position;
      x := Onward;
      while true
        invariant Tables() && Synced() && error == None && chBuffer == []
        invariant old(position) <= position && (position > end ==> position == old(position))
        invariant lastTokenKind == old(lastTokenKind) && lineNumber >= old(lineNumber)
        invariant hasLineTerminator <==> lineNumber > old(lineNumber)
        decreases if position <= end then end - position + 1 else 0
      {
        books0 := Books();
        p0 := position;
        x := LoopTurn(tok, inStrictMode);
        if !x.Onward? {
          break;
        }
      }
    }

    /** What nextToken promises once it has started cleanly at p0 with
        lineNumber lines0 and last token kind last0, for its result r and
        the token tok:
        - a runaway string literal begins at tok.begin; the only throw is
          the unimplemented `\u` escape of an identifier;
        - the position has not gone back, lines only add up, and a line
          terminator was seen only if lines were crossed;
        - EOF at the end of the text keeps the last token's kind (a keyword
          table may also name EOF);
        - any other token spans tok.begin to tok.end, the position, on line
          tok.line; unless it is ERROR, no error is recorded, chBuffer is
          empty and the kind becomes the last token's; an ERROR token either
          has its message recorded and keeps the last token's kind, or
          (from an identifier escape) becomes the last token's kind;
        - a token that leaves the line's beginning set is the SEMICOLON a
          line comment after a completion keyword stands for;
        - any other token at a punctuator char is the longest punctuator
          there, `++` and `--` being the `_AUTO` kinds exactly when a line
          terminator came before them;
        - at a digit (or a `.` and a digit) it is a NUMBER no identifier
          char follows, or ERROR; at a quote a STRING literal, or ERROR. */
    ghost predicate TokenScanned(r: Outcome<TokenKind>, p0: int, lines0: int, last0: TokenKind, tok: Token,
                                 inStrictMode: bool)
      reads this, tok
    {
      (r == Diverges ==> p0 <= tok.begin && QuoteLead(tok.begin)) &&
      (r.Aborted? ==> r == Aborted(NotImplemented)) &&
      (r.Returned? ==>
         Synced() && p0 <= position && lineNumber >= lines0 && (hasLineTerminator ==> lineNumber > lines0)) &&
      (r == Returned(Eof) ==>
         (position == end && error == None && chBuffer == [] && lastTokenKind == last0) ||
         (lastTokenKind == Eof && tok.kind == Eof)) &&
      (r.Returned? && r.value != Eof ==>
         p0 <= tok.begin <= tok.end && tok.end == position && tok.line == lineNumber) &&
      (r.Returned? && r.value != Eof && r.value != Error ==>
         error == None && chBuffer == [] && lastTokenKind == r.value && tok.kind == r.value) &&
      (r == Returned(Error) ==>
         (error.Some? && lastTokenKind == last0) || (error == None && lastTokenKind == Error && tok.kind == Error)) &&
      (r.Returned? && r.value != Eof && r.value != Error && isLineBegin ==>
         r.value == Semicolon && IsCompletionKeyword(last0) && hasLineTerminator) &&
      (r.Returned? && r.value != Eof && r.value != Error && !isLineBegin && OperatorLead(tok.begin) ==>
         LongestAt(tok.begin, r.value) && position == tok.begin + |Spelling(r.value)| &&
         (hasLineTerminator <==> lineNumber > lines0) &&
         (r.value in {PlusPlus, PlusPlusAuto, MinusMinus, MinusMinusAuto} ==>
            (r.value in {PlusPlusAuto, MinusMinusAuto} <==> lineNumber > lines0))) &&
      (r.Returned? && r.value != Eof && NumberLead(tok.begin) ==>
         r.value in {Number, Error} && (r.value == Number ==> !CharKinds.IsIdentifierBegin(chCode))) &&
      (r.Returned? && r.value != Eof && QuoteLead(tok.begin) ==>
         r.value in {String, Error} &&
         (r.value == String ==> StringToken(tok.begin, tok.end, tok.value, inStrictMode)))
    }

    /** nextToken: scan the next token into tok and return its kind. A
        message recorded by an earlier call is thrown again, and so is a
        non-empty chBuffer; otherwise whitespace, line terminators and
        comments are skipped and the token is scanned as TokenScanned says. */
    method NextToken(tok: Token, inStrictMode: bool) returns (r: Outcome<TokenKind>)
      requires Tables() && Synced()
      modifies this, tok
      ensures old(error).Some? ==> r == Aborted(old(error).value) && unchanged(this)
      ensures old(error) == None && old(chBuffer) != [] ==> r == Aborted(BufferNotEmpty) && error == Some(BufferNotEmpty)
      ensures old(error) == None && old(chBuffer) == [] ==>
                TokenScanned(r, old(position), old(lineNumber), old(lastTokenKind), tok, inStrictMode)
    {
      var thrown := ThrowOnError(None);
      if thrown {
        return Aborted(error.value);
      }
      if chBuffer != [] {
        thrown := ThrowOnError(Some(BufferNotEmpty));
        return Aborted(error.value);
      }
      hasLineTerminator := false;
      ghost var p0, lines0, last0 := position, lineNumber, lastTokenKind;
      var x := TokenLoop(tok, inStrictMode);
      match x {
        case Thrown(o) => return o;
        case AtEnd => return Returned(Eof);
        case _ =>
      }
      r := FinishToken(tok, x, p0, lines0, last0, inStrictMode);
    }

    /** The end of nextToken after its loop: the token's line and end are
        recorded; an error token is returned as it is; any other token
        ends the line's beginning (unless a line comment ended the
        statement) and becomes the last token. */
    method FinishToken(tok: Token, x: Turn, ghost p0: int, ghost lines0: int, ghost last0: TokenKind,
                       ghost inStrictMode: bool) returns (r: Outcome<TokenKind>)
      requires x.Found? || x.Errored?
      requires LoopDone(p0, lines0, Books().(lastTokenKind := last0), x, tok.begin, tok.value, inStrictMode)
      modifies this`isLineBegin, this`lastTokenKind, tok`line, tok`end, tok`kind
      ensures TokenScanned(r, p0, lines0, last0, tok, inStrictMode)
    {
      LeadsExclusive(tok.begin);
      tok.line := lineNumber;
      tok.end := position;
      if x.Errored? {
        ErrorScanned(tok, p0, lines0, last0, inStrictMode);
        return Returned(Error);
      }
      if !x.afterComment {
        isLineBegin := false;
      }
      r := RecordToken(tok, x, p0, lines0, last0, inStrictMode);
    }

    /** An error token, once its line and end are recorded, is as
        TokenScanned says. */
    lemma ErrorScanned(tok: Token, p0: int, lines0: int, last0: TokenKind, inStrictMode: bool)
      requires LoopDone(p0, lines0, Books().(lastTokenKind := last0), Errored, tok.begin, tok.value, inStrictMode)
      requires tok.line == lineNumber && tok.end == position
      ensures TokenScanned(Returned(Error), p0, lines0, last0, tok, inStrictMode)
    {
    }

    /** Any other token becomes the last token. */
    method RecordToken(tok: Token, x: Turn, ghost p0: int, ghost lines0: int, ghost last0: TokenKind,
                 ghost inStrictMode: bool) returns (r: Outcome<TokenKind>)
      requires x.Found? && tok.line == lineNumber && tok.end == position
      requires LoopDone(p0, lines0, Books().(lastTokenKind := last0), x, tok.begin, tok.value, inStrictMode)
      requires isLineBegin == x.afterComment
      requires OperatorLead(tok.begin) ==> !NumberLead(tok.begin) && !QuoteLead(tok.begin)
      modifies this`lastTokenKind, tok`kind
      ensures TokenScanned(r, p0, lines0, last0, tok, inStrictMode)
    {
      lastTokenKind := x.kind;
      tok.kind := x.kind;
      return Returned(x.kind);
    }
  }
}
