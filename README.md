# A verified model of the jsc lexer and its text layer

This project models the tokenizer of a small JavaScript compiler, in Dafny:

- `jsc.Lexer` (src/lexer.js) turns the source text into tokens, one
  `nextToken` call at a time.
- The text layer it reads through (src/text.js):
  - `TextBuffer`, an immutable array of UTF-8, UTF-16 or ASCII code units
    over a window of a string;
  - the `TextSpan` and `TextPosition` values;
  - the `TextUtils` character classes and `getEscapeChar`.
- `SourceCode` (src/source-code.js), which builds the UTF-16 buffer the lexer
  scans.

The model follows the source's own form:

- The lexer is a class whose fields are the lexer's state: the position, the
  current char and code, the last char, the char buffer, the line number,
  the flags, the last token kind and the recorded error.
- `next`, `seek`, the position setter, `nextLine` and `skipWhitespace` are
  methods. So are the `parse*` helpers and `nextToken` itself, each with the
  loops the source has and their invariants.
- Each method is proved against a specification function of the text it
  reads:
  - `RunEnd`: where a run of digits stops;
  - `CommentScan`: where a block comment closes and how many lines it spans;
  - `StringFrom`: what a string literal's scan pushes and where it ends;
  - `KeywordFrom`: which keyword matches;
  - `PartsEnd`: where an identifier ends;
  - `Family` and `LongestAt`: which punctuator is the longest match.
- The properties the lexer promises are proved about those functions as
  lemmas: longest match, round trips, where scans stop, and line counting.
- `TextBuffer` is a class over an `array` that its constructor and `putChar`
  fill in place.
- Its decoding (`getCharCode`, `getString`, `forEach`) is specified by
  functions on the unit sequence. The UTF-8 and UTF-16 round trips are
  proved about those functions.
- The char-kind table, the token kinds and spellings, the digit values and
  the spans are datatypes and pure functions.

The tokens module and its keyword table (`token.Identifiers`) are not part of
this model. The lexer takes the keyword table as a constructor parameter: a
sequence of (spelling, kind) entries in the table's enumeration order. The
model's `TokenKind` lists the kinds the lexer names.

## Behaviour of the source the model keeps

The model does what the code does, including where that differs from what a
JavaScript lexer is expected to do. Each point below is stated by a lemma or
a contract.

- `isDigit`, `isHexDigit` and `isOctalDigit` accept `null`, because `null >= '0'`
  and `null <= '9'` compare as numbers (`TextUtils.NullClasses`). A `\x`
  escape whose second hex digit would be read at the end of the text therefore
  passes the check. `seek(2)` then steps past the end, and the string loop
  never stops: the model's scan ends in `Runaway`, and `parseString` returns
  `Diverges` (`Lexers.Lexer.HexEscapeAtEndRunsAway`).
- The value of an identifier is the whole buffer's text. The lexer's
  `getString` calls `sourceBuffer.toString(offset, len)`, and `toString`
  takes no arguments (`Lexers.Lexer.ScanIdentifier`).
- The value of a string literal begins with its opening quote. The first run
  `parseString` copies starts at `startOffset`, the quote's position
  (`Lexers.Lexer.ParseString`).
- `parseKeyword` rejects a keyword followed by an identifier part by indexing
  the char-kind table with a one-char string. Only the digit strings index an
  entry, and those entries are control codes, so the check never holds
  (`CharKinds.IdentifierPartKeyNeverHolds`).
- For UTF-16 and ASCII, `TextBuffer` sets `endIndex` to the last char of the
  window. `subarray` treats it as an exclusive end, so a window of n chars
  keeps n - 1 units (`TextBuffers.NarrowWindowDropsLastUnit`).
- The 5-byte UTF-8 branch of `getCharCode` reads its second byte as
  `this.source[this.index+1]`. `this.index` is never set, so that term is
  `NaN << 18`, which is 0. The 5-byte form `putChar` writes therefore comes
  back with bits 18 to 23 of the code cleared
  (`Encoding.Utf8FiveByteDropsBits`).
- A UTF-16 surrogate pair decodes to a code above 0xFFFF, and
  `String.fromCharCode` truncates it to one unit
  (`Encoding.Utf16DecodeSurrogatePair`).
- The code points 0x2028 and 0x2029 are line terminators for `TextUtils`, but
  they have no entry in the char-kind table, so `nextToken` reports them as
  an unknown error (`CharKinds.UnicodeTerminatorsHaveNoKind`).
- `isNextTokenColon` tests `peek(position)`, the char at twice the position
  (`Lexers.Lexer.IsNextTokenColon`).
- `SourceCode` takes its first line number from the start index, not from
  the line argument (`SourceCodes.SourceCode.constructor`).
- The keyword table is a parameter of the model, so an identifier can come
  back as any kind the table names.

## Model

| member | source | states |
|---|---|---|
| CharKinds.Ordinal | src/lexer.js:1249-1255 | The kinds are numbered in the order of the `charKinds` list; IDENTIFIER_BEGIN sits at position 29, below ZERO and NUMBER only. |
| CharKinds.KindTable | src/lexer.js:1258-1515 | From 0x80 to 0xFF the table gives only INVALID, WHITESPACE or IDENTIFIER_BEGIN: no operator, digit or quote kind lies outside ASCII. |
| CharKinds.IsPunctuation | src/lexer.js:184-601 | The punctuator kinds, the switch cases that end in an operator or separator token, lie between LINE_TERMINATOR and WHITESPACE and exclude QUOTE, DOT and BACKSLASH. |
| CharKinds.KindOf | src/lexer.js:1233-1235 | Indexing the table gives a kind exactly for a code in 0..255; NaN and every other code index no entry. |
| CharKinds.BracketCharacters | src/lexer.js:1258-1515 | EXCLAMATION, OPEN_PAREN, CLOSE_PAREN, OPEN_BRACE, CLOSE_BRACE and OPEN_BRACKET are each the kind of exactly their one char. |
| CharKinds.SeparatorCharacters | src/lexer.js:1258-1515 | CLOSE_BRACKET, COMMA, COLON, SEMICOLON, QUESTION and TILDE are each the kind of exactly their one char. |
| CharKinds.ArithmeticCharacters | src/lexer.js:1258-1515 | DOT, SLASH, BACKSLASH, ADD, SUBTRACT, MULTIPLY and MODULO are each the kind of exactly their one char. |
| CharKinds.ComparisonCharacters | src/lexer.js:1258-1515 | AND, OR, XOR, LESS, GREATER and EQUAL are each the kind of exactly their one char. |
| CharKinds.LiteralCharacters | src/lexer.js:1258-1515 | QUOTE is the kind of exactly the two quotes, LINE_TERMINATOR of `\n` and `\r`, ZERO of `0`, and NUMBER of `1`..`9`. |
| CharKinds.KindCharacters | src/lexer.js:1258-1515 | Every kind except WHITESPACE, IDENTIFIER_BEGIN and INVALID is the kind of exactly the chars it is named after, in both directions. |
| CharKinds.IdentifierClasses | src/lexer.js:1225-1231 | isIdentifierPart holds exactly for the kinds IDENTIFIER_BEGIN, ZERO and NUMBER. Every beginning char is a part; a digit is a part that cannot begin. No code outside the table is either. Below 0x80 isIdentifierBegin holds exactly for `$`, `_` and the letters, and isIdentifierPart exactly for those and the digits. |
| CharKinds.IsIdentifierBegin | src/lexer.js:1225-1227 | isIdentifierBegin holds only for a number inside the table, from `$` on, that is not a digit; NaN never begins an identifier. |
| CharKinds.IsIdentifierPart | src/lexer.js:1229-1231 | isIdentifierPart holds only for a number inside the table from `$` on; NaN and codes from 0x100 on are never parts. |
| CharKinds.TableAgreesWithTextUtils | src/lexer.js:1258-1515 | On 0..255, the table's WHITESPACE and LINE_TERMINATOR entries are exactly the TextUtils whitespace and line terminators, and its ZERO and NUMBER entries exactly the digits. Every ASCII letter is IDENTIFIER_BEGIN. |
| CharKinds.UnicodeTerminatorsHaveNoKind | src/text.js:329-331 | U+2028 and U+2029 are line terminators for TextUtils but have no entry in the char-kind table. |
| CharKinds.KindOfPropertyKey | src/lexer.js:875 | The table indexed with a one-char string or null has an entry only for a digit string. |
| CharKinds.IsIdentifierPartKey | src/lexer.js:875 | isIdentifierPart applied to the one-char string (or null) that peek returns: it can hold only for a digit string, whose entry is a control code's kind. |
| CharKinds.IdentifierPartKeyNeverHolds | src/lexer.js:875 | The identifier-part test parseKeyword makes after a keyword is false for every char and for null. |
| Digits.DigitOfValue | src/lexer.js:1065-1101 | A digit of radix 8, 10 or 16 is a hex digit whose value is below the radix. |
| Digits.DigitFold | src/lexer.js:1037-1044 | The value parseInt gives a run of digits: one digit gives its own value, and the value is never negative. |
| Digits.DigitFoldBounds | src/lexer.js:1037-1044 | The value of n digits in a radix lies in [0, radix^n). |
| Digits.DigitFoldSnoc | src/lexer.js:1039 | Appending a digit multiplies the value by the radix and adds the digit's value, as `decimalValue * 10 + (chCode - 0x30)` does. |
| Digits.LeadingZero | src/lexer.js:617-621 | The `0` that the ZERO case pushes before octal digits leaves their base-8 value unchanged. |
| Encoding.EncodingFromName | src/text.js:94 | An empty encoding name means UTF-8. A name equal to "UTF-16" selects UTF-16. Any name other than the two selects the ASCII branches. |
| Encoding.CharLength | src/text.js:184-192 | getCharLength is 1 or 2 for UTF-16, and 1 to 6 for UTF-8 and ASCII. |
| Encoding.CharLengthClasses | src/text.js:184-192 | Each width holds on exactly its range of codes: the 0x10000 split for UTF-16, and the 0x80, 0x800, 0x10000, 0x200000 and 0x4000000 boundaries for UTF-8. |
| Encoding.CharLengthOf | src/text.js:184-192 | On a decoded value, NaN fails every comparison and gets the widest length. |
| Encoding.ToUnit | src/text.js:195 | String.fromCharCode keeps a code below 0x10000 as it is, and always yields one 16-bit unit. |
| Encoding.EncodeUnits | src/text.js:224-281 | putChar writes exactly getCharLength(code) units for a code. |
| Encoding.EncodeUnitsInRange | src/text.js:224-281 | Every unit putChar writes fits its typed array: below 0x10000 for UTF-16 and below 0x100 for bytes. |
| Encoding.Utf16CharCode | src/text.js:198-208 | UTF-16 getCharCode yields a number exactly for an index inside the window. |
| Encoding.Utf8CharCode | src/text.js:210-222 | UTF-8 and ASCII getCharCode yields a number exactly for an index inside the buffer, including for the 5-byte branch. |
| Encoding.CharCodeAt | src/text.js:198-222 | getCharCode yields a number exactly for an index inside the buffer, and a unit below 0x80 decodes to itself in every encoding. |
| Encoding.Utf16PairRoundTrip | src/text.js:230-238 | A supplementary code is written as the pair 0xD7C0 + code/0x400 and 0xDC00 + code%0x400. getCharCode recombines the pair to the code anywhere in a buffer. |
| Encoding.Utf16SingleUnit | src/text.js:204-207 | A unit at or below 0xD7BF, or the last unit of the buffer, decodes to itself. |
| Encoding.Utf8RawByte | src/text.js:210-221 | A byte up to 191, or a lead byte whose form runs past the end, decodes to itself. |
| Encoding.Utf8RoundTrip | src/text.js:239-259 | The 1- to 4-byte forms putChar writes decode back to the code, wherever they sit in a buffer. |
| Encoding.Utf8SixByteRoundTrip | src/text.js:268-276 | The 6-byte form round-trips for codes from 0x4000000 up to 2^31. |
| Encoding.Utf8FiveByteDropsBits | src/text.js:212-213 | The 5-byte form putChar writes decodes to the code with bits 18 to 23 cleared, because the byte carrying them is read through `this.index`. It round-trips exactly when those bits are zero. |
| Encoding.EncodedLength | src/text.js:112-121 | The first pass's bufferLength for a string of n chars lies between n and 2n units for UTF-16 and between n and 6n bytes otherwise. |
| Encoding.EncodeAll | src/text.js:105-145 | The units putChar writes for a whole string are at least as many as its chars. |
| Encoding.EncodeAllUtf16 | src/text.js:123-128 | In UTF-16 the units putChar writes for a whole string are the string's char codes unchanged. |
| Encoding.EncodeAllLength | src/text.js:112-121 | The bytes of a whole string number exactly the sum of getCharLength over its chars, which is the first pass's bufferLength. |
| Encoding.EncodeAllInRange | src/text.js:123-128 | Every unit of an encoded string fits its typed array. |
| Encoding.EncodedLengthMonotone | src/text.js:112-121 | The unit offset of char k is at least k less than the offset of the end. |
| Encoding.EncodeAllCons | src/text.js:127-128 | The encoding of a string is the units of its first char followed by the encoding of the rest, as the putChar loop writes them. |
| Encoding.EncodedLengthCons | src/text.js:112-121 | The encoded length of a string is its first char's length plus the encoded length of the rest. |
| Encoding.VisitsFrom | src/text.js:287-296 | forEach over UTF-8 and UTF-16 makes at most one call per remaining unit; the k-th call has char index i + k, a buffer index inside the buffer, and a numeric code. |
| Encoding.AsciiVisitsFrom | src/text.js:298-302 | forEach over an ASCII buffer makes exactly one call per remaining unit. |
| Encoding.AsciiVisitIndices | src/text.js:298-302 | forEach over an ASCII buffer visits each unit once, with char index and buffer index both equal to its place. |
| Encoding.Utf8Step | src/text.js:210-221 | A buffer holding the encoding of t decodes t[0] at its front, and the rest follows the units of t[0]. |
| Encoding.Utf8VisitStep | src/text.js:288-296 | The first forEach callback over a UTF-8 encoding of t reports t[0], and forEach then continues after its units. |
| Encoding.Utf8VisitsRoundTrip | src/text.js:283-303 | forEach over a UTF-8 buffer holding a string's encoding visits exactly the string's codes. Visit k carries char index k and buffer index the encoded length of the first k chars. |
| Encoding.VisitsCons | src/text.js:290-296 | The visit list of t is its first visit followed by the shifted visits of the rest. |
| Encoding.DecodeFrom | src/text.js:161-182 | getString over [i, len) appends at least one and at most len - i units, each a 16-bit value. |
| Encoding.Utf8DecodeStep | src/text.js:165-175 | The getString loop over an encoding of t yields t[0] and then decodes the rest. |
| Encoding.Utf8DecodeRoundTrip | src/text.js:161-182 | getString over a UTF-8 buffer holding a string's encoding gives the string back. |
| Encoding.Utf16DecodeRoundTrip | src/text.js:161-182 | getString over a UTF-16 buffer with no unit above 0xD7BF gives its units back. |
| Encoding.Utf16DecodeSurrogatePair | src/text.js:169-173 | A surrogate pair comes back from getString as one truncated unit (0xD83D 0xDE00 gives 0xF600). |
| Encoding.RelativeIndex | src/text.js:151 | A subarray index is kept when it is in range, counts from the end when it is negative, and is clamped to the length. |
| Encoding.Subarray | src/text.js:151 | subarray(begin, end) is the slice for in-range arguments, and never longer than the array. |
| Spans.TextSpan.End | src/text.js:10-12 | end lies exactly length past begin. |
| Spans.TextSpan.IsEmpty | src/text.js:14-16 | A span is empty exactly when its end is its begin. |
| Spans.FromRange | src/text.js:24-26 | fromRange(begin, end) begins at begin and ends at end, and is empty exactly when begin == end. |
| Spans.SpanRangeRoundTrip | src/text.js:4-26 | Every span is the fromRange of its own begin and end. |
| Spans.TextPosition.Column | src/text.js:37-39 | The column is begin measured from lineBegin. |
| Spans.TextPosition.Add | src/text.js:41-43 | add keeps the line and lineBegin and moves the column forward by the offset. |
| Spans.TextPosition.Subtract | src/text.js:45-47 | subtract keeps the line and lineBegin and moves the column back by the offset. |
| Spans.AddSubtractInverse | src/text.js:41-47 | add and subtract by the same offset undo each other in either order, and add(0) is the identity. |
| Spans.TextPosition.IsEqualTo | src/text.js:49-51 | isEqualTo holds exactly for equal positions: line, begin and lineBegin all agree. |
| Spans.TextPosition.IsGreaterThan | src/text.js:53-57 | isGreaterThan is the strict product order on (line, begin): both components at least as large and not both equal. lineBegin takes no part. |
| Spans.TextPosition.IsLessThan | src/text.js:59-63 | isLessThan is the converse of isGreaterThan, the strict product order on (line, begin) the other way round. |
| Spans.OrderIsStrict | src/text.js:53-63 | isLessThan is irreflexive, asymmetric and transitive, and never holds between equal positions. |
| Spans.OrderIsPartial | src/text.js:53-63 | Two positions can be neither less, greater nor equal, e.g. (1, 5) and (2, 3). |
| SourceCodes.SourceCode.constructor | src/source-code.js:5-21 | The span is the whole text unless both a start and an end index are given. The first line is the start index, at least 1. The buffer is the UTF-16 TextBuffer over the span's window. |
| SourceCodes.SourceCode.OffsetBegin | src/source-code.js:24-26 | offsetBegin lies exactly the span's length before offsetEnd. |
| SourceCodes.SourceCode.OffsetEnd | src/source-code.js:28-30 | offsetEnd is the span's end, begin plus length. |
| TextBuffers.JsRem | src/text.js:95 | JavaScript `%` truncates toward zero: it agrees with the Euclidean remainder for non-negative operands and negates it for negative ones. |
| TextBuffers.WindowStart | src/text.js:95 | startIndex is an index into the string: an offset in range is kept, and a negative offset counts from the end. |
| TextBuffers.WindowLast | src/text.js:96 | endIndex is below the string length. For an in-range window it is the index of the window's last char. |
| TextBuffers.Narrowed | src/text.js:133-148 | UTF-16 stores each char code as it is, and ASCII its low byte, one unit per char. |
| TextBuffers.StoredUnits | src/text.js:105-149 | The stored units are the string itself for UTF-16, and every unit fits its typed array. |
| TextBuffers.UnitWindow | src/text.js:95-121 | The constructor's window [startIndex, endIndex) in units. It never starts below 0. For UTF-16 and ASCII the last index is below the string's length. For UTF-8 the start is at least the char index it came from, because each char takes at least one byte, and both ends lie within the encoded length. |
| TextBuffers.TextBuffer.constructor | src/text.js:91-155 | The buffer holds the units of the string in the chosen encoding. startIndex and endIndex are the char window converted to unit offsets, and source is the subarray between them. Every unit in the buffer and in source fits the encoding's typed array (16 bits for UTF-16, a byte otherwise). |
| TextBuffers.TextBuffer.Layout | src/text.js:95-121 | The sizes computed before allocation: the buffer length is the number of units the string is stored in, and the unit window is UnitWindow. |
| TextBuffers.TextBuffer.Utf8Window | src/text.js:110-121 | The first UTF-8 pass: its total is the sum of getCharLength over the string. startIndex becomes the width of the chars before the window, and endIndex the width up to and including the window's last char (left as is when that index is negative). |
| TextBuffers.TextBuffer.WindowOf | src/text.js:151 | The source kept by the constructor, the subarray of the window or the whole buffer, is never longer than the buffer. |
| TextBuffers.TextBuffer.Fill | src/text.js:105-149 | The second pass leaves exactly the stored units of the string in the buffer. |
| TextBuffers.TextBuffer.FillUtf8 | src/text.js:123-128 | The putChar loop leaves the UTF-8 encoding of the whole string in the buffer. |
| TextBuffers.TextBuffer.NarrowUnits | src/text.js:133-148 | The UTF-16 and ASCII copy loops leave each char code, or its low byte, in place. |
| TextBuffers.TextBuffer.PutChar | src/text.js:224-281 | putChar writes the code's units at index, leaves every other unit alone, and returns index + getCharLength(code). |
| TextBuffers.TextBuffer.PutUtf16Char | src/text.js:230-238 | The UTF-16 case writes one unit or a surrogate pair at index and nothing else. |
| TextBuffers.TextBuffer.PutUtf8Char | src/text.js:239-277 | The UTF-8/ASCII case writes one to six bytes at index and nothing else. |
| TextBuffers.TextBuffer.Store1 | src/text.js:241 | One `buffer[nextIndex++] = unit` writes that unit at index and advances by one. |
| TextBuffers.TextBuffer.Store2 | src/text.js:244-245 | Two stores write their units in order at index and advance by two. |
| TextBuffers.TextBuffer.Store3 | src/text.js:249-251 | Three stores write their units in order and advance by three. |
| TextBuffers.TextBuffer.Store4 | src/text.js:255-258 | Four stores write their units in order and advance by four. |
| TextBuffers.TextBuffer.Store5 | src/text.js:262-266 | Five stores write their units in order and advance by five. |
| TextBuffers.TextBuffer.Store6 | src/text.js:270-275 | Six stores write their units in order and advance by six. |
| TextBuffers.TextBuffer.Length | src/text.js:157-159 | length is the number of units in the window. |
| TextBuffers.TextBuffer.GetCharCode | src/text.js:198-222 | getCharCode is the decoder of the buffer's encoding at the index, whose round trips are proved in Encoding. |
| TextBuffers.TextBuffer.GetChar | src/text.js:194-196 | getChar is one 16-bit unit, equal to the code whenever the code is below 0x10000. |
| TextBuffers.TextBuffer.GetCharLength | src/text.js:184-192 | getCharLength of any decoded value, NaN included, is at least one, so the decoding loops advance. |
| TextBuffers.TextBuffer.GetString | src/text.js:161-182 | UTF-8 and UTF-16 decode code after code, stepping by each code's length. ASCII returns the units of subarray(offset, offset + len). |
| TextBuffers.TextBuffer.ForEach | src/text.js:283-303 | The callbacks forEach makes, in order, are the decoded visits for UTF-8 and UTF-16, and one per unit for ASCII. |
| TextBuffers.Utf8WholeStringRoundTrip | src/text.js:91-182 | A UTF-8 buffer over a whole string keeps every unit in its window, and getString over it gives the string back. |
| TextBuffers.NarrowWindowDropsLastUnit | src/text.js:95-96 | For UTF-16 and ASCII, a window of n chars starting inside the string keeps only its first n - 1 units. |
| TextUtils.NullCompareNumber | src/text.js:337-351 | A one-char string compared with null converts to its digit value 0..9 when it is a digit, to 0 when it is a white-space or line-terminator char, and to NaN otherwise. |
| TextUtils.InRange | src/text.js:333-367 | On a char the range test is the unit range. On null it holds exactly when the low bound converts to 0 (`0` or a white-space char) and the high bound to a number (a digit or a white-space char). |
| TextUtils.IsWhitespace | src/text.js:325-327 | A whitespace char is never null, LF or CR, and lies from tab to 0xFEFF. Below 0x80 it is exactly space, tab, vertical tab or form feed. |
| TextUtils.IsLineTerminator | src/text.js:329-331 | A line terminator is never null, lies below `0` or from 0x2028 on (so it is never alphanumeric), and within Latin-1 it is exactly LF or CR. |
| TextUtils.IsAlpha | src/text.js:333-335 | isAlpha holds exactly for the ASCII letters, and never for null. |
| TextUtils.IsDigit | src/text.js:337-339 | isDigit holds exactly for `0`..`9` and for null. |
| TextUtils.IsAlphaNumeric | src/text.js:341-343 | isAlphaNumeric holds only for null or a char from `0` to `z`, and not for `_`. |
| TextUtils.IsHexDigit | src/text.js:345-347 | isHexDigit holds exactly for null and the chars `0`..`9`, `A`..`F` and `a`..`f`. |
| TextUtils.IsOctalDigit | src/text.js:349-351 | isOctalDigit holds exactly for `0`..`7` and for null. |
| TextUtils.IsBinaryDigit | src/text.js:353-355 | A binary digit is `0` or `1`, never null (the strict comparison with `'0'` and `'1'` rejects it). |
| TextUtils.IsAscii | src/text.js:357-359 | isAscii holds exactly for a char below 0x80, and never for null. |
| TextUtils.IsLower | src/text.js:361-363 | isLower holds exactly for `a`..`z`, and never for null. |
| TextUtils.IsUpper | src/text.js:365-367 | isUpper holds exactly for `A`..`Z`, and never for null. |
| TextUtils.ClassInclusions | src/text.js:325-367 | The digit classes nest (binary within octal within decimal within hex). Letters are exactly upper or lower case, never both. No char is both a letter and a digit, nor both whitespace and a line terminator. |
| TextUtils.NullClasses | src/text.js:337-351 | null passes isDigit, isOctalDigit, isHexDigit and isAlphaNumeric, and fails every other class. |
| TextUtils.DigitValue | src/text.js:345-351 | A hex digit has a value below 16. It is below 10 exactly for a decimal digit and below 8 exactly for an octal digit. |
| TextUtils.GetEscapeChar | src/text.js:369-393 | getEscapeChar gives a char exactly for b, t, n, v, f, r, backslash and the two quotes; the chars it gives are non-alphanumeric ASCII controls or punctuation. |
| TextUtils.EscapeInjective | src/text.js:369-393 | Distinct escape letters give distinct chars, and exactly the backslash and quote escapes stand for themselves. |
| Tokens.Spelling | src/lexer.js:184-536 | Every punctuator is spelled with at most four chars. |
| Tokens.FamilyComplete | src/lexer.js:184-536 | Every punctuator is in the family of its first char: the words the operator case of that char chooses from. |
| Tokens.EqualLessFamilies | src/lexer.js:184-245 | The `=` and `<` punctuators are in their families. |
| Tokens.GreaterExclamationFamilies | src/lexer.js:246-320 | The `>` and `!` punctuators are in their families. |
| Tokens.SlashAddSubtractFamilies | src/lexer.js:321-410 | The `/`, `+` and `-` punctuators are in their families. |
| Tokens.MultiplyAndFamilies | src/lexer.js:411-450 | The `*` and `&` punctuators are in their families. |
| Tokens.OrXorModuloFamilies | src/lexer.js:451-506 | The `\|`, `^` and `%` punctuators are in their families. |
| Tokens.OperatorFamilies | src/lexer.js:184-506 | The family of each operator char lists exactly the punctuators that case of nextToken can produce. |
| Tokens.SingleFamilies | src/lexer.js:507-603 | Each one-char punctuator is spelled by its char and is its own family. |
| Tokens.KindOfIdentifier | src/lexer.js:1237-1242 | getTokenKindFromIdentifier gives the kind of the first table entry spelled `id`, or UNKNOWN when there is none. |
| Tokens.IsCompletionKeyword | src/lexer.js:127-132 | The completion keywords CONTINUE, BREAK, RETURN and THROW are never punctuator kinds. |
| Lexers.UpToNull | src/lexer.js:1089 | The codes parseInt reads of joined chars: the chars up to the first null, which joins as "null" and stops the digits. |
| Lexers.HexChar | src/lexer.js:1089 | String.fromCharCode(parseInt(s, 16)) is a 16-bit unit. It is the base-16 value of the digits before the first null, modulo 0x10000. |
| Lexers.SingleLead | src/lexer.js:507-603 | A char whose kind is a one-char punctuator kind is exactly that punctuator's char. |
| Lexers.Lexer.BufferChar | src/lexer.js:1190 | sourceBuffer.getChar(i) is a 16-bit unit. |
| Lexers.Lexer.CharAt | src/lexer.js:1166-1171 | The char read at a position is a 16-bit unit, and it is '\0' from `end` on. |
| Lexers.Lexer.PeekAt | src/lexer.js:1152-1157 | peek gives null exactly from `end` on, and otherwise the char there. |
| Lexers.Lexer.LongestInFamilyIsLongest | src/lexer.js:184-506 | A punctuator longest within the family of its first char is the longest punctuator of all spelled at the position. |
| Lexers.Lexer.LongestOf | src/lexer.js:184-506 | A punctuator spelled at p is the longest match there when no longer word of its family is spelled at p. |
| Lexers.Lexer.EqualIsLongest | src/lexer.js:184-205 | The EQUAL case's choice among `===`, `==` and `=` is the longest match, and its length is the number of chars consumed. |
| Lexers.Lexer.LessIsLongest | src/lexer.js:206-245 | The LESS case's choice among `<<=`, `<<`, `<=` and `<` is the longest match. |
| Lexers.Lexer.GreaterIsLongest | src/lexer.js:246-295 | The GREATER case's choice among `>>>=`, `>>>`, `>>=`, `>>`, `>=` and `>` is the longest match. |
| Lexers.Lexer.ExclamationIsLongest | src/lexer.js:296-320 | The EXCLAMATION case's choice among `!==`, `!=` and `!` is the longest match. |
| Lexers.Lexer.AddIsLongest | src/lexer.js:354-377 | The ADD case's choice among `++`, `+=` and `+` is the longest match. |
| Lexers.Lexer.SubtractIsLongest | src/lexer.js:378-410 | The SUBTRACT case's choice among `--`, `-=` and `-` is the longest match. |
| Lexers.Lexer.MultiplyIsLongest | src/lexer.js:411-426 | The MULTIPLY case's choice between `*=` and `*` is the longest match. |
| Lexers.Lexer.AndIsLongest | src/lexer.js:427-450 | The AND case's choice among `&&`, `&=` and `&` is the longest match. |
| Lexers.Lexer.OrIsLongest | src/lexer.js:451-474 | The OR case's choice among `\|=`, `\|\|` and `\|` is the longest match. |
| Lexers.Lexer.XorIsLongest | src/lexer.js:475-490 | The XOR case's choice between `^=` and `^` is the longest match. |
| Lexers.Lexer.ModuloIsLongest | src/lexer.js:491-506 | The MODULO case's choice between `%=` and `%` is the longest match. |
| Lexers.Lexer.SlashIsLongest | src/lexer.js:321-353 | A `/` that opens no comment is `/=` or `/`, whichever is the longest match. |
| Lexers.Lexer.DotIsLongest | src/lexer.js:537-549 | `.` is the longest punctuator at a dot. |
| Lexers.Lexer.Text | src/lexer.js:1188-1191 | The n chars from p on, char by char. |
| Lexers.Lexer.TextSplit | src/lexer.js:1188-1191 | The chars of two adjacent runs are the chars of the joined run. |
| Lexers.Lexer.TextSnoc | src/lexer.js:1188-1191 | One char more appends the char at the end. |
| Lexers.Lexer.RunDigits | src/lexer.js:1056-1060 | The chars of a run of digits are all digits of the radix. |
| Lexers.Lexer.RunEnd | src/lexer.js:1056-1060 | A digit run ends at or after where it starts. |
| Lexers.Lexer.RunEndStops | src/lexer.js:1056-1060 | The run is made of digits and stops at a char that is not one. |
| Lexers.Lexer.RunEndBeyond | src/lexer.js:1056-1060 | Every run of digits from p is at most as long as the run RunEnd names. |
| Lexers.Lexer.RunEndUnique | src/lexer.js:1056-1060 | A run of digits that stops at a non-digit is exactly the run RunEnd names. |
| Lexers.Lexer.DecimalCodes | src/lexer.js:1037-1044 | The fast path's `decimalValue * 10 + (chCode - 0x30)` over n codes. No contract of its own: DecimalCodesAreDigitFold states that it is the base-10 value of the digits, below 10^n. |
| Lexers.Lexer.DecimalCodesAreDigitFold | src/lexer.js:1037-1044 | Where the codes are the chars, the fast path's `decimalValue` is the decimal value of the digits, below 10^n. |
| Lexers.Lexer.CodeAt | src/lexer.js:1173-1178 | getCharCode gives 0 from `end` on. Inside the text its value is stated by CharIsUnitOfCode. |
| Lexers.Lexer.CharIsUnitOfCode | src/lexer.js:1166-1178 | The char at a position is the 16-bit unit of the code there, and equals it when the code is below 0x10000. Inside the text the code is the UTF-16 decode of the buffer at that position. |
| Lexers.Lexer.SyncedCharIsUnit | src/lexer.js:135-140 | `ch` is the unit of `chCode` whenever both are read at the position. |
| Lexers.Lexer.IsEnd | src/lexer.js:101-103 | isEnd implies the position is `end`, and once ch and chCode are read at the position it holds exactly when the position is `end`. |
| Lexers.Lexer.IsLastTokenCompletionKeyword | src/lexer.js:127-132 | When isLastTokenCompletionKeyword holds, the last token kind is not a punctuator. |
| Lexers.Lexer.constructor | src/lexer.js:7-30 | The lexer starts at the span's begin with the source's first line number and an UNKNOWN last token. It begins at a line start with no error and an empty chBuffer, with ch and chCode read there. |
| Lexers.Lexer.GetChar | src/lexer.js:1166-1171 | getChar is the char at the position. |
| Lexers.Lexer.GetCharCode | src/lexer.js:1173-1178 | getCharCode is the code at the position, and 0 from `end` on. |
| Lexers.Lexer.Peek | src/lexer.js:1152-1157 | peek(offset) is null exactly when position + offset is at or past `end`, and otherwise the char there. |
| Lexers.Lexer.Next | src/lexer.js:135-140 | next advances one position, keeps the old ch as chLast, reads ch and chCode there, and changes nothing else. |
| Lexers.Lexer.Seek | src/lexer.js:1159-1164 | seek(offset) advances by offset with the same bookkeeping as next. |
| Lexers.Lexer.SetPosition | src/lexer.js:45-51 | The position setter clears the error and chBuffer, moves, and reads ch and chCode there. Lines, flags and the last token are kept. |
| Lexers.Lexer.NextLine | src/lexer.js:142-154 | nextLine consumes one terminator, or `\n` followed by `\r`, and adds exactly one line. |
| Lexers.Lexer.IsNextTokenColon | src/lexer.js:107-123 | The position moves over exactly the positions whose peek(position) is whitespace or a line terminator. The result is whether the char at the new position is ':'; ch, chCode and chLast are not re-read. |
| Lexers.Lexer.SkipWhitespace | src/lexer.js:777-780 | skipWhitespace stops at the first non-whitespace char, and every char it passes is whitespace. |
| Lexers.Lexer.BufferText | src/lexer.js:1188-1191 | The chars appendString(index, n) pushes: the n buffer chars from index on, none when n is not positive. |
| Lexers.Lexer.BufferTextSnoc | src/lexer.js:1188-1191 | Pushing one more char extends the pushed run by the next buffer char. |
| Lexers.Lexer.AppendString | src/lexer.js:1188-1191 | appendString appends exactly those chars to chBuffer and changes nothing else. |
| Lexers.Lexer.SetError | src/lexer.js:1198-1200 | setError records the message. |
| Lexers.Lexer.ClearError | src/lexer.js:1202-1204 | clearError forgets the recorded message. |
| Lexers.Lexer.ThrowOnError | src/lexer.js:1206-1215 | throwOnError records a given message and throws exactly when a message is recorded, whether just now or before. |
| Lexers.Lexer.AppendDigits | src/lexer.js:1056-1060 | The digit loop ends exactly at the end of the digit run and pushes the run's chars, in order, onto chBuffer. |
| Lexers.Lexer.ParseDecimal | src/lexer.js:1029-1063 | parseDecimal stops at the end of the digit run. With an empty chBuffer it completes the literal exactly when the run has nine digits or fewer and no `.`, `e` or `E` follows; the token's value is then the run's decimal value. Otherwise chBuffer gains the run's chars in source order. |
| Lexers.Lexer.DecimalPrefix | src/lexer.js:1032-1054 | The fast path completes exactly when FastDecimal holds, with the value of the digits. Otherwise the digits read so far go to chBuffer in source order. |
| Lexers.Lexer.RunContinues | src/lexer.js:1052-1060 | Reading on from the end of the first part of a run reaches the end of the whole run. |
| Lexers.Lexer.PrefixDecides | src/lexer.js:1044-1046 | The do-while's stopping point decides FastDecimal: fewer than ten digits and no `.`, `e` or `E` after them. |
| Lexers.Lexer.ReadDecimalPrefix | src/lexer.js:1034-1044 | The do-while reads one to ten digits, maxDigits counting down from 9, and decimalValue is the codes' decimal value. |
| Lexers.Lexer.ParseHex | src/lexer.js:1065-1076 | parseHex steps over the `x` and pushes the hex digits that follow. The value is the base-16 value of chBuffer, or NaN when it is empty. |
| Lexers.Lexer.ParseOctal | src/lexer.js:1092-1101 | parseOctal pushes the octal run. The value is the base-8 value of chBuffer, or NaN when it is empty; it always reports success. |
| Lexers.Lexer.ParseNumberAfterDecimalPoint | src/lexer.js:1107-1117 | It pushes `.` and then exactly the digit run at the position. |
| Lexers.Lexer.AppendExponentSign | src/lexer.js:1120-1127 | It pushes `e` whatever the case of the letter, steps over it, and pushes and steps over one sign if there is one. |
| Lexers.Lexer.ParseNumberAfterExponent | src/lexer.js:1119-1140 | It succeeds exactly when a digit follows the letter and its sign. It then pushes the whole digit run; otherwise it stops where the digits should begin. |
| Lexers.Lexer.ExponentTextJoins | src/lexer.js:1119-1140 | The exponent head and its digits push one contiguous text. |
| Lexers.Lexer.FractionFrom | src/lexer.js:692-696 | Reading a fraction never moves back. |
| Lexers.Lexer.FractionEnd | src/lexer.js:690-696 | The integer and fraction parts end at or after where the literal's digits start. |
| Lexers.Lexer.ExponentEnd | src/lexer.js:698-706 | An exponent letter always advances the scan. |
| Lexers.Lexer.ScanFraction | src/lexer.js:692-696 | The middle of the inNumber block steps over a `.` and reads the fraction's digits, ending where FractionFrom says with FractionText pushed. |
| Lexers.Lexer.ScanExponent | src/lexer.js:698-706 | The exponent step fails exactly when no digit follows the letter and sign. It ends where ExponentEnd says with ExponentText pushed. |
| Lexers.Lexer.ExponentRead | src/lexer.js:698-706 | What parseNumberAfterExponent leaves is ExponentOk, ExponentEnd and ExponentText. |
| Lexers.Lexer.NoExponent | src/lexer.js:698 | Without an exponent letter nothing is read or pushed, and the literal is fine. |
| Lexers.Lexer.ScanNumberText | src/lexer.js:690-710 | The slow path ends after the exponent, pushes the fraction and exponent texts, and on success sets the value to parseFloat of chBuffer. On failure it records "Non-Number was found after the exponent indicator." and leaves the value alone. |
| Lexers.Lexer.ScanNumber | src/lexer.js:682-715 | The inNumber block has two outcomes. On the fast path the literal ends at the end of its digit run, with the digits' value and an empty chBuffer. Otherwise it ends after the exponent with the whole lexeme (digits, fraction, exponent) pushed, the value parsed from chBuffer, and an error exactly when the exponent has no digit. |
| Lexers.Lexer.LexemeComposes | src/lexer.js:690-708 | The text both halves of the inNumber block push is the literal's lexeme. |
| Lexers.Lexer.LexemeAfterDot | src/lexer.js:537-549 | After a `.` just read, the lexeme is the fraction's text followed by the exponent's. |
| Lexers.Lexer.LexemeAfterDigits | src/lexer.js:690-708 | After a digit run, the lexeme is the run, then the fraction, then the exponent. |
| Lexers.Lexer.FractionAfterDigits | src/lexer.js:692-696 | The digit run and the fraction after it are the source text up to the end of the fraction. |
| Lexers.Lexer.NumberLexemeWithoutDot | src/lexer.js:690-708 | Without a leading `.`, the lexeme is the source text up to the end of the fraction, then the exponent's text. |
| Lexers.Lexer.ParseUnicodeHex | src/lexer.js:1078-1090 | parseUnicodeHex succeeds exactly when ch and the next three peeks pass isHexDigit. It then moves past four chars and gives their HexChar; otherwise it returns null and stays put. |
| Lexers.Lexer.ScanEqual | src/lexer.js:184-205 | The EQUAL case produces the longest punctuator at the position and moves past exactly its chars. |
| Lexers.Lexer.ScanLess | src/lexer.js:206-245 | The LESS case starts a line comment exactly at `<!--`, leaving the position on the `!`. Otherwise it produces the longest punctuator and moves past it. |
| Lexers.Lexer.ScanGreater | src/lexer.js:246-295 | The GREATER case produces the longest punctuator and moves past it. |
| Lexers.Lexer.ScanExclamation | src/lexer.js:296-320 | The EXCLAMATION case produces the longest punctuator and moves past it. |
| Lexers.Lexer.ScanAdd | src/lexer.js:354-377 | The ADD case produces the longest punctuator. `++` is PLUSPLUS_AUTO exactly when a line terminator was crossed in this call. |
| Lexers.Lexer.ScanSubtract | src/lexer.js:378-410 | At a line beginning, `-->` starts a line comment and leaves the position after the `>`. Otherwise the case produces the longest punctuator, and `--` is MINUSMINUS_AUTO exactly when a line terminator was crossed. |
| Lexers.Lexer.ScanMultiply | src/lexer.js:411-426 | The MULTIPLY case produces the longest punctuator and moves past it. |
| Lexers.Lexer.ScanAnd | src/lexer.js:427-450 | The AND case produces the longest punctuator and moves past it. |
| Lexers.Lexer.ScanOr | src/lexer.js:451-474 | The OR case produces the longest punctuator and moves past it. |
| Lexers.Lexer.ScanXor | src/lexer.js:475-490 | The XOR case produces the longest punctuator and moves past it. |
| Lexers.Lexer.ScanModulo | src/lexer.js:491-506 | The MODULO case produces the longest punctuator and moves past it. |
| Lexers.Lexer.ScanSingle | src/lexer.js:507-536 | A one-char punctuator case produces its punctuator, which no longer one extends, and moves one char. |
| Lexers.Lexer.BreakWidth | src/lexer.js:142-154 | nextLine consumes one or two units; two only for a line terminator followed by another inside the text. |
| Lexers.Lexer.CommentScan | src/lexer.js:1002-1027 | A block comment's scan stops between its start and `end`. |
| Lexers.Lexer.CommentScanCloses | src/lexer.js:1002-1027 | The scan closes just after the first `*` `/` from the start. When there is none it stops at `end` and reports the comment unclosed. |
| Lexers.Lexer.CommentScanLines | src/lexer.js:1002-1027 | The lines the scan counts are exactly the line breaks it passes. |
| Lexers.Lexer.SkipStars | src/lexer.js:1009-1018 | The inner loop skips stars, and reports the comment closed exactly when a `/` follows them. |
| Lexers.Lexer.ParseMultilineComment | src/lexer.js:1002-1027 | parseMultilineComment ends where CommentScan says, closed or not, and adds exactly its line breaks to lineNumber. It sets hasLineTerminator when it passed one. |
| Lexers.Lexer.MatchesAtIsText | src/lexer.js:1142-1150 | A word matches at p exactly when it lies before `end` and the text there is the word. |
| Lexers.Lexer.CompareString | src/lexer.js:1142-1150 | compareString(str) is true exactly when str is spelled from the position on. |
| Lexers.Lexer.KeywordFrom | src/lexer.js:868-882 | The first non-empty table entry, from index i on, whose spelling matches at p; every earlier entry does not match. |
| Lexers.Lexer.ParseKeyword | src/lexer.js:862-885 | With fewer than MAX_KEYWORD_LENGTH chars left, parseKeyword throws "Unable to parse keyword.". Otherwise it moves past the first matching entry, gives its kind and spelling, or IDENTIFIER without moving when none matches. |
| Lexers.Lexer.PartIsIdentifierPart | src/lexer.js:1229-1231 | The identifier-part test on the chars agrees with isIdentifierPart of the code at each position. |
| Lexers.Lexer.PartsEnd | src/lexer.js:800-801 | The identifier parts from p end at the first non-part, and every char before it is a part. |
| Lexers.Lexer.StrictKind | src/lexer.js:794 | Outside strict mode RESERVED_STRICT becomes IDENTIFIER, and every other kind stays. |
| Lexers.Lexer.KeywordEnd | src/lexer.js:785-798 | parseIdentifier's own scan starts at or after the position. |
| Lexers.Lexer.SkipIdentifierParts | src/lexer.js:800-801 | The loop stops exactly where the identifier parts end. |
| Lexers.Lexer.ParseIdentifierOrEscape | src/lexer.js:824-860 | The parts are skipped. At a backslash the result is ERROR unless a `u` follows, and "NOT IMPLEMENTED" is thrown when one does; elsewhere "NOT IMPLEMENTED" is thrown. It never returns IDENTIFIER. |
| Lexers.Lexer.ScanBackslash | src/lexer.js:839-856 | The backslash branch pushes the run when the code at the start differs from the code at the backslash, then gives ERROR or throws as above. |
| Lexers.Lexer.ParseIdentifier | src/lexer.js:782-822 | With at least MAX_KEYWORD_LENGTH chars left, a keyword found whose kind is not IDENTIFIER is the token, with RESERVED_STRICT an IDENTIFIER outside strict mode. Otherwise the scan goes on as ScanIdentifier says. |
| Lexers.Lexer.BufferString | src/lexer.js:1180-1182 | The whole-buffer string toString gives has at most one unit per buffer unit, and is non-empty for a non-empty buffer. |
| Lexers.Lexer.ScanIdentifier | src/lexer.js:798-821 | The scan moves past the identifier parts; at a backslash parseIdentifierOrEscape takes over. The value is the whole buffer's text, and near the end of the text the kind is what the table gives that text. |
| Lexers.Lexer.IdentifierKind | src/lexer.js:813-818 | A word the table lacks is IDENTIFIER; otherwise it is its kind, with RESERVED_STRICT an IDENTIFIER outside strict mode. |
| Lexers.Lexer.OctalDigitsAt | src/lexer.js:958-965 | The octal escape reads at most n digits, all octal, stopping early only at a non-octal char. |
| Lexers.Lexer.EscapeAt | src/lexer.js:895-981 | An escape that succeeds moves past at least one char. |
| Lexers.Lexer.StringFrom | src/lexer.js:893-991 | A string's scan never ends before where it starts. |
| Lexers.Lexer.AppendOctalEscape | src/lexer.js:954-968 | The octal branch reads up to three octal digits and appends the one unit of their base-8 value. |
| Lexers.Lexer.ScanHexEscape | src/lexer.js:911-923 | The `\x` branch does what EscapeAt says for `x`: two hex digits (null passing) append the unit parseInt gives, and anything else fails. |
| Lexers.Lexer.ScanUnicodeEscape | src/lexer.js:924-939 | The `\u` branch appends the char of four hex digits, or `u` alone before the quote, and otherwise fails. |
| Lexers.Lexer.ScanStrictEscape | src/lexer.js:940-953 | In strict mode a digit escape is allowed only as a `0` followed by no digit. It appends NUL, and anything else fails. |
| Lexers.Lexer.ScanEscape | src/lexer.js:895-981 | Each escape branch, in the order parseString tries them, appends the units EscapeAt gives or records the failure EscapeAt names. |
| Lexers.Lexer.StringClosesAtQuote | src/lexer.js:893-999 | A string closes only at a quote char before `end`, and what it pushes begins with the units pending at the start. |
| Lexers.Lexer.PlainStringCopied | src/lexer.js:893-994 | Chars up to the quote that include no backslash and no line terminator are copied unchanged in one run. |
| Lexers.Lexer.HexEscapeAtEndRunsAway | src/lexer.js:911-922 | A string ending with a backslash, `x` and one hex digit runs away: null passes isHexDigit, and seek(2) steps past `end`. |
| Lexers.Lexer.RestAfterRaw | src/lexer.js:984-990 | A raw char joins the pending run. |
| Lexers.Lexer.RestAfterEscape | src/lexer.js:895-981 | A backslash flushes the pending run, and the escape's units follow it. |
| Lexers.Lexer.RestAfterFailedEscape | src/lexer.js:895-981 | A failed escape ends the scan with the pending run flushed and the failure's message. |
| Lexers.Lexer.ScanStringEscape | src/lexer.js:895-981 | The backslash branch flushes the run since startOffset, steps over the backslash and reads the escape. The scan then goes on or ends as StringFrom says. |
| Lexers.Lexer.StringLoop | src/lexer.js:893-991 | The loop returns true exactly when StringFrom closes, never returns when it runs away, and otherwise fails with its message. chBuffer and the pending run together are what StringFrom pushes. |
| Lexers.Lexer.ParseString | src/lexer.js:887-1000 | parseString ends as StringFrom says from the char after the opening quote, with the quote pending. Closed, the value is everything pushed and chBuffer is emptied; failed, the message is recorded and the token is left alone. |
| Lexers.Lexer.LeadsExclusive | src/lexer.js:182-679 | A token begins as at most one of a punctuator, a numeric literal and a string literal. |
| Lexers.Lexer.QuoteLeadOnly | src/lexer.js:550-561 | A token at a quote is neither a punctuator nor a numeric literal. |
| Lexers.Lexer.DigitLeadOnly | src/lexer.js:604-646 | A token at a digit is a numeric literal only. |
| Lexers.Lexer.LeadIsChar | src/lexer.js:182 | A code the table has an entry for is ch itself, and any entry other than INVALID lies before `end`. |
| Lexers.Lexer.ScanOperator | src/lexer.js:184-506 | The operator cases produce the longest punctuator at the position, or begin a line comment. `++` and `--` are the `_AUTO` kinds exactly after a line terminator. |
| Lexers.Lexer.ScanPunctuator | src/lexer.js:507-603 | The one-char cases produce their punctuator, the longest match. The brace cases store their position as the token's value. |
| Lexers.Lexer.OperatorPass | src/lexer.js:184-506 | An operator case as a pass of the loop keeps the pass frame. An emitted operator is the longest match at the token's begin. |
| Lexers.Lexer.PunctuatorPass | src/lexer.js:507-603 | A one-char case always emits its punctuator. |
| Lexers.Lexer.SlashPass | src/lexer.js:321-353 | `//` starts a line comment. For `/*`, the loop goes on exactly when CommentScan closes, and the token is an error with "Multiline comment was not properly closed." otherwise. Anything else is `/=` or `/`. |
| Lexers.Lexer.SlashEmitted | src/lexer.js:339-352 | A `/` that begins no comment, emitted with the position after it, meets every promise of a pass. |
| Lexers.Lexer.ValidateNumber | src/lexer.js:717-731 | An identifier char right after a literal is an error, "At least one digit must occur after a decimal point."; otherwise chBuffer is emptied and the literal is NUMBER unless its scan failed. |
| Lexers.Lexer.FinishNumber | src/lexer.js:682-731 | A literal ends as NUMBER with no identifier char after it and an empty chBuffer, or as a failure with an error recorded. |
| Lexers.Lexer.ZeroPass | src/lexer.js:604-646 | The ZERO case keeps the pass frame. A `0` followed by an octal digit in strict mode fails with "Octal escape sequences are not allowed in strict mode.". |
| Lexers.Lexer.AfterZero | src/lexer.js:606-646 | `0x` with a hex digit after it is a hex literal. `0` and an octal digit is a legacy octal literal. Anything else goes on as a decimal literal with `0` pushed. |
| Lexers.Lexer.ZeroDigits | src/lexer.js:615-646 | Once no hex literal starts, the ZERO case pushes `0` and ends in NUMBER or a failure with an error recorded. NUMBER leaves chBuffer empty, no error, and no identifier char next. A `0` followed by an octal digit in strict mode fails with "Octal escape sequences are not allowed in strict mode.". |
| Lexers.Lexer.DotPass | src/lexer.js:537-549 | A `.` with no digit after it is the DOT token; otherwise the literal goes on from the digit and is NUMBER or an error. |
| Lexers.Lexer.DotNumber | src/lexer.js:547-548 | A `.` followed by a digit is a numeric literal. |
| Lexers.Lexer.DotEmitted | src/lexer.js:541-545 | A `.` with no digit after it, emitted as DOT, meets every promise of a pass. |
| Lexers.Lexer.QuotePass | src/lexer.js:550-561 | The QUOTE case emits STRING with the value and end the string scan gives, or fails, or runs away. |
| Lexers.Lexer.WordPass | src/lexer.js:658-667 | The IDENTIFIER_BEGIN and BACKSLASH cases keep the pass frame and emit what parseIdentifier gives. |
| Lexers.Lexer.NumberPass | src/lexer.js:638-646 | The NUMBER case emits NUMBER with no identifier char after it, or fails. |
| Lexers.Lexer.LineTerminatorPass | src/lexer.js:647-657 | The LINE_TERMINATOR case goes round again after exactly one more line, at a line beginning with a line terminator seen. |
| Lexers.Lexer.ScanPass | src/lexer.js:182-679 | The switch on the char's kind: each case keeps its promises. An INVALID char fails with "Invalid character.", and a code with no entry fails with "Unknown error.". |
| Lexers.Lexer.SkipLineComment | src/lexer.js:738-744 | The loop stops at the first line terminator, or at the end of the text, passing no terminator. |
| Lexers.Lexer.EndLineComment | src/lexer.js:736-750 | The rest of a line comment reaches the end of the text, or consumes its line terminator and counts one line at a line beginning. |
| Lexers.Lexer.LoopTurn | src/lexer.js:172-759 | One turn of the loop: skip whitespace, stop at the end of the text, or make a pass at the token's begin. A line comment after a completion keyword ends the statement as SEMICOLON. |
| Lexers.Lexer.TokenLoop | src/lexer.js:172-760 | The loop turns until a token, an error or the end of the text, and lines only add up. Whatever it emits keeps the promises of the case its first char chose. |
| Lexers.Lexer.NextToken | src/lexer.js:156-775 | A recorded error or a non-empty chBuffer is thrown first. Otherwise the result is EOF at the end of the text, or a token whose line, end and kind are recorded. A token at an operator char is the longest punctuator; at a digit it is NUMBER with no identifier char after it, or ERROR; at a quote it is STRING with the scanned value, or ERROR. |
| Lexers.Lexer.FinishToken | src/lexer.js:762-774 | The end of nextToken records the token's line and end. It returns ERROR as it is; any other token clears the line beginning (unless a comment ended the statement) and becomes the last token. |
| Lexers.Lexer.ErrorScanned | src/lexer.js:765-766 | An error token with its line and end recorded is returned as ERROR, leaving the last token kind alone. |
| Lexers.Lexer.RecordToken | src/lexer.js:768-774 | Any other token becomes the last token and the token's kind. |

## Left out

- Numeric values are not computed as floating point. `parseFloat(chBuffer)` is kept as the literal's text (`NumberText`). `parseInt` in bases 8 and 16 is the exact integer `DigitFold`, with no rounding above 2^53.
- The tokens module is not part of this model. `token.Identifiers` is the constructor's `keywords` parameter and is unconstrained, so the model does not know which spellings are keywords or in what order the table enumerates them.
- `debugMode`, `debugLog`, `lastLineNumber`, `isReparsing` and `clear` are left out: they do not affect the tokens produced. Also left out: the lineNumber setter and `module.exports.create`.
- `parseDigit` is an empty stub in the source and is not modelled.
- `appendChar` is a push onto the `chBuffer` sequence at each call site, not a member of its own.
- The throws that cannot happen are preconditions or dead branches:
  - `nextLine`'s "Expected a line terminator" (every caller stands on a terminator);
  - the LINE_TERMINATOR and IDENTIFIER_BEGIN cases' checks of the char they were chosen by;
  - parseIdentifier's "The token has no identifier value." (a keyword that parseKeyword finds always sets the value).
- A thrown JavaScript error is an `Aborted` outcome carrying its message. A loop that never ends is the outcome `Diverges`: the model's string scan stops at the first step past `end` and reports `Runaway` there, rather than looping.
- `TextPosition.copyTo` and `clone` are not modelled. `TextPosition` is a value here, so copying is assignment and no aliasing between positions is captured. `toString` and `valueOf` of the text classes are formatting only and are left out.
- The optional `me` argument of `TextBuffer.forEach`, and the callback itself, are left out. The method returns the sequence of calls it would make.
- `utils.valueOrDefault` is left out: an absent argument is an `Option`. `SourceCode` takes its text as given, and a null text (the `""` default) is the empty sequence.
- SourceCodes.SourceCode.constructor and TextBuffers.TextBuffer.constructor require a non-empty text when a non-zero offset is given. With an empty text, `% 0` gives NaN and the window is NaN, which the model does not represent.
- The lexer constructor's null check on `sourceCode` is left out: the model's parameter is never null.
- Lexers.Lexer.NextToken does not characterise the text skipped between the old position and `tok.begin` (whitespace, line terminators and comments). It states the token's value only for string literals and for braces through ScanPunctuator. Number values are stated on Lexers.Lexer.ScanNumber and identifier values on Lexers.Lexer.ScanIdentifier, not carried up to NextToken.
- Lexers.Lexer.NextToken requires Synced(): a nextToken call right after isNextTokenColon, which dispatches on the stale ch and chCode at the moved position, is not modelled. Every other caller reaches nextToken with ch and chCode read at the position.
- Lexers.Lexer.IsNextTokenColon does not re-read `ch` and `chCode`, as the source does not. Its contract states the moved position, not what a later `next` sees.
- Lexers.Lexer.ParseMultilineComment requires a position at or before `end`. From beyond it the source never returns; nextToken only calls it from before `end`.
