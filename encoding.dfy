/**
 * The encoding layer of the text buffer (src/text.js): how one JavaScript
 * char code is packed into UTF-8 bytes (the 1-6 byte forms of section 2 of
 * RFC 2279) or UTF-16 units (the surrogate scheme of section 2.1 of RFC 2781),
 * and how a code is read back from a unit sequence.
 *
 * Units are plain integers: a byte of a Uint8Array or a unit of a
 * Uint16Array. JavaScript's 32-bit shifts are written as multiplications
 * and divisions; for the unit ranges a typed array can hold none of them
 * overflows, so the two agree.
 */
module Encoding {

  datatype Encoding = Ascii | Utf8 | Utf16

  /** An optional value: an argument that may be absent, or a lookup that may fail. */
  datatype Option<T> = None | Some(value: T)

  /** A value produced by a decode: an integer, or NaN/undefined (JavaScript
      treats the two alike everywhere the core uses them: every comparison
      is false and String.fromCharCode maps them to unit 0). */
  datatype CharCode = Code(value: int) | NotANumber

  /** The encoding chosen for a constructor argument: a missing or empty
      name means UTF-8, and a name other than "UTF-8" or "UTF-16" falls into
      the ASCII branches of every switch. */
  function EncodingFromName(name: string): (e: Encoding)
    ensures e == Utf16 <==> name == "UTF-16"
    ensures e == Ascii <==> name != "" && name != "UTF-8" && name != "UTF-16"
  {
    if name == "" || name == "UTF-8" then Utf8
    else if name == "UTF-16" then Utf16
    else Ascii
  }

  /** getCharLength: how many units putChar writes for a code. */
  function CharLength(enc: Encoding, code: int): (n: nat)
    ensures 1 <= n <= (if enc == Utf16 then 2 else 6)
  {
    match enc
    case Utf16 => if code < 0x10000 then 1 else 2
    case _ =>
      if code < 0x80 then 1
      else if code < 0x800 then 2
      else if code < 0x10000 then 3
      else if code < 0x200000 then 4
      else if code < 0x4000000 then 5
      else 6
  }

  /** The length classes: for UTF-16 one unit below 0x10000 and two from
      there on; for UTF-8 (and ASCII) one byte below 0x80, then one more
      byte for each further 5 bits up to six. */
  lemma CharLengthClasses(enc: Encoding, code: int)
    ensures var n := CharLength(enc, code);
      if enc == Utf16 then (n == 1 <==> code < 0x10000) && (n == 2 <==> code >= 0x10000)
      else
        (n == 1 <==> code < 0x80) &&
        (n == 2 <==> 0x80 <= code < 0x800) &&
        (n == 3 <==> 0x800 <= code < 0x10000) &&
        (n == 4 <==> 0x10000 <= code < 0x200000) &&
        (n == 5 <==> 0x200000 <= code < 0x4000000) &&
        (n == 6 <==> 0x4000000 <= code)
  {
  }

  /** getCharLength applied to a decoded value: NaN fails every comparison
      and so takes the last branch. */
  function CharLengthOf(enc: Encoding, c: CharCode): (n: nat)
    ensures 1 <= n
    ensures c.Code? ==> n == CharLength(enc, c.value)
    ensures c.NotANumber? ==> n == (if enc == Utf16 then 2 else 6)
  {
    match c
    case Code(v) => CharLength(enc, v)
    case NotANumber => if enc == Utf16 then 2 else 6
  }

  /** String.fromCharCode: ToUint16 of the argument (NaN gives 0). */
  function ToUnit(c: CharCode): (u: int)
    ensures 0 <= u < 0x10000
    ensures c.Code? && 0 <= c.value < 0x10000 ==> u == c.value
  {
    match c
    case Code(v) => v % 0x10000
    case NotANumber => 0
  }

  /** The units putChar stores for a code (an unsigned 32-bit value, the
      range on which `>>>` and `&` act as division and remainder). The
      UTF-16 high unit is stored into a Uint16Array, hence the reduction. */
  function EncodeUnits(enc: Encoding, code: int): (r: seq<int>)
    requires 0 <= code < 0x1_0000_0000
    ensures |r| == CharLength(enc, code)
  {
    match enc
    case Utf16 =>
      if code < 0x10000 then [code]
      else [(0xD7C0 + code / 0x400) % 0x10000, 0xDC00 + code % 0x400]
    case _ =>
      if code < 0x80 then [code]
      else if code < 0x800 then
        [0xC0 + code / 0x40, 0x80 + code % 0x40]
      else if code < 0x10000 then
        [0xE0 + code / 0x1000, 0x80 + (code / 0x40) % 0x40, 0x80 + code % 0x40]
      else if code < 0x200000 then
        [0xF0 + code / 0x40000, 0x80 + (code / 0x1000) % 0x40,
         0x80 + (code / 0x40) % 0x40, 0x80 + code % 0x40]
      else if code < 0x4000000 then
        [0xF8 + code / 0x1000000, 0x80 + (code / 0x40000) % 0x40, 0x80 + (code / 0x1000) % 0x40,
         0x80 + (code / 0x40) % 0x40, 0x80 + code % 0x40]
      else
        [0xFC + code / 0x40000000, 0x80 + (code / 0x1000000) % 0x40, 0x80 + (code / 0x40000) % 0x40,
         0x80 + (code / 0x1000) % 0x40, 0x80 + (code / 0x40) % 0x40, 0x80 + code % 0x40]
  }

  /** Every unit putChar stores fits its typed array. */
  lemma {:induction false} EncodeUnitsInRange(enc: Encoding, code: int)
    requires 0 <= code < 0x1_0000_0000
    ensures forall k :: 0 <= k < |EncodeUnits(enc, code)| ==>
      0 <= EncodeUnits(enc, code)[k] < (if enc == Utf16 then 0x10000 else 0x100)
  {
  }

  /** getCharCode of a UTF-16 buffer: any unit above 0xD7BF that has a
      successor is combined with it; anything else is returned as it is.
      An index outside the buffer reads `undefined`. */
  function Utf16CharCode(s: seq<int>, i: int): (c: CharCode)
    ensures c.Code? <==> 0 <= i < |s|
  {
    if !(0 <= i < |s|) then NotANumber
    else if s[i] > 0xD7BF && i + 1 < |s| then Code((s[i] - 0xD800) * 0x400 + s[i + 1] + 0x2400)
    else Code(s[i])
  }

  /** getCharCode of a UTF-8 (or ASCII) buffer: the lead byte selects a 6-,
      5-, 4-, 3- or 2-byte form when the whole form lies inside the buffer;
      otherwise the byte itself is returned. The 5-byte form reads its
      second byte as `this.source[this.index + 1]`, an undefined property:
      `undefined - 128` is NaN and `NaN << 18` is 0, so that byte adds
      nothing. Every shifted term stays inside 32 bits, so the shifts are
      the multiplications written here. An index outside the buffer reads
      `undefined`. */
  function Utf8CharCode(s: seq<int>, i: int): (c: CharCode)
    ensures c.Code? <==> 0 <= i < |s|
  {
    if !(0 <= i < |s|) then NotANumber
    else
      var part := s[i];
      if 251 < part < 254 && i + 5 < |s| then
        Code((part - 252) * 0x40000000 + (s[i + 1] - 128) * 0x1000000 + (s[i + 2] - 128) * 0x40000
             + (s[i + 3] - 128) * 0x1000 + (s[i + 4] - 128) * 0x40 + s[i + 5] - 128)
      else if 247 < part < 252 && i + 4 < |s| then
        Code((part - 248) * 0x1000000 + (s[i + 2] - 128) * 0x1000 + (s[i + 3] - 128) * 0x40 + s[i + 4] - 128)
      else if 239 < part < 248 && i + 3 < |s| then
        Code((part - 240) * 0x40000 + (s[i + 1] - 128) * 0x1000 + (s[i + 2] - 128) * 0x40 + s[i + 3] - 128)
      else if 223 < part < 240 && i + 2 < |s| then
        Code((part - 224) * 0x1000 + (s[i + 1] - 128) * 0x40 + s[i + 2] - 128)
      else if 191 < part < 224 && i + 1 < |s| then
        Code((part - 192) * 0x40 + s[i + 1] - 128)
      else
        Code(part)
  }

  /** getCharCode, dispatched on the encoding (ASCII shares the UTF-8 path). */
  function CharCodeAt(enc: Encoding, s: seq<int>, i: int): (c: CharCode)
    ensures c.Code? <==> 0 <= i < |s|
    ensures 0 <= i < |s| && 0 <= s[i] < 0x80 ==> c == Code(s[i])
  {
    if enc == Utf16 then Utf16CharCode(s, i) else Utf8CharCode(s, i)
  }

  // ---------------------------------------------------------------------
  // Single-code laws

  /** UTF-16 round trip: the pair putChar writes for a supplementary code
      recombines to that code wherever it sits in a buffer. The bound keeps
      the high unit below 0x10000 (beyond it the Uint16Array store wraps). */
  lemma Utf16PairRoundTrip(prefix: seq<int>, code: int, suffix: seq<int>)
    requires 0x10000 <= code < 0xA10000
    ensures EncodeUnits(Utf16, code) == [0xD7C0 + code / 0x400, 0xDC00 + code % 0x400]
    ensures Utf16CharCode(prefix + EncodeUnits(Utf16, code) + suffix, |prefix|) == Code(code)
  {
    var s := prefix + EncodeUnits(Utf16, code) + suffix;
    assert s[|prefix|] == 0xD7C0 + code / 0x400 && s[|prefix| + 1] == 0xDC00 + code % 0x400;
  }

  /** A unit at or below 0xD7BF, or a unit in the last position, decodes to itself. */
  lemma Utf16SingleUnit(s: seq<int>, i: int)
    requires 0 <= i < |s|
    requires s[i] <= 0xD7BF || i == |s| - 1
    ensures Utf16CharCode(s, i) == Code(s[i])
  {
  }

  /** UTF-8 decoding never fails: a byte up to 191, or a lead byte whose form
      would reach past the end, decodes to the byte itself. */
  lemma Utf8RawByte(s: seq<int>, i: int)
    requires 0 <= i < |s|
    requires s[i] <= 191 || i + (if s[i] < 224 then 1 else if s[i] < 240 then 2 else if s[i] < 248 then 3
                                 else if s[i] < 252 then 4 else 5) >= |s|
    ensures Utf8CharCode(s, i) == Code(s[i])
  {
  }

  lemma DivMod64(c: int)
    requires 0 <= c
    ensures c == (c / 0x40) * 0x40 + c % 0x40
    ensures c / 0x1000 == (c / 0x40) / 0x40
    ensures c / 0x40000 == (c / 0x1000) / 0x40
    ensures c / 0x1000000 == (c / 0x40000) / 0x40
    ensures c / 0x40000000 == (c / 0x1000000) / 0x40
  {
  }

  /** UTF-8 round trip for the 1- to 4-byte forms (codes below 0x200000): the
      bytes putChar writes decode back to the code wherever they sit in the
      buffer. */
  lemma Utf8RoundTrip(prefix: seq<int>, code: int, suffix: seq<int>)
    requires 0 <= code < 0x200000
    ensures Utf8CharCode(prefix + EncodeUnits(Utf8, code) + suffix, |prefix|) == Code(code)
  {
    var e := EncodeUnits(Utf8, code);
    var s := prefix + e + suffix;
    assert forall k :: 0 <= k < |e| ==> s[|prefix| + k] == e[k];
    DivMod64(code);
    DivMod64(code / 0x40);
    DivMod64(code / 0x1000);
  }

  /** The 6-byte form also round-trips for codes below 2^31 (the lead byte is
      then 0xFC or 0xFD, the two the decoder accepts). */
  lemma Utf8SixByteRoundTrip(prefix: seq<int>, code: int, suffix: seq<int>)
    requires 0x4000000 <= code < 0x80000000
    ensures Utf8CharCode(prefix + EncodeUnits(Utf8, code) + suffix, |prefix|) == Code(code)
  {
    var e := EncodeUnits(Utf8, code);
    var s := prefix + e + suffix;
    assert forall k :: 0 <= k < |e| ==> s[|prefix| + k] == e[k];
    DivMod64(code);
    DivMod64(code / 0x40);
    DivMod64(code / 0x1000);
    DivMod64(code / 0x40000);
    DivMod64(code / 0x1000000);
  }

  /** The 5-byte form written by putChar comes back with bits 18 to 23 of the
      code cleared (the byte that carries them is never read), so it
      round-trips exactly when those bits are zero. */
  lemma Utf8FiveByteDropsBits(prefix: seq<int>, code: int, suffix: seq<int>)
    requires 0x200000 <= code < 0x4000000
    ensures Utf8CharCode(prefix + EncodeUnits(Utf8, code) + suffix, |prefix|)
      == Code(code - (code / 0x40000) % 0x40 * 0x40000)
    ensures Utf8CharCode(prefix + EncodeUnits(Utf8, code) + suffix, |prefix|) == Code(code)
      <==> (code / 0x40000) % 0x40 == 0
  {
    var e := EncodeUnits(Utf8, code);
    var s := prefix + e + suffix;
    assert forall k :: 0 <= k < |e| ==> s[|prefix| + k] == e[k];
    DivMod64(code);
    DivMod64(code / 0x40);
    DivMod64(code / 0x1000);
    DivMod64(code / 0x40000);
  }

  // ---------------------------------------------------------------------
  // Whole strings

  /** Concatenation regrouped, for the loops that build a sequence from
      the front. */
  lemma Associative<T>(a: seq<T>, b: seq<T>, c: seq<T>)
    ensures (a + b) + c == a + (b + c)
  {
  }

  /** A JavaScript string as its char codes (charCodeAt is always a 16-bit unit). */
  predicate IsCharCodes(s: seq<int>)
  {
    forall k :: 0 <= k < |s| ==> 0 <= s[k] < 0x10000
  }

  /** The sum of getCharLength over a string: what the first constructor pass adds up. */
  function EncodedLength(enc: Encoding, s: seq<int>): (n: nat)
    ensures |s| <= n <= (if enc == Utf16 then 2 else 6) * |s|
  {
    if s == [] then 0 else EncodedLength(enc, s[..|s| - 1]) + CharLength(enc, s[|s| - 1])
  }

  /** The units of a string written code after code by putChar. */
  function EncodeAll(enc: Encoding, s: seq<int>): (r: seq<int>)
    requires IsCharCodes(s)
    ensures |s| <= |r|
  {
    if s == [] then [] else EncodeAll(enc, s[..|s| - 1]) + EncodeUnits(enc, s[|s| - 1])
  }

  /** In UTF-16 putChar writes each char code unchanged, so a string's units are its char codes. */
  lemma {:induction false} EncodeAllUtf16(s: seq<int>)
    requires IsCharCodes(s)
    ensures EncodeAll(Utf16, s) == s
  {
    if s != [] {
      EncodeAllUtf16(s[..|s| - 1]);
      assert s[..|s| - 1] + [s[|s| - 1]] == s;
    }
  }

  lemma {:induction false} EncodeAllLength(enc: Encoding, s: seq<int>)
    requires IsCharCodes(s)
    ensures |EncodeAll(enc, s)| == EncodedLength(enc, s)
  {
    if s != [] {
      EncodeAllLength(enc, s[..|s| - 1]);
    }
  }

  /** Every unit of an encoded string fits its typed array. */
  lemma {:induction false} EncodeAllInRange(enc: Encoding, s: seq<int>)
    requires IsCharCodes(s)
    ensures forall k :: 0 <= k < |EncodeAll(enc, s)| ==>
      0 <= EncodeAll(enc, s)[k] < (if enc == Utf16 then 0x10000 else 0x100)
  {
    if s != [] {
      EncodeAllInRange(enc, s[..|s| - 1]);
      EncodeUnitsInRange(enc, s[|s| - 1]);
    }
  }

  /** Encoded offsets grow with the number of chars encoded. */
  lemma {:induction false} EncodedLengthMonotone(enc: Encoding, s: seq<int>, k: nat)
    requires k <= |s|
    ensures EncodedLength(enc, s[..k]) + (|s| - k) <= EncodedLength(enc, s)
  {
    if k < |s| {
      EncodedLengthMonotone(enc, s[..|s| - 1], k);
      assert s[..|s| - 1][..k] == s[..k];
    } else {
      assert s[..k] == s;
    }
  }

  /** EncodeAll read from the front. */
  lemma {:induction false} EncodeAllCons(enc: Encoding, s: seq<int>)
    requires IsCharCodes(s) && s != []
    ensures EncodeAll(enc, s) == EncodeUnits(enc, s[0]) + EncodeAll(enc, s[1..])
  {
    if |s| > 1 {
      var init, rest, last := s[..|s| - 1], s[1..], s[|s| - 1];
      EncodeAllCons(enc, init);
      assert init[1..] == rest[..|rest| - 1] && rest[|rest| - 1] == last;
      var a, b, c := EncodeUnits(enc, s[0]), EncodeAll(enc, init[1..]), EncodeUnits(enc, last);
      assert EncodeAll(enc, s) == (a + b) + c;
      Associative(a, b, c);
      assert EncodeAll(enc, rest) == b + c;
    } else {
      assert s[1..] == [];
    }
  }

  lemma {:induction false} EncodedLengthCons(enc: Encoding, s: seq<int>)
    requires s != []
    ensures EncodedLength(enc, s) == CharLength(enc, s[0]) + EncodedLength(enc, s[1..])
  {
    if |s| > 1 {
      EncodedLengthCons(enc, s[..|s| - 1]);
      assert s[..|s| - 1][1..] == s[1..][..|s[1..]| - 1];
    } else {
      assert s[1..] == [];
    }
  }

  /** What getString(offset, len) builds for UTF-8 and UTF-16 buffers: from
      relative index i, decode at i + offset, append String.fromCharCode of
      the code, and advance by getCharLength of the code. */
  function DecodeFrom(enc: Encoding, s: seq<int>, offset: int, i: int, len: int): (r: seq<int>)
    ensures |r| <= (if i < len then len - i else 0)
    ensures i < len ==> |r| > 0
    ensures forall k :: 0 <= k < |r| ==> 0 <= r[k] < 0x10000
    decreases len - i
  {
    if len <= i then []
    else
      var c := CharCodeAt(enc, s, offset + i);
      [ToUnit(c)] + DecodeFrom(enc, s, offset, i + CharLengthOf(enc, c), len)
  }

  /** One call of the forEach callback: (code, charIndex, bufferIndex). */
  datatype Visit = Visit(code: CharCode, charIndex: int, bufferIndex: int)

  /** The callbacks forEach makes from buffer index `index` on, for UTF-8 and
      UTF-16 buffers: char index i counts the calls. */
  function VisitsFrom(enc: Encoding, s: seq<int>, index: int, i: int): (v: seq<Visit>)
    requires 0 <= index
    ensures |v| <= (if index < |s| then |s| - index else 0)
    ensures forall k :: 0 <= k < |v| ==>
      v[k].charIndex == i + k && index <= v[k].bufferIndex < |s| && v[k].code.Code?
    decreases |s| - index
  {
    if |s| <= index then []
    else
      var c := CharCodeAt(enc, s, index);
      [Visit(c, i, index)] + VisitsFrom(enc, s, index + CharLengthOf(enc, c), i + 1)
  }

  /** The callbacks forEach makes for an ASCII buffer: the raw unit, and the
      buffer index as both indices. */
  function AsciiVisitsFrom(s: seq<int>, index: nat): (v: seq<Visit>)
    ensures |v| == (if index < |s| then |s| - index else 0)
    decreases |s| - index
  {
    if |s| <= index then [] else [Visit(Code(s[index]), index, index)] + AsciiVisitsFrom(s, index + 1)
  }

  /** For ASCII the char index is the buffer index, and each unit is visited once. */
  lemma {:induction false} AsciiVisitIndices(s: seq<int>, index: nat)
    requires index <= |s|
    ensures |AsciiVisitsFrom(s, index)| == |s| - index
    ensures forall k :: 0 <= k < |s| - index ==>
      AsciiVisitsFrom(s, index)[k] == Visit(Code(s[index + k]), index + k, index + k)
    decreases |s| - index
  {
    if index < |s| {
      AsciiVisitIndices(s, index + 1);
      var v, w := AsciiVisitsFrom(s, index), AsciiVisitsFrom(s, index + 1);
      assert v == [Visit(Code(s[index]), index, index)] + w;
      forall k | 0 <= k < |s| - index
        ensures v[k] == Visit(Code(s[index + k]), index + k, index + k)
      {
        if k > 0 {
          assert v[k] == w[k - 1];
        }
      }
    }
  }

  /** A buffer that holds p and then the encoding of t holds p, the
      encoding of t[0], and the encoding of the rest; the code read at |p|
      is t[0]. The result is p with the encoding of t[0] appended. */
  lemma Utf8Step(p: seq<int>, t: seq<int>) returns (p': seq<int>)
    requires IsCharCodes(t) && t != []
    ensures p + EncodeAll(Utf8, t) == p' + EncodeAll(Utf8, t[1..])
    ensures |p'| == |p| + CharLength(Utf8, t[0])
    ensures Utf8CharCode(p + EncodeAll(Utf8, t), |p|) == Code(t[0])
  {
    EncodeAllCons(Utf8, t);
    p' := p + EncodeUnits(Utf8, t[0]);
    assert p + EncodeAll(Utf8, t) == p' + EncodeAll(Utf8, t[1..]);
    Utf8RoundTrip(p, t[0], EncodeAll(Utf8, t[1..]));
  }

  /** The first step of forEach over a buffer whose next units encode t[0]. */
  lemma Utf8VisitStep(b: seq<int>, p: seq<int>, t: seq<int>, j: int) returns (p': seq<int>)
    requires IsCharCodes(t) && t != []
    requires b == p + EncodeAll(Utf8, t)
    ensures b == p' + EncodeAll(Utf8, t[1..]) && |p'| == |p| + CharLength(Utf8, t[0])
    ensures VisitsFrom(Utf8, b, |p|, j) == [Visit(Code(t[0]), j, |p|)] + VisitsFrom(Utf8, b, |p'|, j + 1)
  {
    p' := Utf8Step(p, t);
  }

  /** forEach over a UTF-8 buffer that holds the encoding of a string visits
      exactly the string's codes, with char index k and buffer index equal to
      the encoded length of the first k chars. */
  lemma {:induction false} Utf8VisitsRoundTrip(b: seq<int>, p: seq<int>, t: seq<int>, j: int)
    requires IsCharCodes(t)
    requires b == p + EncodeAll(Utf8, t)
    ensures |VisitsFrom(Utf8, b, |p|, j)| == |t|
    ensures forall k :: 0 <= k < |t| ==>
      VisitsFrom(Utf8, b, |p|, j)[k] == Visit(Code(t[k]), j + k, |p| + EncodedLength(Utf8, t[..k]))
    decreases |t|
  {
    if t == [] {
      assert b == p;
    } else {
      var p' := Utf8VisitStep(b, p, t, j);
      Utf8VisitsRoundTrip(b, p', t[1..], j + 1);
      VisitsCons(VisitsFrom(Utf8, b, |p|, j), VisitsFrom(Utf8, b, |p'|, j + 1), |p|, t, j);
    }
  }

  /** The visits for t, given the first one and the visits for t[1..]. */
  lemma VisitsCons(v: seq<Visit>, w: seq<Visit>, q: int, t: seq<int>, j: int)
    requires t != []
    requires v == [Visit(Code(t[0]), j, q)] + w
    requires |w| == |t| - 1
    requires forall k :: 0 <= k < |t| - 1 ==>
      w[k] == Visit(Code(t[1..][k]), j + 1 + k, q + CharLength(Utf8, t[0]) + EncodedLength(Utf8, t[1..][..k]))
    ensures |v| == |t|
    ensures forall k :: 0 <= k < |t| ==> v[k] == Visit(Code(t[k]), j + k, q + EncodedLength(Utf8, t[..k]))
  {
    forall k | 0 <= k < |t|
      ensures v[k] == Visit(Code(t[k]), j + k, q + EncodedLength(Utf8, t[..k]))
    {
      if k > 0 {
        assert v[k] == w[k - 1];
        assert t[..k][1..] == t[1..][..k - 1];
        EncodedLengthCons(Utf8, t[..k]);
      } else {
        assert t[..k] == [];
      }
    }
  }

  /** The first step of getString over a buffer whose next units encode t[0]. */
  lemma Utf8DecodeStep(b: seq<int>, p: seq<int>, t: seq<int>) returns (p': seq<int>)
    requires IsCharCodes(t) && t != []
    requires b == p + EncodeAll(Utf8, t)
    ensures b == p' + EncodeAll(Utf8, t[1..]) && |p'| == |p| + CharLength(Utf8, t[0])
    ensures DecodeFrom(Utf8, b, 0, |p|, |b|) == [t[0]] + DecodeFrom(Utf8, b, 0, |p'|, |b|)
  {
    p' := Utf8Step(p, t);
  }

  /** getString over a UTF-8 buffer that holds the encoding of a string gives
      the string back. */
  lemma {:induction false} Utf8DecodeRoundTrip(p: seq<int>, t: seq<int>)
    requires IsCharCodes(t)
    ensures DecodeFrom(Utf8, p + EncodeAll(Utf8, t), 0, |p|, |p + EncodeAll(Utf8, t)|) == t
    decreases |t|
  {
    var b := p + EncodeAll(Utf8, t);
    if t == [] {
      assert b == p;
    } else {
      var p' := Utf8DecodeStep(b, p, t);
      Utf8DecodeRoundTrip(p', t[1..]);
      assert t == [t[0]] + t[1..];
    }
  }

  /** getString over a UTF-16 buffer gives its units back when none of them
      is above 0xD7BF. */
  lemma {:induction false} Utf16DecodeRoundTrip(s: seq<int>, i: nat)
    requires i <= |s|
    requires forall k :: 0 <= k < |s| ==> 0 <= s[k] <= 0xD7BF
    ensures DecodeFrom(Utf16, s, 0, i, |s|) == s[i..]
    decreases |s| - i
  {
    if i < |s| {
      Utf16DecodeRoundTrip(s, i + 1);
    }
  }

  /** ... but a surrogate pair comes back as one truncated unit. */
  lemma Utf16DecodeSurrogatePair()
    ensures DecodeFrom(Utf16, [0xD83D, 0xDE00], 0, 0, 2) == [0xF600]
  {
    assert Utf16CharCode([0xD83D, 0xDE00], 0) == Code(0x1F600);
  }

  // ---------------------------------------------------------------------
  // Typed-array views

  /** A relative index of TypedArray.prototype.subarray: negative counts from the end, then clamped. */
  function RelativeIndex(x: int, len: nat): (r: nat)
    ensures r <= len
    ensures 0 <= x <= len ==> r == x
    ensures x < 0 && 0 <= len + x ==> r == len + x
  {
    if x < 0 then (if len + x < 0 then 0 else len + x)
    else if x < len then x else len
  }

  /** TypedArray.prototype.subarray(begin, end), as a value. */
  function Subarray(s: seq<int>, begin: int, end: int): (r: seq<int>)
    ensures 0 <= begin <= end <= |s| ==> r == s[begin..end]
    ensures |r| <= |s|
  {
    var b := RelativeIndex(begin, |s|);
    var e := RelativeIndex(end, |s|);
    if b < e then s[b..e] else []
  }
}
