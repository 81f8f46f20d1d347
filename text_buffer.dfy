/**
 * TextBuffer (src/text.js): a string stored as UTF-8, UTF-16 or ASCII units,
 * with a window [startIndex, endIndex) of those units as its `source`. The
 * constructor fills the unit array in place (putChar for UTF-8); after
 * construction the buffer is frozen, so the queries only read.
 */
module TextBuffers {
  import opened Encoding

  /** JavaScript's `%` truncates toward zero. */
  function JsRem(a: int, b: int): (r: int)
    requires b > 0
    ensures a >= 0 ==> r == a % b
    ensures a < 0 ==> r == -((-a) % b)
  {
    if a >= 0 then a % b else -((-a) % b)
  }

  /** The char index the window starts at: `offset ? max((strlen + offset) % strlen, 0) : 0`
      (an absent offset is 0). */
  function WindowStart(strlen: nat, offset: int): (r: int)
    requires offset != 0 ==> strlen > 0
    ensures 0 <= r <= strlen && (strlen > 0 ==> r < strlen)
    ensures 0 <= offset < strlen ==> r == offset
    ensures offset < 0 && 0 <= strlen + offset ==> r == strlen + offset
  {
    if offset == 0 then 0
    else var m := JsRem(strlen + offset, strlen); if m < 0 then 0 else m
  }

  /** The last char index of the window: `min(max(length, 0) + start, strlen) - 1`,
      or `strlen - 1` when no integer length is given. */
  function WindowLast(strlen: nat, start: int, length: Option<int>): (r: int)
    ensures r < strlen
    ensures length.Some? && 0 <= start && start + length.value <= strlen && 0 <= length.value ==>
      r == start + length.value - 1
  {
    match length
    case None => strlen - 1
    case Some(n) =>
      var m := (if n < 0 then 0 else n) + start;
      (if m < strlen then m else strlen) - 1
  }

  /** The units a UTF-16 or ASCII buffer stores for a string: the char code
      itself, or its low byte. */
  function Narrowed(enc: Encoding, s: seq<int>): (r: seq<int>)
    ensures |r| == |s|
    ensures forall k :: 0 <= k < |s| ==> r[k] == if enc == Utf16 then s[k] else s[k] % 0x100
  {
    seq(|s|, k requires 0 <= k < |s| => if enc == Utf16 then s[k] else s[k] % 0x100)
  }

  /** The whole unit array the constructor fills for a string. */
  function StoredUnits(enc: Encoding, s: seq<int>): (r: seq<int>)
    requires IsCharCodes(s)
    ensures enc == Utf16 ==> r == s
    ensures forall k :: 0 <= k < |r| ==> 0 <= r[k] < (if enc == Utf16 then 0x10000 else 0x100)
  {
    EncodeAllInRange(enc, s);
    if enc == Utf8 then EncodeAll(Utf8, s) else Narrowed(enc, s)
  }

  /** The unit window [startIndex, endIndex) the constructor computes. For
      UTF-8 the char indices are turned into unit offsets: the start is the
      width of the chars before it, and a last char index maps to the offset
      just after that char. */
  function UnitWindow(enc: Encoding, s: seq<int>, offset: int, length: Option<int>): (w: (int, int))
    requires offset != 0 ==> |s| > 0
    ensures 0 <= w.0
    ensures enc != Utf8 ==> w.1 < |s|
    ensures enc == Utf8 ==> WindowStart(|s|, offset) <= w.0 <= EncodedLength(Utf8, s) && w.1 <= EncodedLength(Utf8, s)
  {
    var chStart := WindowStart(|s|, offset);
    var chLast := WindowLast(|s|, chStart, length);
    EncodedLengthMonotone(Utf8, s, chStart);
    EncodedLengthMonotone(Utf8, s, if 0 <= chLast then chLast + 1 else 0);
    if enc == Utf8 then
      (EncodedLength(Utf8, s[..chStart]),
       if 0 <= chLast then EncodedLength(Utf8, s[..chLast + 1]) else chLast)
    else (chStart, chLast)
  }

  class TextBuffer {
    const str: seq<int>
    const encoding: Encoding
    var startIndex: int
    var endIndex: int
    var bufferLength: int
    var buffer: array<int>
    var source: seq<int>

    /** The units the source of an encoding may hold. */
    static predicate UnitsFit(enc: Encoding, s: seq<int>)
    {
      forall k :: 0 <= k < |s| ==> 0 <= s[k] < (if enc == Utf16 then 0x10000 else 0x100)
    }

    /** The constructor. For UTF-8 the first pass sums getCharLength over the
        string and turns the char window into unit offsets; the second pass
        writes every code with putChar. UTF-16 copies the char codes and ASCII
        keeps their low byte. The source is the subarray
        [startIndex, endIndex) unless the window starts at 0 and endIndex is
        at least the last unit index, in which case it is the whole buffer. */
    constructor (s: seq<int>, enc: Encoding, offset: int, length: Option<int>)
      requires IsCharCodes(s)
      requires offset != 0 ==> |s| > 0
      ensures fresh(buffer) && UnitsFit(enc, buffer[..]) && UnitsFit(enc, source)
      ensures str == s && encoding == enc
      ensures buffer[..] == StoredUnits(enc, s) && bufferLength == |StoredUnits(enc, s)|
      ensures (startIndex, endIndex) == UnitWindow(enc, s, offset, length)
      ensures source == WindowOf(buffer[..], startIndex, endIndex)
    {
      str := s;
      encoding := enc;
      var total, unitStart, unitEnd := Layout(s, enc, offset, length);
      bufferLength, startIndex, endIndex := total, unitStart, unitEnd;
      buffer := new int[total];
      source := [];
      new;
      Fill(s);
      var units := buffer[..];
      source := WindowOf(units, startIndex, endIndex);
      WindowFits(enc, s, units, startIndex, endIndex);
    }

    /** The source the constructor keeps: the subarray of the window, or the
        whole unit array when the window starts at 0 and reaches its last
        unit. */
    static function WindowOf(units: seq<int>, b: int, e: int): (r: seq<int>)
      ensures |r| <= |units|
    {
      if b > 0 || e < |units| - 1 then Subarray(units, b, e) else units
    }

    /** Every unit of the stored array and of its window fits the typed array. */
    static lemma WindowFits(enc: Encoding, s: seq<int>, units: seq<int>, b: int, e: int)
      requires IsCharCodes(s) && units == StoredUnits(enc, s)
      ensures UnitsFit(enc, units) && UnitsFit(enc, WindowOf(units, b, e))
    {
      SubarrayFits(enc, units, b, e);
    }

    /** The sizes the constructor computes before it allocates the buffer. */
    static method Layout(s: seq<int>, enc: Encoding, offset: int, length: Option<int>)
      returns (total: int, unitStart: int, unitEnd: int)
      requires IsCharCodes(s)
      requires offset != 0 ==> |s| > 0
      ensures total == |StoredUnits(enc, s)|
      ensures (unitStart, unitEnd) == UnitWindow(enc, s, offset, length)
    {
      var chStart := WindowStart(|s|, offset);
      var chLast := WindowLast(|s|, chStart, length);
      total, unitStart, unitEnd := |s|, chStart, chLast;
      if enc == Utf8 {
        total, unitStart, unitEnd := Utf8Window(s, chStart, chLast);
        EncodeAllLength(Utf8, s);
      }
    }

    /** The first UTF-8 pass: the total width of the string and the unit
        offsets of the char window (the char index `chEnd` maps to the unit
        offset just after it). */
    static method Utf8Window(s: seq<int>, chStart: int, chEnd: int)
      returns (total: int, unitStart: int, unitEnd: int)
      requires IsCharCodes(s)
      requires 0 <= chStart && (chStart < |s| || chStart == 0) && chEnd < |s|
      ensures total == EncodedLength(Utf8, s)
      ensures unitStart == EncodedLength(Utf8, s[..chStart])
      ensures unitEnd == if 0 <= chEnd then EncodedLength(Utf8, s[..chEnd + 1]) else chEnd
    {
      total, unitStart, unitEnd := 0, chStart, chEnd;
      for i := 0 to |s|
        invariant total == EncodedLength(Utf8, s[..i])
        invariant unitStart == if chStart < i then EncodedLength(Utf8, s[..chStart]) else chStart
        invariant unitEnd == if 0 <= chEnd < i then EncodedLength(Utf8, s[..chEnd + 1]) else chEnd
      {
        if i == chStart {
          unitStart := total;
        }
        assert s[..i + 1][..i] == s[..i];
        total := total + CharLength(Utf8, s[i]);
        if i == chEnd {
          unitEnd := total;
        }
      }
      assert s[..|s|] == s;
      if |s| == 0 {
        assert s[..chStart] == [];
      }
    }

    /** The second constructor pass: store the units of every char. */
    method Fill(s: seq<int>)
      requires IsCharCodes(s) && buffer.Length == |StoredUnits(encoding, s)|
      modifies buffer
      ensures buffer[..] == StoredUnits(encoding, s)
    {
      if encoding == Utf8 {
        EncodeAllLength(Utf8, s);
        FillUtf8(s);
      } else {
        NarrowUnits(s);
      }
    }

    /** The second UTF-8 pass: putChar every code of the string in turn. */
    method FillUtf8(s: seq<int>)
      requires IsCharCodes(s) && encoding == Utf8
      requires buffer.Length == EncodedLength(Utf8, s)
      modifies buffer
      ensures buffer[..] == EncodeAll(Utf8, s)
    {
      var chIndex := 0;
      var i := 0;
      while i < buffer.Length
        invariant 0 <= chIndex <= |s|
        invariant 0 <= i <= buffer.Length && i == EncodedLength(Utf8, s[..chIndex])
        invariant buffer[..i] == EncodeAll(Utf8, s[..chIndex])
        invariant chIndex == |s| ==> i == buffer.Length
        decreases buffer.Length - i
      {
        EncodedLengthMonotone(Utf8, s, chIndex + 1);
        assert s[..chIndex + 1][..chIndex] == s[..chIndex];
        EncodeUnitsInRange(Utf8, s[chIndex]);
        i := PutChar(s[chIndex], i);
        chIndex := chIndex + 1;
        assert chIndex == |s| ==> s[..chIndex] == s;
      }
      EncodedLengthMonotone(Utf8, s, chIndex);
      assert s[..chIndex] == s;
      assert buffer[..] == buffer[..i];
    }

    /** UTF-16 keeps each char code as one unit; ASCII keeps its low byte. */
    method NarrowUnits(s: seq<int>)
      requires IsCharCodes(s) && encoding != Utf8 && buffer.Length == |s|
      modifies buffer
      ensures buffer[..] == Narrowed(encoding, s)
    {
      for i := 0 to |s|
        invariant buffer[..i] == Narrowed(encoding, s)[..i]
      {
        buffer[i] := if encoding == Utf16 then s[i] else s[i] % 0x100;
      }
    }

    static lemma SubarrayFits(enc: Encoding, s: seq<int>, b: int, e: int)
      requires UnitsFit(enc, s)
      ensures UnitsFit(enc, Subarray(s, b, e))
    {
      var r := Subarray(s, b, e);
      if r != [] {
        var lo := RelativeIndex(b, |s|);
        forall k | 0 <= k < |r| ensures 0 <= r[k] < (if enc == Utf16 then 0x10000 else 0x100) {
          assert r[k] == s[lo + k];
        }
      }
    }

    /** putChar: write the units of one code at `index` and return the index
        after them, which is `index + getCharLength(code)`. */
    method PutChar(code: int, index: int) returns (nextIndex: int)
      requires 0 <= code < 0x1_0000_0000
      requires 0 <= index && index + CharLength(encoding, code) <= buffer.Length
      modifies buffer
      ensures nextIndex == index + CharLength(encoding, code)
      ensures buffer[..] == old(buffer[..index]) + EncodeUnits(encoding, code) + old(buffer[nextIndex..])
    {
      if encoding == Utf16 {
        nextIndex := PutUtf16Char(code, index);
      } else {
        nextIndex := PutUtf8Char(code, index);
      }
    }

    /** The UTF-16 case of putChar: one unit, or a surrogate pair. */
    method PutUtf16Char(code: int, index: int) returns (nextIndex: int)
      requires 0 <= code < 0x1_0000_0000 && encoding == Utf16
      requires 0 <= index && index + CharLength(encoding, code) <= buffer.Length
      modifies buffer
      ensures nextIndex == index + CharLength(encoding, code)
      ensures buffer[..] == old(buffer[..index]) + EncodeUnits(encoding, code) + old(buffer[nextIndex..])
    {
      if code < 0x10000 {
        nextIndex := Store1(index, code);
      } else {
        // a Uint16Array store keeps the low 16 bits of the unit
        nextIndex := Store2(index, (0xD7C0 + code / 0x400) % 0x10000, 0xDC00 + code % 0x400);
      }
    }

    /** The ASCII and UTF-8 case of putChar: one to six bytes. */
    method PutUtf8Char(code: int, index: int) returns (nextIndex: int)
      requires 0 <= code < 0x1_0000_0000 && encoding != Utf16
      requires 0 <= index && index + CharLength(encoding, code) <= buffer.Length
      modifies buffer
      ensures nextIndex == index + CharLength(encoding, code)
      ensures buffer[..] == old(buffer[..index]) + EncodeUnits(encoding, code) + old(buffer[nextIndex..])
    {
      if code < 0x80 {
        nextIndex := Store1(index, code);
      } else if code < 0x800 {
        nextIndex := Store2(index, 0xC0 + code / 0x40, 0x80 + code % 0x40);
      } else if code < 0x10000 {
        nextIndex := Store3(index, 0xE0 + code / 0x1000, 0x80 + (code / 0x40) % 0x40, 0x80 + code % 0x40);
      } else if code < 0x200000 {
        nextIndex := Store4(index, 0xF0 + code / 0x40000, 0x80 + (code / 0x1000) % 0x40,
                            0x80 + (code / 0x40) % 0x40, 0x80 + code % 0x40);
      } else if code < 0x4000000 {
        nextIndex := Store5(index, 0xF8 + code / 0x1000000, 0x80 + (code / 0x40000) % 0x40,
                            0x80 + (code / 0x1000) % 0x40, 0x80 + (code / 0x40) % 0x40, 0x80 + code % 0x40);
      } else {
        nextIndex := Store6(index, 0xFC + code / 0x40000000, 0x80 + (code / 0x1000000) % 0x40,
                            0x80 + (code / 0x40000) % 0x40, 0x80 + (code / 0x1000) % 0x40,
                            0x80 + (code / 0x40) % 0x40, 0x80 + code % 0x40);
      }
    }

    /** `buffer[nextIndex++] = unit` n times, for the n units of one branch
        of putChar. */
    method Store1(index: int, u1: int) returns (nextIndex: int)
      requires 0 <= index && index + 1 <= buffer.Length
      modifies buffer
      ensures nextIndex == index + 1
      ensures buffer[..] == old(buffer[..index]) + [u1] + old(buffer[index + 1..])
    {
      buffer[index] := u1;
      nextIndex := index + 1;
      assert buffer[..] == old(buffer[..index]) + [u1] + old(buffer[index + 1..]) by {
        forall k | 0 <= k < buffer.Length
          ensures buffer[k] == (old(buffer[..index]) + [u1] + old(buffer[index + 1..]))[k]
        {
        }
      }
    }

    method Store2(index: int, u1: int, u2: int) returns (nextIndex: int)
      requires 0 <= index && index + 2 <= buffer.Length
      modifies buffer
      ensures nextIndex == index + 2
      ensures buffer[..] == old(buffer[..index]) + [u1, u2] + old(buffer[index + 2..])
    {
      buffer[index] := u1;
      buffer[index + 1] := u2;
      nextIndex := index + 2;
      assert buffer[..] == old(buffer[..index]) + [u1, u2] + old(buffer[index + 2..]) by {
        forall k | 0 <= k < buffer.Length
          ensures buffer[k] == (old(buffer[..index]) + [u1, u2] + old(buffer[index + 2..]))[k]
        {
        }
      }
    }

    method Store3(index: int, u1: int, u2: int, u3: int) returns (nextIndex: int)
      requires 0 <= index && index + 3 <= buffer.Length
      modifies buffer
      ensures nextIndex == index + 3
      ensures buffer[..] == old(buffer[..index]) + [u1, u2, u3] + old(buffer[index + 3..])
    {
      buffer[index] := u1;
      buffer[index + 1] := u2;
      buffer[index + 2] := u3;
      nextIndex := index + 3;
      assert buffer[..] == old(buffer[..index]) + [u1, u2, u3] + old(buffer[index + 3..]) by {
        forall k | 0 <= k < buffer.Length
          ensures buffer[k] == (old(buffer[..index]) + [u1, u2, u3] + old(buffer[index + 3..]))[k]
        {
        }
      }
    }

    method Store4(index: int, u1: int, u2: int, u3: int, u4: int) returns (nextIndex: int)
      requires 0 <= index && index + 4 <= buffer.Length
      modifies buffer
      ensures nextIndex == index + 4
      ensures buffer[..] == old(buffer[..index]) + [u1, u2, u3, u4] + old(buffer[index + 4..])
    {
      buffer[index] := u1;
      buffer[index + 1] := u2;
      buffer[index + 2] := u3;
      buffer[index + 3] := u4;
      nextIndex := index + 4;
      assert buffer[..] == old(buffer[..index]) + [u1, u2, u3, u4] + old(buffer[index + 4..]) by {
        forall k | 0 <= k < buffer.Length
          ensures buffer[k] == (old(buffer[..index]) + [u1, u2, u3, u4] + old(buffer[index + 4..]))[k]
        {
        }
      }
    }

    method Store5(index: int, u1: int, u2: int, u3: int, u4: int, u5: int) returns (nextIndex: int)
      requires 0 <= index && index + 5 <= buffer.Length
      modifies buffer
      ensures nextIndex == index + 5
      ensures buffer[..] == old(buffer[..index]) + [u1, u2, u3, u4, u5] + old(buffer[index + 5..])
    {
      buffer[index] := u1;
      buffer[index + 1] := u2;
      buffer[index + 2] := u3;
      buffer[index + 3] := u4;
      buffer[index + 4] := u5;
      nextIndex := index + 5;
      assert buffer[..] == old(buffer[..index]) + [u1, u2, u3, u4, u5] + old(buffer[index + 5..]) by {
        forall k | 0 <= k < buffer.Length
          ensures buffer[k] == (old(buffer[..index]) + [u1, u2, u3, u4, u5] + old(buffer[index + 5..]))[k]
        {
        }
      }
    }

    method Store6(index: int, u1: int, u2: int, u3: int, u4: int, u5: int, u6: int) returns (nextIndex: int)
      requires 0 <= index && index + 6 <= buffer.Length
      modifies buffer
      ensures nextIndex == index + 6
      ensures buffer[..] == old(buffer[..index]) + [u1, u2, u3, u4, u5, u6] + old(buffer[index + 6..])
    {
      buffer[index] := u1;
      buffer[index + 1] := u2;
      buffer[index + 2] := u3;
      buffer[index + 3] := u4;
      buffer[index + 4] := u5;
      buffer[index + 5] := u6;
      nextIndex := index + 6;
      assert buffer[..] == old(buffer[..index]) + [u1, u2, u3, u4, u5, u6] + old(buffer[index + 6..]) by {
        forall k | 0 <= k < buffer.Length
          ensures buffer[k] == (old(buffer[..index]) + [u1, u2, u3, u4, u5, u6] + old(buffer[index + 6..]))[k]
        {
        }
      }
    }

    /** length: the number of units in the window. */
    function Length(): (n: nat)
      reads this
      ensures n == |source|
    {
      |source|
    }

    /** getCharCode: decode the code starting at a window index. */
    function GetCharCode(index: int): (c: CharCode)
      reads this
      ensures c == CharCodeAt(encoding, source, index)
    {
      CharCodeAt(encoding, source, index)
    }

    /** getChar: the one-unit string String.fromCharCode makes of the code. */
    function GetChar(index: int): (u: int)
      reads this
      ensures 0 <= u < 0x10000
      ensures GetCharCode(index).Code? && 0 <= GetCharCode(index).value < 0x10000 ==> u == GetCharCode(index).value
    {
      ToUnit(GetCharCode(index))
    }

    /** getCharLength for this buffer's encoding. */
    function GetCharLength(code: CharCode): (n: nat)
      reads this
      ensures 1 <= n
    {
      CharLengthOf(encoding, code)
    }

    /** getString(offset, len). UTF-8 and UTF-16 decode code after code and
        advance by each code's width; ASCII takes the units of the subarray. */
    method GetString(offset: int, len: int) returns (s: seq<int>)
      ensures encoding != Ascii ==> s == DecodeFrom(encoding, source, offset, 0, len)
      ensures encoding == Ascii ==> s == Subarray(source, offset, offset + len)
    {
      if encoding == Ascii {
        s := Subarray(source, offset, offset + len);
        return;
      }
      s := [];
      var i := 0;
      while i < len
        invariant s + DecodeFrom(encoding, source, offset, i, len) == DecodeFrom(encoding, source, offset, 0, len)
        decreases len - i
      {
        var ch := GetCharCode(i + offset);
        ghost var rest := DecodeFrom(encoding, source, offset, i + GetCharLength(ch), len);
        assert DecodeFrom(encoding, source, offset, i, len) == [ToUnit(ch)] + rest;
        Associative(s, [ToUnit(ch)], rest);
        s := s + [ToUnit(ch)];
        i := i + GetCharLength(ch);
      }
    }

    /** forEach: the callbacks made, in order, as (code, charIndex, bufferIndex). */
    method ForEach() returns (visits: seq<Visit>)
      ensures encoding != Ascii ==> visits == VisitsFrom(encoding, source, 0, 0)
      ensures encoding == Ascii ==> visits == AsciiVisitsFrom(source, 0)
    {
      visits := [];
      var index := 0;
      var end := |source|;
      if encoding != Ascii {
        var i := 0;
        while index < end
          invariant 0 <= index
          invariant visits + VisitsFrom(encoding, source, index, i) == VisitsFrom(encoding, source, 0, 0)
          decreases end - index
        {
          var code := GetCharCode(index);
          ghost var rest := VisitsFrom(encoding, source, index + GetCharLength(code), i + 1);
          assert VisitsFrom(encoding, source, index, i) == [Visit(code, i, index)] + rest;
          Associative(visits, [Visit(code, i, index)], rest);
          visits := visits + [Visit(code, i, index)];
          index := index + GetCharLength(code);
          i := i + 1;
        }
      } else {
        while index < end
          invariant 0 <= index <= end
          invariant visits + AsciiVisitsFrom(source, index) == AsciiVisitsFrom(source, 0)
          decreases end - index
        {
          Associative(visits, [Visit(Code(source[index]), index, index)], AsciiVisitsFrom(source, index + 1));
          visits := visits + [Visit(Code(source[index]), index, index)];
          index := index + 1;
        }
      }
    }
  }

  /** A UTF-8 buffer built over a whole string keeps every unit in its
      source, and getString over the whole source gives the string back. */
  lemma Utf8WholeStringRoundTrip(s: seq<int>)
    requires IsCharCodes(s)
    ensures var u := StoredUnits(Utf8, s);
            var w := UnitWindow(Utf8, s, 0, None);
            w.0 == 0 && w.1 >= |u| - 1 &&
            DecodeFrom(Utf8, u, 0, 0, |u|) == s
  {
    var e := EncodeAll(Utf8, s);
    assert StoredUnits(Utf8, s) == e;
    EncodeAllLength(Utf8, s);
    assert s[..0] == [] && s[..|s|] == s;
    assert UnitWindow(Utf8, s, 0, None) == (0, if |s| > 0 then |e| else -1);
    Utf8DecodeRoundTrip([], s);
    assert [] + e == e;
  }

  /** For UTF-16 and ASCII a window of n >= 1 chars starting inside the
      string keeps only n - 1 units: endIndex is the index of the last char
      of the window, and subarray treats it as an exclusive end. So
      new TextBuffer("abcd", "UTF-16", 1, 2) stores "b" alone. */
  lemma NarrowWindowDropsLastUnit(enc: Encoding, s: seq<int>, offset: int, n: int)
    requires IsCharCodes(s) && enc != Utf8
    requires 0 < offset && 0 < n && offset + n <= |s|
    ensures var u := StoredUnits(enc, s);
            var w := UnitWindow(enc, s, offset, Some(n));
            w.0 > 0 && Subarray(u, w.0, w.1) == u[offset..offset + n - 1]
  {
  }
}
