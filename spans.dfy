/**
 * TextSpan and TextPosition (src/text.js): a [begin, begin + length) range
 * of the source, and a (line, begin, lineBegin) position whose column is
 * begin - lineBegin.
 */
module Spans {

  datatype TextSpan = TextSpan(begin: int, length: int)
  {
    function End(): (e: int)
      ensures e - begin == length
    {
      begin + length
    }

    function IsEmpty(): (b: bool)
      ensures b <==> End() == begin
    {
      length == 0
    }
  }

  /** TextSpan.fromRange: the span from begin up to end. */
  function FromRange(begin: int, end: int): (s: TextSpan)
    ensures s.begin == begin && s.End() == end
    ensures s.IsEmpty() <==> begin == end
  {
    TextSpan(begin, end - begin)
  }

  /** A span is the range from its begin to its end. */
  lemma SpanRangeRoundTrip(s: TextSpan)
    ensures FromRange(s.begin, s.End()) == s
  {
  }

  datatype TextPosition = TextPosition(line: int, begin: int, lineBegin: int)
  {
    function Column(): (c: int)
      ensures c + lineBegin == begin
    {
      begin - lineBegin
    }

    /** add: the same line, begin moved forward by offset. */
    function Add(offset: int): (p: TextPosition)
      ensures p.line == line && p.lineBegin == lineBegin
      ensures p.Column() == Column() + offset
    {
      TextPosition(line, begin + offset, lineBegin)
    }

    /** subtract: the same line, begin moved back by offset. */
    function Subtract(offset: int): (p: TextPosition)
      ensures p.line == line && p.lineBegin == lineBegin
      ensures p.Column() == Column() - offset
    {
      TextPosition(line, begin - offset, lineBegin)
    }

    /** isEqualTo is equality of all three fields. */
    function IsEqualTo(other: TextPosition): (b: bool)
      ensures b <==> this == other
    {
      line == other.line && begin == other.begin && lineBegin == other.lineBegin
    }

    /** isGreaterThan is the strict product order on (line, begin): both
        components at least as large and the two not both equal. lineBegin
        takes no part. */
    function IsGreaterThan(other: TextPosition): (b: bool)
      ensures b <==> line >= other.line && begin >= other.begin && (line, begin) != (other.line, other.begin)
    {
      (line >= other.line && begin > other.begin) || (begin >= other.begin && line > other.line)
    }

    /** isLessThan is the converse of isGreaterThan. */
    function IsLessThan(other: TextPosition): (b: bool)
      ensures b <==> other.IsGreaterThan(this)
      ensures b <==> line <= other.line && begin <= other.begin && (line, begin) != (other.line, other.begin)
    {
      (line <= other.line && begin < other.begin) || (begin <= other.begin && line < other.line)
    }
  }

  /** TextPosition.Zero. */
  const Zero := TextPosition(0, 0, 0)

  /** Adding and then subtracting an offset, in either order, gives the
      position back. */
  lemma AddSubtractInverse(p: TextPosition, offset: int)
    ensures p.Add(offset).Subtract(offset) == p
    ensures p.Subtract(offset).Add(offset) == p
    ensures p.Add(0) == p
  {
  }

  /** The order is strict: irreflexive, asymmetric and transitive, and it is
      never reported for equal positions. */
  lemma OrderIsStrict(a: TextPosition, b: TextPosition, c: TextPosition)
    ensures !a.IsLessThan(a)
    ensures a.IsLessThan(b) ==> !b.IsLessThan(a) && !a.IsEqualTo(b)
    ensures a.IsLessThan(b) && b.IsLessThan(c) ==> a.IsLessThan(c)
  {
  }

  /** The order is partial: a position later in line but earlier in begin is
      neither less nor greater than the other. */
  lemma OrderIsPartial()
    ensures var a := TextPosition(1, 5, 0);
            var b := TextPosition(2, 3, 0);
            !a.IsLessThan(b) && !b.IsLessThan(a) && !a.IsEqualTo(b)
  {
  }
}
