/**
 * SourceCode (src/source-code.js): the text a lexer scans, its span, and
 * the UTF-16 TextBuffer built over that span.
 */
module SourceCodes {
  import opened Encoding
  import opened Spans
  import opened TextBuffers

  class SourceCode {
    const source: seq<int>
    const startLine: int
    const span: TextSpan
    const buffer: TextBuffer

    /** The span is the whole text unless both a start and an end index are
        given. The first line number is taken from the start index (at
        least 1); the line argument itself is not read. */
    constructor (source: seq<int>, startLine: Option<int>, startIndex: Option<int>, endIndex: Option<int>)
      requires IsCharCodes(source)
      requires startIndex.Some? && endIndex.Some? && startIndex.value != 0 ==> |source| > 0
      ensures this.source == source
      ensures this.startLine == if startIndex.Some? && startIndex.value > 1 then startIndex.value else 1
      ensures span == if startIndex.Some? && endIndex.Some?
                      then FromRange(startIndex.value, endIndex.value)
                      else TextSpan(0, |source|)
      ensures buffer.str == source && buffer.encoding == Utf16
      ensures fresh(buffer)
      ensures var w := UnitWindow(Utf16, source, span.begin, Some(span.length));
              buffer.source == TextBuffer.WindowOf(source, w.0, w.1)
      ensures startIndex.None? || endIndex.None? ==> buffer.source == source
    {
      this.source := source;
      var first := if startIndex.Some? then startIndex.value else 1;
      this.startLine := if first > 1 then first else 1;
      var sp := TextSpan(0, |source|);
      if startIndex.Some? && endIndex.Some? {
        sp := FromRange(startIndex.value, endIndex.value);
      }
      span := sp;
      buffer := new TextBuffer(source, Utf16, sp.begin, Some(sp.length));
    }

    function OffsetBegin(): (b: int)
      ensures b + span.length == OffsetEnd()
    {
      span.begin
    }

    function OffsetEnd(): (e: int)
      ensures e == span.begin + span.length
    {
      span.End()
    }
  }
}
