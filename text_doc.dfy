/** The abstract output document: an output stream, a page size and four page margins,
    shared by the PDF and HTML sinks. */
module TextDocs {

  /** An output stream; `written` is everything written to it so far. */
  class OutStream {
    var written: seq<char>

    constructor ()
      ensures written == []
    {
      written := [];
    }

    method Write(s: seq<char>)
      modifies this
      ensures written == old(written) + s
    {
      written := written + s;
    }
  }

  /** A page size in points. */
  datatype Rectangle = Rectangle(width: int, height: int)

  /** iText's A4 page, 595 by 842 points. */
  const A4 := Rectangle(595, 842)

  const DEFAULT_MARGIN := 50

  class TextDoc {
    /** The stream the document writes to; null stands for no stream. */
    const outStream: OutStream?
    var pageSize: Rectangle
    var marginLeft: int
    var marginRight: int
    var marginTop: int
    var marginBottom: int

    /** A document on `outStream` with an A4 page and 50-point margins. */
    constructor (outStream: OutStream?)
      ensures this.outStream == outStream
      ensures pageSize == A4
      ensures marginLeft == DEFAULT_MARGIN && marginRight == DEFAULT_MARGIN
      ensures marginTop == DEFAULT_MARGIN && marginBottom == DEFAULT_MARGIN
    {
      this.outStream := outStream;
      pageSize := A4;
      marginLeft := DEFAULT_MARGIN;
      marginRight := DEFAULT_MARGIN;
      marginTop := DEFAULT_MARGIN;
      marginBottom := DEFAULT_MARGIN;
    }

    method SetPageSize(size: Rectangle)
      modifies this
      ensures pageSize == size
      ensures marginLeft == old(marginLeft) && marginRight == old(marginRight)
      ensures marginTop == old(marginTop) && marginBottom == old(marginBottom)
    {
      pageSize := size;
    }

    method SetPageMargin(left: int, right: int, top: int, bottom: int)
      modifies this
      ensures marginLeft == left && marginRight == right
      ensures marginTop == top && marginBottom == bottom
      ensures pageSize == old(pageSize)
    {
      marginLeft := left;
      marginRight := right;
      marginTop := top;
      marginBottom := bottom;
    }
  }
}
