/** The HTML output document: writes a header, blocks of chunks as HTML elements, page
    separators and a footer to the document's output stream. */
module HtmlDocs {
  import opened Wrappers
  import opened JavaStrings
  import opened AttrMaps
  import opened TextChunks
  import opened TextDocs
  import opened HtmlHeader
  import opened HtmlRender

  /** What the sink reads from each chunk of a block. */
  function Runs(chunks: seq<TextChunk>): (runs: seq<Run>)
    reads chunks
    ensures |runs| == |chunks|
    ensures forall i :: 0 <= i < |chunks| ==> runs[i] == RunOf(chunks[i])
    decreases |chunks|
  {
    if chunks == [] then [] else [RunOf(chunks[0])] + Runs(chunks[1..])
  }

  function RunOf(chunk: TextChunk): Run
    reads chunk
  {
    Run(chunk.contents, chunk.attrs, chunk.isValue)
  }

  /** The diagnostic printed for a block name with no element. */
  function UnmappedMessage(blockName: string): string
  {
    "unable map block name '" + blockName + "'to html label."
  }

  lemma Append3(w: string, a: string, b: string, c: string)
    ensures w + a + b + c == w + (a + (b + c))
  {
    ConcatAssoc(w, a, b);
    ConcatAssoc(w + a, b, c);
    ConcatAssoc(w, a, b + c);
    ConcatAssoc(a, b, c);
  }

  class HtmlDoc {
    /** The page settings and output stream every document has. */
    const base: TextDoc
    var isOpen: bool
    var jsonObject: Option<JsonMap>
    /** The paths of the stylesheet and script URLs; absent for a null URL. */
    var cssPath: Option<string>
    var jsPath: Option<string>
    /** The header text, rewritten in place by open. */
    var htmlOpen: string
    /** The lines printed to the error stream. */
    var diagnostics: seq<string>

    constructor (outStream: OutStream?)
      ensures fresh(base) && base.outStream == outStream && base.pageSize == A4
      ensures base.marginLeft == DEFAULT_MARGIN && base.marginRight == DEFAULT_MARGIN
      ensures base.marginTop == DEFAULT_MARGIN && base.marginBottom == DEFAULT_MARGIN
      ensures !isOpen && jsonObject == None && cssPath == None && jsPath == None
      ensures htmlOpen == TEMPLATE && diagnostics == []
    {
      base := new TextDoc(outStream);
      isOpen := false;
      jsonObject := None;
      cssPath := None;
      jsPath := None;
      htmlOpen := TEMPLATE;
      diagnostics := [];
    }

    method SetJsonObject(json: Option<JsonMap>)
      modifies this
      ensures jsonObject == json
      ensures isOpen == old(isOpen) && cssPath == old(cssPath) && jsPath == old(jsPath)
      ensures htmlOpen == old(htmlOpen) && diagnostics == old(diagnostics)
    {
      jsonObject := json;
    }

    method SetUrl(css: Option<string>, js: Option<string>)
      modifies this
      ensures cssPath == css && jsPath == js
      ensures isOpen == old(isOpen) && jsonObject == old(jsonObject)
      ensures htmlOpen == old(htmlOpen) && diagnostics == old(diagnostics)
    {
      cssPath := css;
      jsPath := js;
    }

    /** Without a stream, fails and changes nothing. Otherwise fills in the header's
        placeholders, marks the document open and writes the header; on the untouched
        template that header is the template with each present datum in its place. */
    method Open() returns (ok: bool)
      modifies this, base.outStream
      ensures ok <==> base.outStream != null
      ensures !ok ==> isOpen == old(isOpen) && htmlOpen == old(htmlOpen)
      ensures ok ==> isOpen && htmlOpen == Substitute(old(htmlOpen), jsonObject, cssPath, jsPath)
      ensures ok ==> base.outStream.written == old(base.outStream.written) + htmlOpen
      ensures ok && old(htmlOpen) == TEMPLATE && NoLaterMarks(jsonObject, cssPath) ==>
                htmlOpen == Layout(TitleText(jsonObject), CssText(cssPath), JsText(jsPath))
      ensures jsonObject == old(jsonObject) && cssPath == old(cssPath) && jsPath == old(jsPath)
      ensures diagnostics == old(diagnostics)
    {
      if base.outStream == null {
        return false;
      }
      var h := FillHeader(htmlOpen, jsonObject, cssPath, jsPath);
      htmlOpen := h;
      isOpen := true;
      base.outStream.Write(h);
      return true;
    }

    /** Writes the footer when the document is open and has a stream. */
    method Close()
      modifies base.outStream
      ensures base.outStream != null && isOpen ==>
                base.outStream.written == old(base.outStream.written) + FOOTER
      ensures base.outStream != null && !isOpen ==>
                base.outStream.written == old(base.outStream.written)
    {
      if isOpen && base.outStream != null {
        base.outStream.Write(FOOTER);
      }
    }

    function IsOpen(): bool
      reads this
    {
      isOpen
    }

    /** A page separator. The source writes without checking for a stream, so a
        document without one cannot take a new page. */
    method NewPage()
      requires base.outStream != null
      modifies base.outStream
      ensures base.outStream.written == old(base.outStream.written) + "<hr/>"
    {
      base.outStream.Write("<hr/>");
    }

    /** The input element of a value chunk. */
    method WriteValue(chunk: TextChunk)
      requires base.outStream != null
      modifies base.outStream
      ensures base.outStream.written == old(base.outStream.written) + ValueHtml(chunk.Attrs())
    {
      var out := base.outStream;
      var attrs := chunk.Attrs();
      ghost var w := out.written;
      out.Write(INPUT_OPEN);
      var id := NonEmpty(attrs, "id");
      var idText := IdText(id, " ");
      if id.Some? {
        out.Write(idText);
      } else {
        assert w + INPUT_OPEN + idText == w + INPUT_OPEN;
      }
      ghost var w1 := out.written;
      assert w1 == w + INPUT_OPEN + idText;
      var size := NonEmpty(attrs, "minlen");
      var sizeText := SizeText(size);
      if size.Some? {
        out.Write(sizeText);
      } else {
        assert w1 + sizeText == w1;
      }
      out.Write(" />");
      assert out.written == w + INPUT_OPEN + idText + sizeText + " />";
      Append3(w, INPUT_OPEN, idText, sizeText + " />");
      ConcatAssoc(w + INPUT_OPEN + idText, sizeText, " />");
    }

    /** The text of the chunk at index `i` of a block with element `tag`. */
    method WriteRun(tag: string, blockName: string, chunk: TextChunk, i: nat)
      requires base.outStream != null && (chunk.isValue || chunk.contents.Some?)
      modifies base.outStream
      ensures base.outStream.written == old(base.outStream.written) + RunHtml(tag, blockName, RunOf(chunk), i)
    {
      var out := base.outStream;
      ghost var w := out.written;
      if chunk.isValue {
        var open := if i == 0 then BlockOpen(tag, blockName) + ">" else "";
        if i == 0 {
          out.Write(open);
        } else {
          assert w + open == w;
        }
        WriteValue(chunk);
        ConcatAssoc(w, open, ValueHtml(chunk.Attrs()));
        return;
      }
      var open := if i == 0 then BlockOpen(tag, blockName) else "<span";
      out.Write(open);
      var htmlAttrs := GetHtmlAttrs(chunk.attrs, i == 0);
      var styleText := StyleAttrText(htmlAttrs);
      // The HTML attributes hold at most the style entry (HtmlAttrsShape).
      if "style" in htmlAttrs {
        out.Write(styleText);
      } else {
        assert w + open + styleText == w + open;
      }
      ghost var w1 := out.written;
      assert w1 == w + open + styleText;
      out.Write(">");
      var escaped := HtmlCharEscape(chunk.contents.value);
      out.Write(escaped);
      ghost var w2 := out.written;
      assert w2 == w1 + ">" + escaped;
      var close := if i > 0 then "</span>" else "";
      if i > 0 {
        out.Write(close);
      } else {
        assert w2 + close == w2;
      }
      assert out.written == w1 + ">" + escaped + close;
      Append3(w1, ">", escaped, close);
      Append3(w, open, styleText, ">" + (escaped + close));
    }

    /** The chunks of a block with element `tag`, in order. */
    method WriteBody(tag: string, blockName: string, chunks: seq<TextChunk>)
      requires base.outStream != null && Renderable(Runs(chunks))
      modifies base.outStream
      ensures base.outStream.written == old(base.outStream.written) + BodyFrom(tag, blockName, Runs(chunks), 0)
    {
      var out := base.outStream;
      ghost var runs := Runs(chunks);
      ghost var w := out.written;
      var i := 0;
      while i < |chunks|
        invariant 0 <= i <= |chunks|
        invariant forall j :: 0 <= j < |chunks| ==> RunOf(chunks[j]) == runs[j]
        invariant w + BodyFrom(tag, blockName, runs, 0) == out.written + BodyFrom(tag, blockName, runs[i..], i)
      {
        ghost var before := out.written;
        assert runs[i..][1..] == runs[i + 1..];
        ghost var piece := RunHtml(tag, blockName, runs[i], i);
        ghost var rest := BodyFrom(tag, blockName, runs[i + 1..], i + 1);
        assert BodyFrom(tag, blockName, runs[i..], i) == piece + rest;
        WriteRun(tag, blockName, chunks[i], i);
        ConcatAssoc(before, piece, rest);
        i := i + 1;
      }
      assert runs[i..] == [];
    }

    /** Writes a block: nothing without a stream or chunks; only a diagnostic for a block
        name with no element; otherwise the block's text. Escaping a text chunk without
        contents throws, so such a chunk is excluded where it would be written. */
    method WriteBlock(blockName: string, chunks: seq<TextChunk>)
      requires base.outStream != null && chunks != [] && HtmlLabel(blockName).Some? ==>
                 Renderable(Runs(chunks))
      modifies this, base.outStream
      ensures base.outStream == null || chunks == [] ==> diagnostics == old(diagnostics)
      ensures base.outStream != null && chunks == [] ==>
                base.outStream.written == old(base.outStream.written)
      ensures base.outStream != null && chunks != [] && HtmlLabel(blockName).None? ==>
                diagnostics == old(diagnostics) + [UnmappedMessage(blockName)]
                && base.outStream.written == old(base.outStream.written)
      ensures base.outStream != null && chunks != [] && HtmlLabel(blockName).Some? ==>
                diagnostics == old(diagnostics)
                && base.outStream.written == old(base.outStream.written)
                   + BlockHtml(HtmlLabel(blockName).value, blockName, Runs(chunks))
      ensures isOpen == old(isOpen) && jsonObject == old(jsonObject) && htmlOpen == old(htmlOpen)
      ensures cssPath == old(cssPath) && jsPath == old(jsPath)
    {
      if base.outStream == null || |chunks| == 0 {
        return;
      }
      var tag := GetHtmlLabel(blockName);
      if tag.None? {
        diagnostics := diagnostics + [UnmappedMessage(blockName)];
        return;
      }
      WriteBody(tag.value, blockName, chunks);
      base.outStream.Write(BlockClose(tag.value));
      ConcatAssoc(old(base.outStream.written), BodyFrom(tag.value, blockName, Runs(chunks), 0), BlockClose(tag.value));
    }
  }
}
