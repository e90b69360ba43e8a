/** The minimal HTML handler: a SAX content handler that writes the header when the
    document starts, one heading or paragraph per title, section and para element, and
    the footer when the document ends. */
module TextHtmlHandlers {
  import opened Wrappers
  import opened JavaStrings
  import opened TextDocs
  import opened HtmlHeader

  /** What the handler's parser offers as JSON data: no JSON stream, a stream that does
      not parse, or the value parsed from it. */
  datatype JsonSource = NoJson | Unparsable | ParsedValue(value: JsonValue)

  /** The outcome of a callback: normal return, or a SAXException with its message. */
  datatype SaxResult = Ok | SaxError(message: string)

  const WRITE_FAILED := "Write to stream failed."
  const JSON_FAILED := "Failed to parse JSON stream"

  /** The data object after reading the JSON source: the parsed object, none for a parsed
      JSON null; failure (None) for a stream that does not parse or parses to a value
      that is not an object. Without a JSON stream the current object stays. */
  function JsonAfterParse(src: JsonSource, current: Option<JsonMap>): (r: Option<Option<JsonMap>>)
    ensures r.None? <==> src.Unparsable? || (src.ParsedValue? && !src.value.JsonObject? && !src.value.JsonNull?)
    ensures src.NoJson? ==> r == Some(current)
    ensures src.ParsedValue? && src.value.JsonObject? ==> r == Some(Some(src.value.fields))
    ensures src == ParsedValue(JsonNull) ==> r == Some(None)
  {
    match src
    case NoJson => Some(current)
    case Unparsable => None
    case ParsedValue(v) =>
      if v.JsonObject? then Some(Some(v.fields))
      else if v.JsonNull? then Some(None)
      else None
  }

  /** The element a closing tag writes, compared without regard to case. */
  function HeadingTag(qName: string): Option<string>
  {
    if EqualsIgnoreCase(qName, "title") then Some("h1")
    else if EqualsIgnoreCase(qName, "section") then Some("h2")
    else if EqualsIgnoreCase(qName, "para") then Some("p")
    else None
  }

  function HeadingOpen(tag: string): string
  {
    "    <" + (tag + ">")
  }

  function HeadingClose(tag: string): string
  {
    "    </" + (tag + ">\n")
  }

  /** The element written for the text gathered since the last one. */
  function HeadingHtml(tag: string, text: string): string
  {
    HeadingOpen(tag) + (text + HeadingClose(tag))
  }

  /** The text between an element's start and end tags. */
  function HeadingText(tag: string, html: string): string
    requires |HeadingOpen(tag)| + |HeadingClose(tag)| <= |html|
  {
    html[|HeadingOpen(tag)|..|html| - |HeadingClose(tag)|]
  }

  /** The gathered text comes back out of the element written for it. */
  lemma HeadingTextRoundTrip(tag: string, text: string)
    ensures |HeadingOpen(tag)| + |HeadingClose(tag)| <= |HeadingHtml(tag, text)|
    ensures HeadingText(tag, HeadingHtml(tag, text)) == text
  {
    var h := HeadingHtml(tag, text);
    assert h[|HeadingOpen(tag)|..|h| - |HeadingClose(tag)|] == text by {
      assert h == HeadingOpen(tag) + text + HeadingClose(tag);
    }
  }

  /** Text that neither starts nor ends with a character trim removes. */
  predicate TrimmedAtEnds(s: string)
  {
    s == [] || (!IsTrimmable(s[0]) && !IsTrimmable(s[|s| - 1]))
  }

  /** Appending trimmed text to trimmed text gives trimmed text. */
  lemma AppendTrimmed(a: string, b: string)
    requires TrimmedAtEnds(a) && TrimmedAtEnds(b)
    ensures TrimmedAtEnds(a + b)
  {
    if a != [] && b != [] {
      assert (a + b)[0] == a[0];
      assert (a + b)[|a + b| - 1] == b[|b| - 1];
    }
  }

  class TextHtmlHandler {
    /** The parser's output stream; null stands for none. */
    const out: OutStream?
    /** The parser's JSON stream, as what reading it yields. */
    const jsonSource: JsonSource
    /** The paths of the stylesheet and script URLs; absent for a null URL. */
    const cssPath: Option<string>
    const jsPath: Option<string>
    var textBuilder: string
    var jsonObject: Option<JsonMap>
    var htmlOpen: string

    /** The text gathered so far has been trimmed at both ends. */
    predicate Valid()
      reads this
    {
      TrimmedAtEnds(textBuilder)
    }

    constructor (out: OutStream?, jsonSource: JsonSource, cssPath: Option<string>, jsPath: Option<string>)
      ensures this.out == out && this.jsonSource == jsonSource
      ensures this.cssPath == cssPath && this.jsPath == jsPath
      ensures Valid() && textBuilder == [] && jsonObject == None && htmlOpen == TEMPLATE
    {
      this.out := out;
      this.jsonSource := jsonSource;
      this.cssPath := cssPath;
      this.jsPath := jsPath;
      textBuilder := [];
      jsonObject := None;
      htmlOpen := TEMPLATE;
    }

    /** Writes `s`; without a stream the write throws and the handler reports failure. */
    method WriteHtmlStream(s: string) returns (r: SaxResult)
      modifies out
      ensures out == null ==> r == SaxError(WRITE_FAILED)
      ensures out != null ==> r == Ok && out.written == old(out.written) + s
    {
      if out == null {
        return SaxError(WRITE_FAILED);
      }
      out.Write(s);
      return Ok;
    }

    /** Reads the JSON data, fills in the header's placeholders and writes the header. */
    method StartDocument() returns (r: SaxResult)
      modifies this, out
      ensures JsonAfterParse(jsonSource, old(jsonObject)).None? ==>
                r == SaxError(JSON_FAILED) && jsonObject == old(jsonObject) && htmlOpen == old(htmlOpen)
                && (out != null ==> out.written == old(out.written))
      ensures JsonAfterParse(jsonSource, old(jsonObject)).Some? ==>
                jsonObject == JsonAfterParse(jsonSource, old(jsonObject)).value
                && htmlOpen == Substitute(old(htmlOpen), jsonObject, cssPath, jsPath)
                && (out == null ==> r == SaxError(WRITE_FAILED))
                && (out != null ==> r == Ok && out.written == old(out.written) + htmlOpen)
      ensures JsonAfterParse(jsonSource, old(jsonObject)).Some? && old(htmlOpen) == TEMPLATE
              && NoLaterMarks(jsonObject, cssPath) ==>
                htmlOpen == Layout(TitleText(jsonObject), CssText(cssPath), JsText(jsPath))
      ensures textBuilder == old(textBuilder)
    {
      if jsonSource != NoJson {
        match jsonSource
        case Unparsable =>
          return SaxError(JSON_FAILED);
        case ParsedValue(v) =>
          if v.JsonObject? {
            jsonObject := Some(v.fields);
          } else if v.JsonNull? {
            jsonObject := None;
          } else {
            return SaxError(JSON_FAILED);
          }
      }
      var h := FillHeader(htmlOpen, jsonObject, cssPath, jsPath);
      htmlOpen := h;
      r := WriteHtmlStream(h);
    }

    method EndDocument() returns (r: SaxResult)
      modifies out
      ensures out == null ==> r == SaxError(WRITE_FAILED)
      ensures out != null ==> r == Ok && out.written == old(out.written) + FOOTER
    {
      r := WriteHtmlStream(FOOTER);
    }

    /** An opening tag changes nothing. */
    method StartElement(namespaceUri: string, localName: string, qName: string, attrs: seq<(string, string)>)
      ensures unchanged(this)
    {
    }

    /** Writes the gathered text as the element a title, section or para closing tag maps
        to and clears it; other closing tags are ignored. */
    method EndElement(qName: string) returns (r: SaxResult)
      requires Valid()
      modifies this, out
      ensures Valid()
      ensures HeadingTag(qName).None? ==>
                r == Ok && textBuilder == old(textBuilder)
                && (out != null ==> out.written == old(out.written))
      ensures HeadingTag(qName).Some? && out == null ==>
                r == SaxError(WRITE_FAILED) && textBuilder == old(textBuilder)
      ensures HeadingTag(qName).Some? && out != null ==>
                r == Ok && textBuilder == []
                && out.written == old(out.written) + HeadingHtml(HeadingTag(qName).value, old(textBuilder))
      ensures jsonObject == old(jsonObject) && htmlOpen == old(htmlOpen)
    {
      var tag: string;
      if EqualsIgnoreCase(qName, "title") {
        tag := "h1";
      } else if EqualsIgnoreCase(qName, "section") {
        tag := "h2";
      } else if EqualsIgnoreCase(qName, "para") {
        tag := "p";
      } else {
        return Ok;
      }
      ghost var w := if out == null then [] else out.written;
      r := WriteHtmlStream(HeadingOpen(tag));
      if r.SaxError? {
        return;
      }
      r := WriteHtmlStream(textBuilder);
      r := WriteHtmlStream(HeadingClose(tag));
      ConcatAssoc(w + HeadingOpen(tag), textBuilder, HeadingClose(tag));
      ConcatAssoc(w, HeadingOpen(tag), textBuilder + HeadingClose(tag));
      textBuilder := [];
    }

    /** Appends the trimmed text of `ch[start..start + length]`. */
    method Characters(ch: seq<char>, start: int, length: int)
      requires Valid()
      requires 0 <= start && 0 <= length && start + length <= |ch|
      modifies this
      ensures Valid()
      ensures textBuilder == old(textBuilder) + Trim(ch[start..start + length])
      ensures (forall i :: start <= i < start + length ==> IsTrimmable(ch[i])) ==>
                textBuilder == old(textBuilder)
      ensures jsonObject == old(jsonObject) && htmlOpen == old(htmlOpen)
    {
      var contents := ch[start..start + length];
      TrimEmptyIff(contents);
      assert (forall i :: start <= i < start + length ==> IsTrimmable(ch[i])) ==>
               forall i :: 0 <= i < |contents| ==> IsTrimmable(contents[i]) by {
        forall i | 0 <= i < |contents| ensures contents[i] == ch[start + i] { }
      }
      AppendTrimmed(textBuilder, Trim(contents));
      textBuilder := textBuilder + Trim(contents);
    }
  }
}
