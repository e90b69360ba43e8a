/** The HTML document header and footer shared by the HTML sink and the minimal HTML
    handler: a fixed template with three placeholders, filled in from the JSON data
    object and the optional stylesheet and script URLs by successive String.replace
    calls. */
module HtmlHeader {
  import opened Wrappers
  import opened JavaStrings

  /** A value of the parsed JSON object; only strings matter to the header. */
  datatype JsonValue = JsonString(text: string) | JsonNumber(number: int) | JsonBool(truth: bool)
                     | JsonNull | JsonArray(items: seq<JsonValue>) | JsonObject(fields: map<string, JsonValue>)

  type JsonMap = map<string, JsonValue>

  const TITLE_MARK := "__TITLE__"
  const CSS_MARK := "__CSS_URL__"
  const JS_MARK := "__JS_URL__"

  // The template, cut at its placeholders (written in short pieces, which keeps
  // facts about their characters cheap to check).
  const HEAD_PREFIX := "<!DOCTYPE " + "html>\n" + "<html>\n" + "  <head>\n" + "    <title>"
  const HEAD_AFTER_TITLE := "</title>\n" + "    <meta " + "name=\"author\" " + "content=" + "\"Lucky " + "Byte, " + "Inc.\"/>\n" + "    "
  const HEAD_AFTER_CSS := "\n    "
  const HEAD_SUFFIX := "\n  </head>\n" + "  <body>\n"

  const TEMPLATE := Layout(TITLE_MARK, CSS_MARK, JS_MARK)

  /** The template's text with `t`, `c` and `j` standing at the three placeholder positions. */
  function Layout(t: string, c: string, j: string): string
  {
    HEAD_PREFIX + (t + (HEAD_AFTER_TITLE + (c + (HEAD_AFTER_CSS + (j + HEAD_SUFFIX)))))
  }

  const FOOTER := "  </body>\n</html>\n"

  /** The title the JSON object provides: present only when its "title" is a string. */
  function JsonTitle(json: Option<JsonMap>): Option<string>
  {
    if json.Some? && "title" in json.value && json.value["title"].JsonString?
    then Some(json.value["title"].text)
    else None
  }

  const CSS_LINK_OPEN := "<link " + "rel=" + "\"stylesheet\" " + "type=" + "\"text/css\" " + "href=\""
  const CSS_LINK_CLOSE := "\" />"

  function CssLink(path: string): string
  {
    CSS_LINK_OPEN + path + CSS_LINK_CLOSE
  }

  function JsLink(path: string): string
  {
    "<script src=\"" + path + "\"></script>"
  }

  /** The three replace steps, applied in the source's order to header text `h`;
      `cssPath` and `jsPath` are the paths of the URLs, absent when the URL is null. */
  function Substitute(h: string, json: Option<JsonMap>, cssPath: Option<string>, jsPath: Option<string>): string
  {
    var h1 := if JsonTitle(json).Some? then ReplaceAll(h, TITLE_MARK, JsonTitle(json).value) else h;
    var h2 := if cssPath.Some? then ReplaceAll(h1, CSS_MARK, CssLink(cssPath.value)) else h1;
    if jsPath.Some? then ReplaceAll(h2, JS_MARK, JsLink(jsPath.value)) else h2
  }

  /** What stands where a placeholder was: the substituted text, or the placeholder itself. */
  function TitleText(json: Option<JsonMap>): string
  {
    if JsonTitle(json).Some? then JsonTitle(json).value else TITLE_MARK
  }

  function CssText(cssPath: Option<string>): string
  {
    if cssPath.Some? then CssLink(cssPath.value) else CSS_MARK
  }

  function JsText(jsPath: Option<string>): string
  {
    if jsPath.Some? then JsLink(jsPath.value) else JS_MARK
  }

  /** Neither the title nor the stylesheet path carries a placeholder that a later
      replace step would rewrite. */
  predicate NoLaterMarks(json: Option<JsonMap>, cssPath: Option<string>)
  {
    && (JsonTitle(json).Some? ==> !Contains(JsonTitle(json).value, CSS_MARK) && !Contains(JsonTitle(json).value, JS_MARK))
    && (cssPath.Some? ==> !Contains(cssPath.value, JS_MARK))
  }

  /** The header for the template: each placeholder is replaced exactly when its datum
      is present (a string title, a non-null URL) and stays in the output otherwise.
      The requires exclude substituted text that itself carries a later placeholder,
      which Java's successive replace calls would rewrite as well. */
  lemma HeaderShape(json: Option<JsonMap>, cssPath: Option<string>, jsPath: Option<string>)
    requires NoLaterMarks(json, cssPath)
    ensures Substitute(TEMPLATE, json, cssPath, jsPath)
         == Layout(TitleText(json), CssText(cssPath), JsText(jsPath))
  {
    var t := TitleText(json);
    TemplateFixedText();
    if JsonTitle(json).Some? {
      TitleStep(HEAD_PREFIX, HEAD_AFTER_TITLE, HEAD_AFTER_CSS, HEAD_SUFFIX, t);
    }
    assert !Contains(t, CSS_MARK) && !Contains(t, JS_MARK) by {
      if t == TITLE_MARK {
        if Contains(t, CSS_MARK) { ContainsChars(t, CSS_MARK, 'C'); }
        if Contains(t, JS_MARK) { ContainsChars(t, JS_MARK, 'J'); }
      }
    }
    var c := CssText(cssPath);
    if cssPath.Some? {
      CssStep(HEAD_PREFIX, HEAD_AFTER_TITLE, HEAD_AFTER_CSS, HEAD_SUFFIX, t, cssPath.value);
    }
    if jsPath.Some? {
      JsStep(HEAD_PREFIX, HEAD_AFTER_TITLE, HEAD_AFTER_CSS, HEAD_SUFFIX, t, cssPath, jsPath.value);
    }
  }

  /** The successive replace calls on header text `h`. */
  method FillHeader(h: string, json: Option<JsonMap>, cssPath: Option<string>, jsPath: Option<string>)
    returns (filled: string)
    ensures filled == Substitute(h, json, cssPath, jsPath)
    ensures h == TEMPLATE && NoLaterMarks(json, cssPath) ==>
              filled == Layout(TitleText(json), CssText(cssPath), JsText(jsPath))
  {
    filled := h;
    var title := JsonTitle(json);
    if title.Some? {
      filled := ReplaceAll(filled, TITLE_MARK, title.value);
    }
    if cssPath.Some? {
      filled := ReplaceAll(filled, CSS_MARK, CssLink(cssPath.value));
    }
    if jsPath.Some? {
      filled := ReplaceAll(filled, JS_MARK, JsLink(jsPath.value));
    }
    TemplateHeader(h, json, cssPath, jsPath);
  }

  /** HeaderShape, for header text that may or may not be the template. */
  lemma TemplateHeader(h: string, json: Option<JsonMap>, cssPath: Option<string>, jsPath: Option<string>)
    ensures h == TEMPLATE && NoLaterMarks(json, cssPath) ==>
              Substitute(h, json, cssPath, jsPath) == Layout(TitleText(json), CssText(cssPath), JsText(jsPath))
  {
    if h == TEMPLATE && NoLaterMarks(json, cssPath) {
      HeaderShape(json, cssPath, jsPath);
    }
  }

  /** The template's fixed text around the placeholders contains no '_', and each piece
      after a placeholder starts with a character none of the placeholders has. */
  predicate FixedText(p0: string, p1: string, p2: string, p3: string)
  {
    && '_' !in p0 && '_' !in p1 && '_' !in p2 && '_' !in p3
    && p1 != [] && p1[0] == '<' && p2 != [] && p2[0] == '\n' && p3 != [] && p3[0] == '\n'
  }

  lemma TemplateFixedText()
    ensures FixedText(HEAD_PREFIX, HEAD_AFTER_TITLE, HEAD_AFTER_CSS, HEAD_SUFFIX)
  {
    PrefixFixed();
    AfterTitleFixed();
  }

  lemma PrefixFixed()
    ensures '_' !in HEAD_PREFIX
  {
  }

  lemma AfterTitleFixed()
    ensures '_' !in HEAD_AFTER_TITLE
  {
  }

  lemma TitleStep(p0: string, p1: string, p2: string, p3: string, t: string)
    requires FixedText(p0, p1, p2, p3)
    ensures ReplaceAll(p0 + (TITLE_MARK + (p1 + (CSS_MARK + (p2 + (JS_MARK + p3))))), TITLE_MARK, t)
         == p0 + (t + (p1 + (CSS_MARK + (p2 + (JS_MARK + p3)))))
  {
    var r4 := JS_MARK + p3;
    var r3 := p2 + r4;
    var r2 := CSS_MARK + r3;
    var r1 := p1 + r2;
    ReplaceSkipsPrefix(p0, TITLE_MARK + r1, TITLE_MARK, t);
    ReplaceAtFront(r1, TITLE_MARK, t);
    ReplaceSkipsPrefix(p1, r2, TITLE_MARK, t);
    ReplaceSkipsForeign(CSS_MARK, r3, TITLE_MARK, t, 'T');
    ReplaceSkipsPrefix(p2, r4, TITLE_MARK, t);
    ReplaceSkipsForeign(JS_MARK, p3, TITLE_MARK, t, 'T');
    ReplaceSkipsPrefix(p3, [], TITLE_MARK, t);
    assert p3 + [] == p3;
  }

  lemma CssStep(p0: string, p1: string, p2: string, p3: string, t: string, path: string)
    requires FixedText(p0, p1, p2, p3) && !Contains(t, CSS_MARK)
    ensures ReplaceAll(p0 + (t + (p1 + (CSS_MARK + (p2 + (JS_MARK + p3))))), CSS_MARK, CssLink(path))
         == p0 + (t + (p1 + (CssLink(path) + (p2 + (JS_MARK + p3)))))
  {
    var l := CssLink(path);
    var r4 := JS_MARK + p3;
    var r3 := p2 + r4;
    var r2 := CSS_MARK + r3;
    var r1 := p1 + r2;
    ReplaceSkipsPrefix(p0, t + r1, CSS_MARK, l);
    ReplaceSkipsGuarded(t, r1, CSS_MARK, l);
    ReplaceSkipsPrefix(p1, r2, CSS_MARK, l);
    ReplaceAtFront(r3, CSS_MARK, l);
    ReplaceSkipsPrefix(p2, r4, CSS_MARK, l);
    ReplaceSkipsForeign(JS_MARK, p3, CSS_MARK, l, 'C');
    ReplaceSkipsPrefix(p3, [], CSS_MARK, l);
    assert p3 + [] == p3;
  }

  lemma JsStep(p0: string, p1: string, p2: string, p3: string, t: string, cssPath: Option<string>, path: string)
    requires FixedText(p0, p1, p2, p3) && !Contains(t, JS_MARK)
    requires cssPath.Some? ==> !Contains(cssPath.value, JS_MARK)
    ensures ReplaceAll(p0 + (t + (p1 + (CssText(cssPath) + (p2 + (JS_MARK + p3))))), JS_MARK, JsLink(path))
         == p0 + (t + (p1 + (CssText(cssPath) + (p2 + (JsLink(path) + p3)))))
  {
    var l := JsLink(path);
    var c := CssText(cssPath);
    var r3 := p2 + (JS_MARK + p3);
    var r2 := c + r3;
    var r1 := p1 + r2;
    ReplaceSkipsPrefix(p0, t + r1, JS_MARK, l);
    ReplaceSkipsGuarded(t, r1, JS_MARK, l);
    ReplaceSkipsPrefix(p1, r2, JS_MARK, l);
    if cssPath.None? {
      ReplaceSkipsForeign(CSS_MARK, r3, JS_MARK, l, 'J');
    } else {
      CssLinkSkipsJs(cssPath.value, r3, l);
    }
    ReplaceSkipsPrefix(p2, JS_MARK + p3, JS_MARK, l);
    ReplaceAtFront(p3, JS_MARK, l);
    ReplaceSkipsPrefix(p3, [], JS_MARK, l);
    assert p3 + [] == p3;
  }

  lemma CssLinkSkipsJs(path: string, rest: string, replacement: string)
    requires !Contains(path, JS_MARK) && rest != [] && rest[0] == '\n'
    ensures ReplaceAll(CssLink(path) + rest, JS_MARK, replacement) == CssLink(path) + ReplaceAll(rest, JS_MARK, replacement)
  {
    var opening := CSS_LINK_OPEN;
    var closing := CSS_LINK_CLOSE;
    assert '_' !in opening && '_' !in closing;
    assert CssLink(path) + rest == opening + (path + (closing + rest));
    ReplaceSkipsPrefix(opening, path + (closing + rest), JS_MARK, replacement);
    ReplaceSkipsGuarded(path, closing + rest, JS_MARK, replacement);
    ReplaceSkipsPrefix(closing, rest, JS_MARK, replacement);
    assert opening + (path + (closing + ReplaceAll(rest, JS_MARK, replacement))) == CssLink(path) + ReplaceAll(rest, JS_MARK, replacement);
  }
}
