/** The markup the HTML sink produces for one block of chunks: the element a block name
    maps to, the style attribute built from a chunk's attributes, the escaping of text,
    and the form input written for a value chunk. */
module HtmlRender {
  import opened Wrappers
  import opened JavaStrings
  import opened AttrMaps

  // ----- block labels -----

  /** The block names the sink knows and the HTML element each maps to, in table order. */
  const BLOCK_LABELS: seq<(string, string)> :=
    [("title", "h1"), ("chapter", "h2"), ("section", "h3"), ("para", "p")]

  /** The element for a block name, compared without regard to case. */
  function HtmlLabel(name: string): Option<string>
  {
    if EqualsIgnoreCase(name, "title") then Some("h1")
    else if EqualsIgnoreCase(name, "chapter") then Some("h2")
    else if EqualsIgnoreCase(name, "section") then Some("h3")
    else if EqualsIgnoreCase(name, "para") then Some("p")
    else None
  }

  /** The table lookup: the element of the first entry whose name matches. */
  method GetHtmlLabel(blockName: string) returns (tag: Option<string>)
    ensures tag == HtmlLabel(blockName)
  {
    var i := 0;
    while i < |BLOCK_LABELS|
      invariant 0 <= i <= |BLOCK_LABELS|
      invariant forall j :: 0 <= j < i ==> !EqualsIgnoreCase(blockName, BLOCK_LABELS[j].0)
    {
      if EqualsIgnoreCase(blockName, BLOCK_LABELS[i].0) {
        return Some(BLOCK_LABELS[i].1);
      }
      i := i + 1;
    }
    assert BLOCK_LABELS[0].0 == "title" && BLOCK_LABELS[1].0 == "chapter";
    assert BLOCK_LABELS[2].0 == "section" && BLOCK_LABELS[3].0 == "para";
    assert !EqualsIgnoreCase(blockName, BLOCK_LABELS[3].0);
    return None;
  }

  /** Block names that differ only in case map to the same element. */
  lemma HtmlLabelIgnoresCase(a: string, b: string)
    requires EqualsIgnoreCase(a, b)
    ensures HtmlLabel(a) == HtmlLabel(b)
  {
  }

  // ----- style attribute -----

  const BOLD_STYLE := "font-weight: bold;"
  const ITALIC_STYLE := "font-style: italic;"
  const UNDERLINE_STYLE := "font-decoration: underline;"

  /** The declaration a trimmed font-style token adds (none for an unknown one). */
  function TokenStyle(name: string): string
  {
    if EqualsIgnoreCase(name, "bold") then BOLD_STYLE
    else if EqualsIgnoreCase(name, "italic") then ITALIC_STYLE
    else if EqualsIgnoreCase(name, "underline") then UNDERLINE_STYLE
    else ""
  }

  /** The declarations of the comma-separated tokens, each trimmed, in order. */
  function TokensStyle(tokens: seq<string>): string
    decreases |tokens|
  {
    if tokens == [] then "" else TokenStyle(Trim(tokens[0])) + TokensStyle(tokens[1..])
  }

  /** Font-style tokens that differ only in case add the same declaration. */
  lemma TokenStyleIgnoresCase(a: string, b: string)
    requires EqualsIgnoreCase(a, b)
    ensures TokenStyle(a) == TokenStyle(b)
  {
  }

  /** A token that is none of bold, italic and underline, in any case, adds nothing. */
  lemma UnknownTokenAddsNothing(name: string)
    requires !EqualsIgnoreCase(name, "bold") && !EqualsIgnoreCase(name, "italic")
    requires !EqualsIgnoreCase(name, "underline")
    ensures TokenStyle(name) == ""
  {
  }

  /** A font-style value adds a declaration exactly when one of its trimmed tokens is
      bold, italic or underline, in any case. */
  lemma {:induction false} TokensStyleNonEmptyIff(tokens: seq<string>)
    ensures TokensStyle(tokens) != "" <==>
            exists i :: 0 <= i < |tokens| && KnownToken(Trim(tokens[i]))
    decreases |tokens|
  {
    if tokens != [] {
      var tail := tokens[1..];
      TokensStyleNonEmptyIff(tail);
      KnownTokenStyle(Trim(tokens[0]));
      if exists i :: 0 <= i < |tail| && KnownToken(Trim(tail[i])) {
        var i :| 0 <= i < |tail| && KnownToken(Trim(tail[i]));
        assert tokens[i + 1] == tail[i];
      }
      if exists i :: 0 <= i < |tokens| && KnownToken(Trim(tokens[i])) {
        var i :| 0 <= i < |tokens| && KnownToken(Trim(tokens[i]));
        if i > 0 {
          assert tokens[i] == tail[i - 1];
        }
      }
    }
  }

  /** The declarations of two token lists one after the other. */
  lemma {:induction false} TokensStyleAppend(a: seq<string>, b: seq<string>)
    ensures TokensStyle(a + b) == TokensStyle(a) + TokensStyle(b)
    decreases |a|
  {
    if a == [] {
      assert a + b == b;
    } else {
      assert (a + b)[0] == a[0];
      assert (a + b)[1..] == a[1..] + b;
      TokensStyleAppend(a[1..], b);
      ConcatAssoc(TokenStyle(Trim(a[0])), TokensStyle(a[1..]), TokensStyle(b));
    }
  }

  /** Empty tokens add nothing. */
  lemma {:induction false} EmptyTokensAddNothing(ts: seq<string>)
    requires forall i :: 0 <= i < |ts| ==> ts[i] == ""
    ensures TokensStyle(ts) == ""
    decreases |ts|
  {
    if ts != [] {
      assert Trim(ts[0]) == "";
      EmptyTokensAddNothing(ts[1..]);
    }
  }

  /** Tokens followed by empty tokens add what the tokens alone add. */
  lemma TrailingEmptyAddNothing(kept: seq<string>, all: seq<string>)
    requires kept <= all && forall i :: |kept| <= i < |all| ==> all[i] == ""
    ensures TokensStyle(all) == TokensStyle(kept)
  {
    var dropped := all[|kept|..];
    assert all == kept + dropped;
    EmptyTokensAddNothing(dropped);
    TokensStyleAppend(kept, dropped);
  }

  /** The empty fields that split drops at the end of a font-style value would add
      nothing, so the style is that of every field between the commas. */
  lemma SplitStyleLikeSplitAll(value: string)
    ensures TokensStyle(Split(value, ',')) == TokensStyle(SplitAll(value, ','))
  {
    SplitDropsTrailingEmpty(value, ',');
    TrailingEmptyAddNothing(Split(value, ','), SplitAll(value, ','));
  }

  /** The tokens the font-style attribute recognises. */
  predicate KnownToken(name: string)
  {
    EqualsIgnoreCase(name, "bold") || EqualsIgnoreCase(name, "italic")
    || EqualsIgnoreCase(name, "underline")
  }

  /** Exactly the recognised tokens add a declaration. */
  lemma KnownTokenStyle(name: string)
    ensures TokenStyle(name) != "" <==> KnownToken(name)
  {
  }

  /** The declarations one attribute adds: font-style tokens always, indent and align
      only on the block element itself. */
  function EntryStyle(key: string, value: string, block: bool): string
  {
    if EqualsIgnoreCase(key, "font-style") then TokensStyle(Split(value, ','))
    else if block && EqualsIgnoreCase(key, "indent") then "text-indent: " + value + "px;"
    else if block && EqualsIgnoreCase(key, "align") then "text-align: " + value + ";"
    else ""
  }

  /** The style text of a chunk: the declarations of its attributes in iteration order. */
  function StyleOf(attrs: AttrList, block: bool): string
    decreases |attrs|
  {
    if attrs == [] then ""
    else EntryStyle(attrs[0].0, attrs[0].1, block) + StyleOf(attrs[1..], block)
  }

  /** The HTML attributes of a chunk: a style attribute when there is any style text. */
  function HtmlAttrs(attrs: AttrList, block: bool): map<string, string>
  {
    var style := StyleOf(attrs, block);
    if |style| > 0 then map["style" := style] else map[]
  }

  /** The style text is non-empty exactly when some attribute contributes a declaration. */
  lemma {:induction false} StyleNonEmptyIff(attrs: AttrList, block: bool)
    ensures StyleOf(attrs, block) != "" <==>
            exists i :: 0 <= i < |attrs| && EntryStyle(attrs[i].0, attrs[i].1, block) != ""
    decreases |attrs|
  {
    if attrs != [] {
      var tail := attrs[1..];
      StyleNonEmptyIff(tail, block);
      if exists i :: 0 <= i < |tail| && EntryStyle(tail[i].0, tail[i].1, block) != "" {
        var i :| 0 <= i < |tail| && EntryStyle(tail[i].0, tail[i].1, block) != "";
        assert attrs[i + 1] == tail[i];
      }
      if exists i :: 0 <= i < |attrs| && EntryStyle(attrs[i].0, attrs[i].1, block) != "" {
        var i :| 0 <= i < |attrs| && EntryStyle(attrs[i].0, attrs[i].1, block) != "";
        if i > 0 {
          assert attrs[i] == tail[i - 1];
        }
      }
    }
  }

  /** The HTML attributes hold at most a style entry, present exactly when some attribute
      contributes a declaration. */
  lemma HtmlAttrsShape(attrs: AttrList, block: bool)
    ensures HtmlAttrs(attrs, block).Keys <= {"style"}
    ensures "style" in HtmlAttrs(attrs, block) <==>
            exists i :: 0 <= i < |attrs| && EntryStyle(attrs[i].0, attrs[i].1, block) != ""
  {
    StyleNonEmptyIff(attrs, block);
  }

  /** The font-style attributes of a list, in order. */
  function FontStyleEntries(attrs: AttrList): (r: AttrList)
    ensures forall i :: 0 <= i < |r| ==> EqualsIgnoreCase(r[i].0, "font-style")
    decreases |attrs|
  {
    if attrs == [] then []
    else if EqualsIgnoreCase(attrs[0].0, "font-style") then [attrs[0]] + FontStyleEntries(attrs[1..])
    else FontStyleEntries(attrs[1..])
  }

  /** A chunk other than the block's first takes only its font-style attributes into
      account: indent and align are ignored there. */
  lemma {:induction false} InlineStyleOnlyFontStyle(attrs: AttrList)
    ensures StyleOf(attrs, false) == StyleOf(FontStyleEntries(attrs), false)
    decreases |attrs|
  {
    if attrs != [] {
      InlineStyleOnlyFontStyle(attrs[1..]);
      if EqualsIgnoreCase(attrs[0].0, "font-style") {
        var f := [attrs[0]] + FontStyleEntries(attrs[1..]);
        assert f[1..] == FontStyleEntries(attrs[1..]);
      }
    }
  }

  /** The attribute scan of getHtmlAttrs: each attribute, and each token of a font-style
      value, in turn. */
  method GetHtmlAttrs(attrs: AttrList, blockElement: bool) returns (htmlAttrs: map<string, string>)
    ensures htmlAttrs == HtmlAttrs(attrs, blockElement)
  {
    var style := "";
    var i := 0;
    while i < |attrs|
      invariant 0 <= i <= |attrs|
      invariant StyleOf(attrs, blockElement) == style + StyleOf(attrs[i..], blockElement)
    {
      var key := attrs[i].0;
      var value := attrs[i].1;
      ghost var before := style;
      ghost var rest := StyleOf(attrs[i + 1..], blockElement);
      assert attrs[i..][1..] == attrs[i + 1..];
      assert StyleOf(attrs[i..], blockElement) == EntryStyle(key, value, blockElement) + rest;
      var entry := EntryText(key, value, blockElement);
      style := style + entry;
      ConcatAssoc(before, entry, rest);
      i := i + 1;
    }
    assert attrs[i..] == [];
    assert style + StyleOf(attrs[i..], blockElement) == style;
    if |style| > 0 {
      htmlAttrs := map["style" := style];
    } else {
      htmlAttrs := map[];
    }
  }

  /** The declarations one attribute adds, as getHtmlAttrs appends them. */
  method EntryText(key: string, value: string, blockElement: bool) returns (entry: string)
    ensures entry == EntryStyle(key, value, blockElement)
  {
    entry := "";
    if EqualsIgnoreCase(key, "font-style") {
      var styles := Split(value, ',');
      entry := FontStyleText(styles);
    } else if blockElement && EqualsIgnoreCase(key, "indent") {
      entry := "text-indent: " + value + "px;";
    } else if blockElement && EqualsIgnoreCase(key, "align") {
      entry := "text-align: " + value + ";";
    }
  }

  /** The declarations of the tokens of a font-style value, each trimmed. */
  method FontStyleText(styles: seq<string>) returns (text: string)
    ensures text == TokensStyle(styles)
  {
    text := "";
    var j := 0;
    while j < |styles|
      invariant 0 <= j <= |styles|
      invariant TokensStyle(styles) == text + TokensStyle(styles[j..])
    {
      var styleName := Trim(styles[j]);
      ghost var start := text;
      ghost var later := TokensStyle(styles[j + 1..]);
      assert styles[j..][1..] == styles[j + 1..];
      assert TokensStyle(styles[j..]) == TokenStyle(styleName) + later;
      var declaration := TokenText(styleName);
      text := text + declaration;
      ConcatAssoc(start, declaration, later);
      j := j + 1;
    }
    assert styles[j..] == [];
    assert text + TokensStyle(styles[j..]) == text;
  }

  /** The declaration one trimmed token adds, as the token loop appends it. */
  method TokenText(styleName: string) returns (declaration: string)
    ensures declaration == TokenStyle(styleName)
  {
    declaration := "";
    if EqualsIgnoreCase(styleName, "bold") {
      declaration := BOLD_STYLE;
    } else if EqualsIgnoreCase(styleName, "italic") {
      declaration := ITALIC_STYLE;
    } else if EqualsIgnoreCase(styleName, "underline") {
      declaration := UNDERLINE_STYLE;
    }
  }

  // ----- character escaping -----

  const NBSP := "&nbsp;"
  const AMP := "&amp;"
  const LT := "&lt;"
  const GT := "&gt;"
  const BR := "<br/>"

  /** The text written for one character: entities for space, tab, '&', '<' and '>',
      a break element in front of a line feed, and the character itself otherwise. */
  function EscapeChar(c: char): string
  {
    if c == ' ' then NBSP
    else if c == '\t' then NBSP + NBSP + NBSP + NBSP
    else if c == '&' then AMP
    else if c == '<' then LT
    else if c == '>' then GT
    else if c == '\n' then BR + "\n"
    else [c]
  }

  /** The escaped text: each character's text, in order. */
  function Escape(s: string): string
    decreases |s|
  {
    if s == [] then [] else EscapeChar(s[0]) + Escape(s[1..])
  }

  method HtmlCharEscape(contents: string) returns (escaped: string)
    ensures escaped == Escape(contents)
  {
    escaped := "";
    var i := 0;
    while i < |contents|
      invariant 0 <= i <= |contents|
      invariant Escape(contents) == escaped + Escape(contents[i..])
    {
      var ch := contents[i];
      assert contents[i..][1..] == contents[i + 1..];
      assert Escape(contents[i..]) == EscapeChar(ch) + Escape(contents[i + 1..]);
      var text := CharText(ch);
      ConcatAssoc(escaped, text, Escape(contents[i + 1..]));
      escaped := escaped + text;
      i := i + 1;
    }
    assert contents[i..] == [];
  }

  /** One case of the escaping switch; a line feed falls through to the default case,
      which appends the character itself. */
  method CharText(ch: char) returns (text: string)
    ensures text == EscapeChar(ch)
  {
    if ch == ' ' {
      text := NBSP;
    } else if ch == '\t' {
      text := NBSP + NBSP + NBSP + NBSP;
    } else if ch == '&' {
      text := AMP;
    } else if ch == '<' {
      text := LT;
    } else if ch == '>' {
      text := GT;
    } else {
      text := "";
      if ch == '\n' {
        text := text + BR;
      }
      text := text + [ch];
    }
  }

  /** Escaping distributes over concatenation. */
  lemma {:induction false} EscapeAppend(a: string, b: string)
    ensures Escape(a + b) == Escape(a) + Escape(b)
    decreases |a|
  {
    if a == [] {
      assert a + b == b;
    } else {
      assert (a + b)[0] == a[0];
      assert (a + b)[1..] == a[1..] + b;
      EscapeAppend(a[1..], b);
    }
  }

  lemma EscapeCharText(c: char)
    ensures ' ' !in EscapeChar(c) && '\t' !in EscapeChar(c)
    ensures c != '\n' ==> '<' !in EscapeChar(c) && '>' !in EscapeChar(c)
  {
  }

  /** Escaped text holds no space and no tab, and text without a line feed escapes to
      text without '<' and '>'. */
  lemma {:induction false} EscapedText(s: string)
    ensures ' ' !in Escape(s) && '\t' !in Escape(s)
    ensures '\n' !in s ==> '<' !in Escape(s) && '>' !in Escape(s)
    decreases |s|
  {
    if s != [] {
      EscapedText(s[1..]);
      EscapeCharText(s[0]);
      assert '\n' !in s ==> '\n' !in s[1..] && s[0] != '\n' by {
        if '\n' in s[1..] {
          var k :| 0 <= k < |s[1..]| && s[1..][k] == '\n';
          assert s[k + 1] == '\n';
        }
      }
    }
  }

  /** The characters escaping changes. */
  predicate Special(c: char)
  {
    c == ' ' || c == '\t' || c == '&' || c == '<' || c == '>' || c == '\n'
  }

  /** Text with no special character is copied unchanged. */
  lemma {:induction false} EscapeIdentity(s: string)
    requires forall i :: 0 <= i < |s| ==> !Special(s[i])
    ensures Escape(s) == s
    decreases |s|
  {
    if s != [] {
      assert !Special(s[0]);
      EscapeIdentity(s[1..]);
      assert [s[0]] + s[1..] == s;
    }
  }

  /** The inverse of escaping: entities and break elements read back as characters. */
  function Unescape(e: string): string
    decreases |e|
  {
    if e == [] then []
    else if StartsWith(e, NBSP) then [' '] + Unescape(e[|NBSP|..])
    else if StartsWith(e, AMP) then ['&'] + Unescape(e[|AMP|..])
    else if StartsWith(e, LT) then ['<'] + Unescape(e[|LT|..])
    else if StartsWith(e, GT) then ['>'] + Unescape(e[|GT|..])
    else if StartsWith(e, BR + "\n") then ['\n'] + Unescape(e[|BR| + 1..])
    else [e[0]] + Unescape(e[1..])
  }

  /** `s` does not start with `p` when they differ at position `k`. */
  lemma DiffersAt(s: string, p: string, k: nat)
    requires k < |s| && k < |p| && s[k] != p[k]
    ensures !StartsWith(s, p)
  {
    if |p| <= |s| {
      assert s[..|p|][k] == s[k];
    }
  }

  /** `p + rest` starts with `p`, and what follows it is `rest`. */
  lemma Front(p: string, rest: string)
    ensures StartsWith(p + rest, p) && (p + rest)[|p|..] == rest
  {
    assert (p + rest)[..|p|] == p;
  }

  /** Reading back one escaped character, other than a tab, gives that character. */
  lemma UnescapeChar(c: char, rest: string)
    requires c != '\t'
    ensures Unescape(EscapeChar(c) + rest) == [c] + Unescape(rest)
  {
    var e := EscapeChar(c) + rest;
    if c == ' ' {
      Front(NBSP, rest);
    } else if c == '&' {
      DiffersAt(e, NBSP, 1);
      Front(AMP, rest);
    } else if c == '<' {
      DiffersAt(e, NBSP, 1);
      DiffersAt(e, AMP, 1);
      Front(LT, rest);
    } else if c == '>' {
      DiffersAt(e, NBSP, 1);
      DiffersAt(e, AMP, 1);
      DiffersAt(e, LT, 1);
      Front(GT, rest);
    } else if c == '\n' {
      DiffersAt(e, NBSP, 0);
      DiffersAt(e, AMP, 0);
      DiffersAt(e, LT, 0);
      DiffersAt(e, GT, 0);
      assert e == BR + ("\n" + rest);
      Front(BR + "\n", rest);
    } else {
      DiffersAt(e, NBSP, 0);
      DiffersAt(e, AMP, 0);
      DiffersAt(e, LT, 0);
      DiffersAt(e, GT, 0);
      DiffersAt(e, BR + "\n", 0);
      assert e[1..] == rest;
    }
  }

  /** Text without tabs reads back from its escaped form unchanged. */
  lemma {:induction false} UnescapeEscape(s: string)
    requires '\t' !in s
    ensures Unescape(Escape(s)) == s
    decreases |s|
  {
    if s != [] {
      var tail := s[1..];
      assert s == [s[0]] + tail;
      assert '\t' !in tail;
      UnescapeChar(s[0], Escape(tail));
      UnescapeEscape(tail);
    }
  }

  /** A tab is written as four non-breaking spaces, so it reads back as four spaces. */
  lemma TabReadsBackAsSpaces()
    ensures Escape("\t") == Escape("    ")
  {
    assert "    "[1..] == "   " && "   "[1..] == "  " && "  "[1..] == " " && " "[1..] == "";
    assert "\t"[1..] == "";
  }

  // ----- value chunks -----

  /** One attribute `name="value"`, preceded by a space. */
  function AttrPair(name: string, value: string): string
  {
    " " + (name + ("=\"" + (value + "\"")))
  }

  function AttrText(attrs: seq<(string, string)>): string
    decreases |attrs|
  {
    if attrs == [] then "" else AttrPair(attrs[0].0, attrs[0].1) + AttrText(attrs[1..])
  }

  lemma {:induction false} AttrTextAppend(a: seq<(string, string)>, b: seq<(string, string)>)
    ensures AttrText(a + b) == AttrText(a) + AttrText(b)
    decreases |a|
  {
    if a == [] {
      assert a + b == b;
    } else {
      assert (a + b)[0] == a[0];
      assert (a + b)[1..] == a[1..] + b;
      AttrTextAppend(a[1..], b);
    }
  }

  /** An empty element `<name a1="v1" ... />`. */
  function EmptyTag(name: string, attrs: seq<(string, string)>): string
  {
    "<" + (name + (AttrText(attrs) + " />"))
  }

  /** A non-empty attribute of the chunk, absent when missing or empty. */
  function NonEmpty(m: map<string, string>, key: string): Option<string>
  {
    if key in m && |m[key]| > 0 then Some(m[key]) else None
  }

  function IdAttrs(id: Option<string>): seq<(string, string)>
  {
    if id.Some? then [("id", id.value), ("name", id.value)] else []
  }

  function SizeAttrs(size: Option<string>): seq<(string, string)>
  {
    if size.Some? then [("size", size.value)] else []
  }

  /** The attributes of the input element for a value chunk: a text field, identified
      and named by the chunk's id, as wide as its minlen. */
  function InputAttrs(m: map<string, string>): seq<(string, string)>
  {
    [("type", "text")] + (IdAttrs(NonEmpty(m, "id")) + SizeAttrs(NonEmpty(m, "minlen")))
  }

  const INPUT_OPEN := "<input" + " type=\"text\""

  /** The id and name attributes, after `sep`. */
  function IdText(id: Option<string>, sep: string): string
  {
    if id.Some? then sep + ("id=\"" + (id.value + ("\" name=\"" + (id.value + "\"")))) else ""
  }

  function SizeText(size: Option<string>): string
  {
    if size.Some? then " size=\"" + (size.value + "\"") else ""
  }

  /** writeValue as written: the id attribute follows the type attribute with no space. */
  function ValueHtmlAsWritten(m: map<string, string>): string
  {
    INPUT_OPEN + (IdText(NonEmpty(m, "id"), "") + (SizeText(NonEmpty(m, "minlen")) + " />"))
  }

  /** writeValue with the separating space in front of the id attribute. */
  function ValueHtml(m: map<string, string>): string
  {
    INPUT_OPEN + (IdText(NonEmpty(m, "id"), " ") + (SizeText(NonEmpty(m, "minlen")) + " />"))
  }

  lemma IdAttrText(id: Option<string>)
    ensures AttrText(IdAttrs(id)) == IdText(id, " ")
  {
    if id.Some? {
      var v := id.value;
      var a := IdAttrs(id);
      var tail := v + "\"";
      assert a[1..][1..] == [];
      var nameAttr := AttrPair("name", v);
      assert a[0] == ("id", v) && a[1..][0] == ("name", v);
      assert AttrText(a[1..]) == nameAttr + AttrText(a[1..][1..]);
      assert AttrText(a[1..]) == nameAttr;
      assert AttrText(a) == AttrPair("id", v) + nameAttr;
      // " " + ("id" + ("=\"" + tail)) + nameAttr
      ConcatAssoc("id", "=\"", tail);
      assert "id" + "=\"" == "id=\"";
      ConcatAssoc(" ", "id=\"" + tail, nameAttr);
      ConcatAssoc("id=\"", tail, nameAttr);
      ConcatAssoc(v, "\"", nameAttr);
      // "\"" + (" " + ("name" + ("=\"" + tail)))
      ConcatAssoc("name", "=\"", tail);
      assert "name" + "=\"" == "name=\"";
      ConcatAssoc(" ", "name=\"", tail);
      assert " " + "name=\"" == " name=\"";
      ConcatAssoc("\"", " name=\"", tail);
      assert "\"" + " name=\"" == "\" name=\"";
    }
  }

  lemma SizeAttrText(size: Option<string>)
    ensures AttrText(SizeAttrs(size)) == SizeText(size)
  {
    if size.Some? {
      assert SizeAttrs(size)[1..] == [];
      assert " " + "size" + "=\"" == " size=\"";
    }
  }

  /** The corrected input element is exactly the empty element with the input attributes. */
  lemma ValueHtmlIsTag(m: map<string, string>)
    ensures ValueHtml(m) == EmptyTag("input", InputAttrs(m))
  {
    var id := NonEmpty(m, "id");
    var size := NonEmpty(m, "minlen");
    var a := InputAttrs(m);
    var more := IdAttrs(id) + SizeAttrs(size);
    var p := AttrPair("type", "text");
    var i := IdText(id, " ");
    var z := SizeText(size);
    var r := i + (z + " />");
    assert a[0] == ("type", "text") && a[1..] == more;
    assert AttrText(a) == p + AttrText(more);
    AttrTextAppend(IdAttrs(id), SizeAttrs(size));
    IdAttrText(id);
    SizeAttrText(size);
    ConcatAssoc(p, i + z, " />");
    ConcatAssoc(i, z, " />");
    assert AttrText(a) + " />" == p + r;
    ConcatAssoc("input", p, r);
    ConcatAssoc("<", "input" + p, r);
    InputOpenText();
  }

  lemma InputOpenText()
    ensures "<" + ("input" + AttrPair("type", "text")) == INPUT_OPEN
  {
  }

  /** The input element starts with the text-field type and ends the empty tag. */
  lemma ValueHtmlEnds(m: map<string, string>)
    ensures StartsWith(ValueHtml(m), INPUT_OPEN) && EndsWith(ValueHtml(m), " />")
  {
    var id := IdText(NonEmpty(m, "id"), " ");
    var size := SizeText(NonEmpty(m, "minlen"));
    Front(INPUT_OPEN, id + (size + " />"));
    ConcatAssoc(INPUT_OPEN, id, size + " />");
    ConcatAssoc(INPUT_OPEN + id, size, " />");
    Back(INPUT_OPEN + id + size, " />");
  }

  /** A non-empty id of the chunk is written as the input's id and name attributes. */
  lemma ValueHtmlHasId(m: map<string, string>)
    requires "id" in m && m["id"] != ""
    ensures Contains(ValueHtml(m), IdText(Some(m["id"]), " "))
  {
    ContainsMiddle(INPUT_OPEN, IdText(Some(m["id"]), " "), SizeText(NonEmpty(m, "minlen")) + " />");
  }

  /** Without an id the two versions agree; with one, the as-written text is one
      character short of the well-formed element (the space before `id=`). */
  lemma ValueHtmlAsWrittenMissesSpace(m: map<string, string>)
    ensures NonEmpty(m, "id").None? ==> ValueHtmlAsWritten(m) == ValueHtml(m)
    ensures NonEmpty(m, "id").Some? ==> |ValueHtmlAsWritten(m)| + 1 == |ValueHtml(m)|
    ensures NonEmpty(m, "id").Some? ==> ValueHtmlAsWritten(m) != EmptyTag("input", InputAttrs(m))
  {
    ValueHtmlIsTag(m);
  }

  /** The as-written text for a chunk with id "x": `<input type="text"id="x" name="x" />`. */
  lemma ValueHtmlAsWrittenExample()
    ensures ValueHtmlAsWritten(map["id" := "x"]) == INPUT_OPEN + ("id=\"x\"" + (" name=\"x\"" + " />"))
  {
    var m := map["id" := "x"];
    assert NonEmpty(m, "id") == Some("x");
    assert NonEmpty(m, "minlen") == None;
  }

  // ----- blocks -----

  /** What the sink reads from a chunk when writing a block. */
  datatype Run = Run(contents: Option<string>, attrs: AttrList, isValue: bool)

  /** Every text run has contents (escaping the contents of one without throws). */
  predicate Renderable(runs: seq<Run>)
  {
    forall i :: 0 <= i < |runs| && !runs[i].isValue ==> runs[i].contents.Some?
  }

  /** The start of the block element, without its closing '>'. */
  function BlockOpen(tag: string, name: string): string
  {
    "    <" + (tag + (" class=\"" + (name + "\"")))
  }

  function BlockClose(tag: string): string
  {
    "</" + (tag + ">\n")
  }

  function StyleAttrText(htmlAttrs: map<string, string>): string
  {
    if "style" in htmlAttrs then " style=\"" + (htmlAttrs["style"] + "\"") else ""
  }

  /** A text run: the block element's start for the first run, a span for the others. */
  function TextRunHtml(tag: string, name: string, run: Run, first: bool): string
    requires run.contents.Some?
  {
    (if first then BlockOpen(tag, name) else "<span")
    + (StyleAttrText(HtmlAttrs(run.attrs, first)) + (">"
    + (Escape(run.contents.value)
    + (if first then "" else "</span>"))))
  }

  /** writeBlock's text for the run at index `i`, as written. */
  function RunHtmlAsWritten(tag: string, name: string, run: Run, i: nat): string
    requires run.isValue || run.contents.Some?
  {
    if run.isValue then ValueHtmlAsWritten(ToMap(run.attrs))
    else TextRunHtml(tag, name, run, i == 0)
  }

  /** The text of the runs, the first of them standing at index `k`. */
  function BodyAsWrittenFrom(tag: string, name: string, runs: seq<Run>, k: nat): string
    requires Renderable(runs)
    decreases |runs|
  {
    if runs == [] then ""
    else RunHtmlAsWritten(tag, name, runs[0], k) + BodyAsWrittenFrom(tag, name, runs[1..], k + 1)
  }

  /** writeBlock as written: a leading value chunk never opens the block element, yet the
      element is closed at the end. */
  function BlockHtmlAsWritten(tag: string, name: string, runs: seq<Run>): string
    requires Renderable(runs)
  {
    BodyAsWrittenFrom(tag, name, runs, 0) + BlockClose(tag)
  }

  /** The corrected text for the run at index `i`: a leading value chunk opens the block
      element before its input, and inputs carry the space before their id. */
  function RunHtml(tag: string, name: string, run: Run, i: nat): string
    requires run.isValue || run.contents.Some?
  {
    if run.isValue then
      (if i == 0 then BlockOpen(tag, name) + ">" else "") + ValueHtml(ToMap(run.attrs))
    else TextRunHtml(tag, name, run, i == 0)
  }

  function BodyFrom(tag: string, name: string, runs: seq<Run>, k: nat): string
    requires Renderable(runs)
    decreases |runs|
  {
    if runs == [] then ""
    else RunHtml(tag, name, runs[0], k) + BodyFrom(tag, name, runs[1..], k + 1)
  }

  function BlockHtml(tag: string, name: string, runs: seq<Run>): string
    requires Renderable(runs)
  {
    BodyFrom(tag, name, runs, 0) + BlockClose(tag)
  }

  /** A prefix of `a` is a prefix of `a + b`. */
  lemma PrefixOfConcat(p: string, a: string, b: string)
    requires StartsWith(a, p)
    ensures StartsWith(a + b, p)
  {
    assert (a + b)[..|p|] == a[..|p|];
  }

  /** The corrected text of a first run starts by opening the block element. */
  lemma FirstRunOpens(tag: string, name: string, r: Run)
    requires r.isValue || r.contents.Some?
    ensures StartsWith(RunHtml(tag, name, r, 0), BlockOpen(tag, name))
  {
    var open := BlockOpen(tag, name);
    if r.isValue {
      Front(open, ">");
      PrefixOfConcat(open, open + ">", ValueHtml(ToMap(r.attrs)));
    } else {
      Front(open, StyleAttrText(HtmlAttrs(r.attrs, true)) + (">" + (Escape(r.contents.value) + "")));
    }
  }

  /** The corrected text of a non-empty block starts by opening the block element and
      ends by closing it, whatever kind its first chunk is. */
  lemma BlockHtmlEnclosed(tag: string, name: string, runs: seq<Run>)
    requires Renderable(runs) && runs != []
    ensures StartsWith(BlockHtml(tag, name, runs), BlockOpen(tag, name))
    ensures EndsWith(BlockHtml(tag, name, runs), BlockClose(tag))
  {
    var open := BlockOpen(tag, name);
    var first := RunHtml(tag, name, runs[0], 0);
    var body := BodyFrom(tag, name, runs, 0);
    assert body == first + BodyFrom(tag, name, runs[1..], 1);
    FirstRunOpens(tag, name, runs[0]);
    PrefixOfConcat(open, first, BodyFrom(tag, name, runs[1..], 1));
    PrefixOfConcat(open, body, BlockClose(tag));
    Back(body, BlockClose(tag));
  }

  /** As written, a block whose first chunk is a value chunk does not open the block
      element (its text starts with the input element) but still closes it. */
  lemma BlockHtmlAsWrittenUnopened(tag: string, name: string, runs: seq<Run>)
    requires Renderable(runs) && runs != [] && runs[0].isValue
    ensures !StartsWith(BlockHtmlAsWritten(tag, name, runs), BlockOpen(tag, name))
    ensures EndsWith(BlockHtmlAsWritten(tag, name, runs), BlockClose(tag))
  {
    var body := BodyAsWrittenFrom(tag, name, runs, 0);
    var v := ValueHtmlAsWritten(ToMap(runs[0].attrs));
    var rest := BodyAsWrittenFrom(tag, name, runs[1..], 1);
    assert body == v + rest;
    var s := body + BlockClose(tag);
    assert v[0] == '<' by {
      assert INPUT_OPEN[0] == '<';
    }
    assert s[0] == '<';
    assert BlockOpen(tag, name)[0] == ' ';
    DiffersAt(s, BlockOpen(tag, name), 0);
    Back(body, BlockClose(tag));
  }

  /** A span's text disregards the chunk's indent and align attributes. */
  lemma SpanIgnoresLayout(tag: string, name: string, run: Run, i: nat)
    requires !run.isValue && run.contents.Some? && i > 0
    ensures RunHtml(tag, name, run, i) == RunHtml(tag, name, run.(attrs := FontStyleEntries(run.attrs)), i)
  {
    InlineStyleOnlyFontStyle(run.attrs);
  }
}
