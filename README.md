# TextPDF core, modelled in Dafny

TextPDF (package `com.lucky_byte.pdf`) turns an XML template and JSON data into a PDF or
HTML document. This project models its string and state components and proves properties
of them:

- the **HTML sink** `HTMLDoc`: it maps block names to elements, builds a CSS style from a
  chunk's attributes, escapes text, writes inputs for value chunks, writes a block of chunks
  as one element, and fills in and writes the document header and footer;
- the **styled run** `TextChunk`, with its attribute map;
- the **minimal HTML handler** `TextHTMLHandler`: it trims and buffers character data,
  writes one element per title, section and para, and fills in the same header;
- the **sink base** `TextDoc`: the output stream, page size and margins;
- the line-split rule `PipeSplitCharacter`;
- the command line of `TextPDF.main` and the argument guards of both `gen` calls.

Files:

| file | module | models |
|---|---|---|
| `wrappers.dfy` | `Wrappers` | `Option` (Java null) and `Result` (a thrown exception) |
| `java_strings.dfy` | `JavaStrings` | `equalsIgnoreCase`, `trim`, `split`, `replace`, `startsWith`/`endsWith` |
| `attr_maps.dfy` | `AttrMaps` | `Map<String,String>` as an association list with unique keys |
| `text_doc.dfy` | `TextDocs` | the output stream, `Rectangle`, `TextDoc` |
| `text_chunk.dfy` | `TextChunks` | `TextChunk` |
| `html_header.dfy` | `HtmlHeader` | the header template, the footer and the three placeholder replacements |
| `html_render.dfy` | `HtmlRender` | what `HTMLDoc` writes, as functions, plus its loop helpers |
| `html_doc.dfy` | `HtmlDocs` | the `HTMLDoc` object and its writes |
| `text_html_handler.dfy` | `TextHtmlHandlers` | `TextHTMLHandler` |
| `pipe_split.dfy` | `PipeSplit` | `PipeSplitCharacter` |
| `text_pdf.dfy` | `TextPdf` | `TextPDF.main`'s argument handling and the `gen` guards |

Modelling choices:

- An output stream is an object whose `written` text only grows. Writing a string appends
  it.
- A Java `null` is `None`. An exception that a method catches and reports is a result value.
- `HTMLDoc extends TextDoc` becomes composition. An `HtmlDoc` owns a `TextDoc` in `base`.
- Lines that `HTMLDoc` prints to the error stream are collected in `diagnostics`.
- A `HashMap`'s iteration order is modelled as its insertion order. The association list
  keeps keys in first-insertion order. Putting an existing key replaces its value in place.
- `URL.getPath()` is the URL's path string. A null URL is `None`.
- A parsed JSON document is a `JsonValue`. The data object is an optional map from names to
  values.
- `HTMLDoc.writeBlock` calls `chunk.isValue()`, but `TextChunk.java` declares no such
  method. The model gives the chunk an `isValue` field. The field is false unless set, and a
  clone's is false.

## Model

| member | source | states |
|---|---|---|
| `HtmlRender.GetHtmlLabel` | src/com/lucky_byte/pdf/HTMLDoc.java:100-114 | The table search returns the element of the first entry whose name equals the block name ignoring case: title→h1, chapter→h2, section→h3, para→p. Every other name gives none. |
| `HtmlRender.HtmlLabelIgnoresCase` | src/com/lucky_byte/pdf/HTMLDoc.java:107-114 | Names that differ only in letter case map to the same element. |
| `HtmlRender.GetHtmlAttrs` | src/com/lucky_byte/pdf/HTMLDoc.java:116-145 | The attribute scan appends each attribute's declarations in iteration order. The result is the style map of the whole style text. |
| `HtmlRender.EntryText` | src/com/lucky_byte/pdf/HTMLDoc.java:123-139 | A font-style declaration comes from the split, trimmed tokens. An indent gives `text-indent: Npx;` and an align gives `text-align: X;`, both only on the block element. Other keys add nothing. |
| `HtmlRender.FontStyleText` | src/com/lucky_byte/pdf/HTMLDoc.java:124-134 | The token loop concatenates each trimmed token's declaration, in order. |
| `HtmlRender.TokensStyleNonEmptyIff` | src/com/lucky_byte/pdf/HTMLDoc.java:124-134 | A font-style value adds a declaration exactly when one of its comma-separated, trimmed tokens is bold, italic or underline, in any case. |
| `HtmlRender.KnownTokenStyle` | src/com/lucky_byte/pdf/HTMLDoc.java:126-133 | A token adds a declaration exactly when it is bold, italic or underline, in any case. |
| `HtmlRender.TokenStyleIgnoresCase` | src/com/lucky_byte/pdf/HTMLDoc.java:126-133 | Tokens that differ only in letter case add the same declaration. |
| `HtmlRender.UnknownTokenAddsNothing` | src/com/lucky_byte/pdf/HTMLDoc.java:126-133 | A token other than bold, italic and underline adds nothing. |
| `HtmlRender.HtmlAttrsShape` | src/com/lucky_byte/pdf/HTMLDoc.java:119-144 | The only key the HTML attribute map can hold is `style`. The key is present exactly when some attribute adds a declaration. |
| `HtmlRender.StyleNonEmptyIff` | src/com/lucky_byte/pdf/HTMLDoc.java:122-141 | The style text is non-empty exactly when some attribute adds a declaration. |
| `HtmlRender.InlineStyleOnlyFontStyle` | src/com/lucky_byte/pdf/HTMLDoc.java:135-138 | Off the block element, only font-style attributes contribute. The style equals the style of the font-style entries alone. |
| `HtmlRender.HtmlCharEscape` | src/com/lucky_byte/pdf/HTMLDoc.java:147-174 | The loop escapes each character on its own and concatenates the results in order. |
| `HtmlRender.CharText` | src/com/lucky_byte/pdf/HTMLDoc.java:151-171 | One character's case of the switch. Space, tab, `&`, `<` and `>` become entities (a tab becomes four spaces). A line feed becomes a break element followed by the line feed. Any other character is kept. |
| `HtmlRender.EscapeAppend` | src/com/lucky_byte/pdf/HTMLDoc.java:149-172 | Escaping distributes over concatenation. |
| `HtmlRender.EscapeIdentity` | src/com/lucky_byte/pdf/HTMLDoc.java:151-171 | Text with no space, tab, `&`, `<`, `>` or newline is returned unchanged. |
| `HtmlRender.EscapedText` | src/com/lucky_byte/pdf/HTMLDoc.java:151-171 | Escaped text holds no space and no tab. Text without a line feed escapes to text without `<` and `>`. |
| `HtmlRender.UnescapeEscape` | src/com/lucky_byte/pdf/HTMLDoc.java:151-171 | Reading the entities and break elements back recovers every tab-free input. |
| `HtmlRender.UnescapeChar` | src/com/lucky_byte/pdf/HTMLDoc.java:151-171 | Each character other than a tab reads back from its own escaped text. This includes the newline, whose case falls through to also copy the character. |
| `HtmlRender.TabReadsBackAsSpaces` | src/com/lucky_byte/pdf/HTMLDoc.java:152-157 | A tab escapes to the same text as four spaces, so escaping is not injective. |
| `HtmlRender.ValueHtmlIsTag` | src/com/lucky_byte/pdf/HTMLDoc.java:176-188 | The (corrected) input for a value chunk is one empty `input` element. Its attributes are `type="text"`, then `id` and `name` for a non-empty id, then `size` for a non-empty minlen. |
| `HtmlRender.ValueHtmlEnds` | src/com/lucky_byte/pdf/HTMLDoc.java:176-188 | The input text starts with `<input type="text"` and ends with ` />`. |
| `HtmlRender.ValueHtmlHasId` | src/com/lucky_byte/pdf/HTMLDoc.java:179-182 | A non-empty id is written as the id and name attributes. |
| `HtmlRender.ValueHtmlAsWrittenMissesSpace` | src/com/lucky_byte/pdf/HTMLDoc.java:178-181 | As written, an input with an id is one character shorter than the corrected one and is not a well-formed tag. Without an id the two agree. |
| `HtmlRender.ValueHtmlAsWrittenExample` | src/com/lucky_byte/pdf/HTMLDoc.java:178-187 | For id `x`, the text as written runs `"text"id="x"`, with no space between the attributes. |
| `HtmlRender.FirstRunOpens` | src/com/lucky_byte/pdf/HTMLDoc.java:209-211 | The (corrected) text of the run at index 0 starts with the block element's start tag. |
| `HtmlRender.BlockHtmlEnclosed` | src/com/lucky_byte/pdf/HTMLDoc.java:203-225 | The (corrected) block text starts with `    <tag class="name"` and ends with `</tag>\n`. |
| `HtmlRender.BlockHtmlAsWrittenUnopened` | src/com/lucky_byte/pdf/HTMLDoc.java:203-225 | As written, a block whose first chunk is a value never writes the element's start tag but still writes its end tag. |
| `HtmlRender.SpanIgnoresLayout` | src/com/lucky_byte/pdf/HTMLDoc.java:213-222 | A span's text does not depend on the chunk's indent or align attributes. |
| `HtmlDocs.HtmlDoc.constructor` | src/com/lucky_byte/pdf/HTMLDoc.java:18-36 | A new document is closed and has the untouched template, no data object and no URLs. Its base has the given stream, A4 and 50-point margins. |
| `HtmlDocs.HtmlDoc.SetJsonObject` | src/com/lucky_byte/pdf/HTMLDoc.java:38-40 | Sets the data object and changes nothing else. |
| `HtmlDocs.HtmlDoc.SetUrl` | src/com/lucky_byte/pdf/HTMLDoc.java:42-45 | Sets both URL paths and changes nothing else. |
| `HtmlDocs.HtmlDoc.Open` | src/com/lucky_byte/pdf/HTMLDoc.java:60-86 | Without a stream: returns false and changes nothing. Otherwise: the header becomes its replaced form, the document is open, exactly the header is appended, and it returns true. On the template, each placeholder whose datum is present is replaced (a string title, a non-null URL) and the others stay. |
| `HtmlDocs.HtmlDoc.Close` | src/com/lucky_byte/pdf/HTMLDoc.java:88-93 | Appends exactly the footer when the document is open and has a stream. Otherwise it writes nothing. |
| `HtmlDocs.HtmlDoc.NewPage` | src/com/lucky_byte/pdf/HTMLDoc.java:228-231 | Appends exactly `<hr/>`. |
| `HtmlDocs.HtmlDoc.WriteValue` | src/com/lucky_byte/pdf/HTMLDoc.java:176-188 | Appends the (corrected) input element of the chunk's attributes. |
| `HtmlDocs.HtmlDoc.WriteRun` | src/com/lucky_byte/pdf/HTMLDoc.java:204-223 | Appends the corrected text of one chunk at its index. The first chunk gets the start tag with its style. Other chunks get a span. A value chunk gets an input. |
| `HtmlDocs.HtmlDoc.WriteBody` | src/com/lucky_byte/pdf/HTMLDoc.java:203-224 | The chunk loop appends each chunk's text in order. |
| `HtmlDocs.HtmlDoc.WriteBlock` | src/com/lucky_byte/pdf/HTMLDoc.java:190-226 | Without a stream or chunks it does nothing. For an unknown block name it only adds the diagnostic. Otherwise it appends the corrected block text and closes the element once. |
| `HtmlHeader.HeaderShape` | src/com/lucky_byte/pdf/HTMLDoc.java:22-83 | Filling in the template puts a string title, the stylesheet link and the script element in their places. A placeholder whose datum is absent stays in the text. |
| `HtmlHeader.FillHeader` | src/com/lucky_byte/pdf/TextHTMLHandler.java:93-111 | The three successive replace calls. Applied to the template, they give the header with each present datum in its place. |
| `TextChunks.TextChunk.constructor` | src/com/lucky_byte/pdf/TextChunk.java:33-38 | A new chunk has no contents and an empty attribute map. |
| `TextChunks.TextChunk.SetContents` | src/com/lucky_byte/pdf/TextChunk.java:40-46 | The contents read back as the value just set. The attributes are unchanged. |
| `TextChunks.TextChunk.AddAttrs` | src/com/lucky_byte/pdf/TextChunk.java:52-58 | Puts the SAX attributes in index order. The map is the old map with each pair put in turn. |
| `AttrMaps.PutAllLastWins` | src/com/lucky_byte/pdf/TextChunk.java:52-58 | After the SAX attributes are put, a name maps to the value of its last attribute. A key with no attribute keeps its old value, or stays absent. |
| `TextChunks.TextChunk.AddAttrsFromMap` | src/com/lucky_byte/pdf/TextChunk.java:60-65 | Afterwards the map is the old map overridden by the argument. Every argument key has the argument's value and every other key keeps its old one. |
| `TextChunks.TextChunk.AddAttr` | src/com/lucky_byte/pdf/TextChunk.java:67-71 | A null key or value leaves the attributes unchanged. Otherwise the key maps to the value and every other key is unchanged. |
| `TextChunks.TextChunk.Clone` | src/com/lucky_byte/pdf/TextChunk.java:73-83 | Requires non-null contents. The clone is a fresh object with the same attribute list, the same map and equal contents, so later changes to it leave the original alone. |
| `AttrMaps.Put` | src/com/lucky_byte/pdf/TextChunk.java:56 | `Map.put`: the denoted map is the old map with the key updated. An existing key keeps its place and a new key is appended. |
| `AttrMaps.PutKeepsUnique` | src/com/lucky_byte/pdf/TextChunk.java:56 | Putting keeps keys unique, which is the invariant `Valid` of a chunk. |
| `AttrMaps.ToMapKeys` | src/com/lucky_byte/pdf/TextChunk.java:34 | The map's keys are exactly the list's keys. |
| `AttrMaps.ToMapAt` | src/com/lucky_byte/pdf/TextChunk.java:34 | The first entry for a key gives its value in the map. |
| `TextDocs.TextDoc.constructor` | src/com/lucky_byte/pdf/TextDoc.java:38-47 | Stores the given stream, with an A4 page and all four margins 50. |
| `TextDocs.TextDoc.SetPageSize` | src/com/lucky_byte/pdf/TextDoc.java:53-55 | Replaces only the page size. The margins are unchanged. |
| `TextDocs.TextDoc.SetPageMargin` | src/com/lucky_byte/pdf/TextDoc.java:64-69 | Sets left, right, top and bottom to the arguments in that order. The page size is unchanged. |
| `TextHtmlHandlers.TextHtmlHandler.constructor` | src/com/lucky_byte/pdf/TextHTMLHandler.java:46-64 | A new handler has an empty buffer, no data object and the untouched template. |
| `TextHtmlHandlers.TextHtmlHandler.WriteHtmlStream` | src/com/lucky_byte/pdf/TextHTMLHandler.java:66-73 | Appends the text. Without a stream it fails with `Write to stream failed.`. |
| `TextHtmlHandlers.JsonAfterParse` | src/com/lucky_byte/pdf/TextHTMLHandler.java:80-92 | A JSON stream that does not parse, or parses to a value that is neither an object nor null, is a failure. An object becomes the data object, and a JSON null clears it. Without a stream the old object stays. |
| `TextHtmlHandlers.TextHtmlHandler.StartDocument` | src/com/lucky_byte/pdf/TextHTMLHandler.java:78-113 | A JSON failure gives `Failed to parse JSON stream` and changes nothing else. Otherwise the header is replaced as in `HeaderShape` and written, and the call fails only without a stream. |
| `TextHtmlHandlers.TextHtmlHandler.EndDocument` | src/com/lucky_byte/pdf/TextHTMLHandler.java:118-121 | Appends exactly the footer, or fails without a stream. |
| `TextHtmlHandlers.TextHtmlHandler.StartElement` | src/com/lucky_byte/pdf/TextHTMLHandler.java:126-130 | An opening tag changes nothing. |
| `TextHtmlHandlers.TextHtmlHandler.EndElement` | src/com/lucky_byte/pdf/TextHTMLHandler.java:135-154 | title, section and para (any case) append `    <h1>`/`<h2>`/`<p>`, the buffer verbatim, then the matching end tag after four spaces and a newline, and clear the buffer. Other names change nothing. Without a stream the call fails and the buffer is kept. |
| `TextHtmlHandlers.TextHtmlHandler.Characters` | src/com/lucky_byte/pdf/TextHTMLHandler.java:159-164 | Appends the trimmed slice. Whitespace-only data leaves the buffer unchanged. The buffer stays trimmed at both ends. |
| `TextHtmlHandlers.HeadingTextRoundTrip` | src/com/lucky_byte/pdf/TextHTMLHandler.java:139-151 | The buffered text can be recovered unchanged from the element written for it. |
| `TextHtmlHandlers.AppendTrimmed` | src/com/lucky_byte/pdf/TextHTMLHandler.java:163 | Trimmed text appended to trimmed text is trimmed. |
| `JavaStrings.TrimEmptyIff` | src/com/lucky_byte/pdf/TextHTMLHandler.java:163 | `trim` gives the empty string exactly for text made only of characters up to space. |
| `JavaStrings.JoinSplitAll` | src/com/lucky_byte/pdf/HTMLDoc.java:124 | The full split, before `split` drops trailing empty fields, rejoins to the text when its fields are joined with the separator. |
| `JavaStrings.SplitAllFields` | src/com/lucky_byte/pdf/HTMLDoc.java:124 | No field of the full split contains the separator. |
| `JavaStrings.SplitDropsTrailingEmpty` | src/com/lucky_byte/pdf/HTMLDoc.java:124 | `split` gives a prefix of the full split, and every field it drops is empty. |
| `HtmlRender.SplitStyleLikeSplitAll` | src/com/lucky_byte/pdf/HTMLDoc.java:124-134 | The empty fields `split` drops would add no declaration, so a font-style value's style is that of all its comma-separated fields. |
| `JavaStrings.TrimKeepsInner` | src/com/lucky_byte/pdf/TextHTMLHandler.java:163 | `trim` leaves unchanged a string whose first and last characters are above space. |
| `JavaStrings.ReplaceAbsent` | src/com/lucky_byte/pdf/HTMLDoc.java:69-82 | `replace` leaves text without the target unchanged. |
| `PipeSplit.IsSplitCharacter` | src/com/lucky_byte/pdf/PipeSplitCharacter.java:9-20 | Without chunks, the current character decides. With chunks, its equivalent in the chunk at `current` decides, or in the last chunk past their end, cast to 16 bits. A line may break after `\|`, `-` or any code up to space. |
| `PipeSplit.ChunkIndex` | src/com/lucky_byte/pdf/PipeSplitCharacter.java:16 | `min(current, length - 1)` is in bounds for a non-empty chunk array. |
| `PipeSplit.IgnoresBounds` | src/com/lucky_byte/pdf/PipeSplitCharacter.java:9-18 | The result does not depend on `start` or `end`. |
| `PipeSplit.UnmappedLikeNoChunks` | src/com/lucky_byte/pdf/PipeSplitCharacter.java:13-17 | A chunk that does not remap the character decides as no chunks do. |
| `PipeSplit.LettersAndDigitsDoNotBreak` | src/com/lucky_byte/pdf/PipeSplitCharacter.java:18 | Letters and digits are never split characters. |
| `PipeSplit.WideEquivalentTruncates` | src/com/lucky_byte/pdf/PipeSplitCharacter.java:16-18 | An equivalent of 0x1007C is cast to `\|`, so the line may break. |
| `TextPdf.SplitArguments` | src/com/lucky_byte/pdf/TextPDF.java:100-115 | The option loop computes the scan of the arguments. |
| `TextPdf.ScanAppend` | src/com/lucky_byte/pdf/TextPDF.java:103-115 | Arguments that scan fully, followed by more, scan as the two parts combined. |
| `TextPdf.NoOptionKeepsAll` | src/com/lucky_byte/pdf/TextPDF.java:112-114 | Without `-o`, every argument is positional, in order. |
| `TextPdf.LastOptionWins` | src/com/lucky_byte/pdf/TextPDF.java:104-114 | The last `-o`'s value is the output name and is not positional. Every other argument stays positional in order, and an earlier `-o` is overridden. |
| `TextPdf.DanglingAtEnd` | src/com/lucky_byte/pdf/TextPDF.java:105-108 | `-o` as the last argument is an error. |
| `TextPdf.OptionNeverPositional` | src/com/lucky_byte/pdf/TextPDF.java:104-114 | `-o` itself is never a positional argument. |
| `TextPdf.CommandLine` | src/com/lucky_byte/pdf/TextPDF.java:99-147 | Checks in the source's order: the dangling option, fewer than two positional arguments, a missing template, a missing data file, an existing output. Then it generates, converting a `.doc` template first. |
| `TextPdf.GenerateOnlyWhenSafe` | src/com/lucky_byte/pdf/TextPDF.java:117-144 | Generation happens only from the first two positional arguments, both existing, into a file that does not exist. |
| `TextPdf.DefaultOutputName` | src/com/lucky_byte/pdf/TextPDF.java:137-139 | Without `-o`, for any list of two or more arguments, the output is the template name followed by `.pdf`. Arguments after the first two are ignored. |
| `TextPdf.DanglingReported` | src/com/lucky_byte/pdf/TextPDF.java:105-108 | A trailing `-o` is reported before any file is looked up. |
| `TextPdf.GenFromFiles` | src/com/lucky_byte/pdf/TextPDF.java:58-68 | Throws IllegalArgumentException exactly when an argument is null. Otherwise it reads the template and data from their files into the output file. |
| `TextPdf.GenFromStrings` | src/com/lucky_byte/pdf/TextPDF.java:80-92 | Throws IllegalArgumentException exactly when an argument is null. Otherwise it reads the template and data from the strings. |
| `TextPdf.CommandLineGenerates` | src/com/lucky_byte/pdf/TextPDF.java:146-160 | Every generation the command line decides on passes the file-based `gen` guard, with the template, data and output names as arguments. |

## Left out

- Letter case is folded only for ASCII. Java's `equalsIgnoreCase` also folds other letters.
- Character encoding is not modelled. The UTF-8 byte conversion of every write is omitted, and a string stands for its bytes.
- `IOException` and `UnsupportedEncodingException` during a write are not modelled, and neither are `HTMLDoc.writeStream`'s error lines or return value. A write to a present stream always succeeds.
- JSON parsing by json-simple is not modelled. Its outcome is an input, `JsonSource`.
- `TextParser`, `PDFDoc` and `PDFProcess` are not part of this model. They are SAX and iText plumbing with no logic of their own, or watermarking done in floating point.
- `TextPDF.main` does its file work through the file system, which is not modelled. Existence checks are a set of existing names. Temporary files, the `.doc` conversion by `DocReader` and the generation itself are not modelled; the model only reports whether conversion happens.
- The usage text and the messages `main` prints are not modelled. Its outcome names the error instead.
- `Rectangle` and `PageSize.A4` are a width and height pair, with A4 as 595 × 842 points.
- `HtmlDocs.HtmlDoc.WriteRun`: the source loops over the keys of the HTML attribute map. The model writes the style attribute when present, which `HtmlAttrsShape` shows is the only key.
- `HtmlDocs.HtmlDoc.NewPage`: writing without a stream throws a NullPointerException, so the model requires a stream.
- `HtmlDocs.HtmlDoc.WriteBlock`: escaping a text chunk with null contents throws, so the model requires contents for every text chunk of a mapped block.
- `HtmlHeader.HeaderShape`: stated only when the title holds no later placeholder and the stylesheet path holds no script placeholder. Otherwise Java's successive replace calls would also rewrite the substituted text. `Substitute` still models that case exactly.
- `TextChunks.TextChunk.AddAttrsFromMap`: a Java map may hold null values, and `new String(null)` then throws a NullPointerException. The model's `map<string, string>` has no nulls, so that path is left out.
- `PipeSplit.IsSplitCharacter`: an empty chunk array or an out-of-range `current` throws in the source, so the model requires a valid index.
- `TextChunk.getContents` and `getAttrs` are field reads, modelled by `contents` and `Attrs()`.
- `HTMLDoc.isOpen` is a field read, modelled by `IsOpen()`.
- The iteration order of `addAttrs(Map)` over the argument map is not modelled. Its keys are distinct, so the resulting map does not depend on it.

## Findings

| source | as written | input that shows it | evidently intended | confidence | as-written member | corrected member |
|---|---|---|---|---|---|---|
| src/com/lucky_byte/pdf/HTMLDoc.java:178-181 | `writeValue` writes `<input type="text"` and then `id="…"` with no space between them | a value chunk with `id` = `x` gives `<input type="text"id="x" name="x" />` | a space before `id`, giving a well-formed empty `input` tag | not executed; high | `HtmlRender.ValueHtmlAsWrittenMissesSpace` | `HtmlRender.ValueHtmlIsTag` |
| src/com/lucky_byte/pdf/HTMLDoc.java:203-225 | the block element's start tag is written only for a non-value chunk at index 0, but its end tag is always written | a block whose first chunk is a value chunk gives `<input …/>…</p>` with no `<p` | the block element opened before the first chunk, whatever its kind | not executed; medium | `HtmlRender.BlockHtmlAsWrittenUnopened` | `HtmlRender.BlockHtmlEnclosed` |
