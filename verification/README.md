# Univer conversion engine, modelled in Dafny

This project models the conversion engine of a browser spreadsheet and
document playground built on Univer. The engine converts in both
directions between parsed office files and Univer's in-memory models, and
the project proves properties of that model.

Sheets:
- a workbook read by an xlsx reader becomes a Univer workbook snapshot, and
  CSV or plain text becomes a one-sheet workbook (`SheetImport`,
  `GridBuilder`);
- a snapshot is exported back to an Excel workbook description
  (`SheetExport`).

Documents:
- plain text, rendered `.docx` HTML or a JSON document becomes a Univer
  document (`DocImport`);
- a document is exported back to a docx document description
  (`DocExport`).

Supporting modules:
- `Colors` normalises Excel and CSS colours.
- `StyleConverter` turns Excel cell styles into Univer styles, and
  `DefaultStyles` merges them with the default cell style.
- `TextProcessor` turns HTML and Excel rich-text XML into rich-text
  documents.
- `RowHeight` estimates row heights from content, including CJK detection
  and wrap estimates.
- `WorkerTasks` is the background task manager. It is modelled as a pure
  event-transition system.
- `RoundTrips` relates what the importers produce to what the exporters
  write back.

JavaScript semantics are spelled out where the code depends on them:
- `JsText` covers `trim` and `substring` clamping. Its case mapping is
  limited to the ASCII letters; JavaScript maps all of Unicode (see
  "## Left out").
- `JsNumber` covers `Number()`, `parseInt`, `parseFloat` and `Math.round`.
  Its number-to-text conversion is limited to the plain decimal form (see
  "## Left out").
- `JsObject` covers property assignment on plain objects and the key order
  of `Object.entries`: array-index keys first, in ascending numeric order,
  then the other keys in creation order.
- `Sorting` is the stable sort by a numeric key that `Array.prototype.sort`
  gives the converters.
- `Model` holds the shared records: style, cell, sheet, workbook and
  document body.

Outside services enter as parameters or as already-parsed inputs:
- the DOM and XML parsers;
- `JSON.parse`;
- the xlsx reader's output;
- `docx-preview`'s rendered HTML;
- the clock behind generated ids.

The properties proved fall into three kinds:
- round trips: CSV text, text documents, heading levels, border names,
  colours, formulas and cell values;
- invariants: well-formed document bodies, sorted markers, merge anchors,
  and tasks settled at most once;
- reference definitions: the clamped row height and the text that the
  exported runs spell.

## Model

| member | source | states |
|---|---|---|
| JsObject.Find | src/components/UniverComponent/utils-data.ts:401 | the position of the first property with the key, or the length when there is none |
| JsObject.Get | src/components/UniverComponent/utils-data.ts:401 | a property reads its value; a missing key reads nothing |
| JsObject.Assign | src/components/UniverComponent/utils-data.ts:401 | after `o[k] = v` the key reads `v` and every other key reads as before; an existing key keeps its place, a new one goes last |
| JsObject.Build | src/components/UniverComponent/utils-data.ts:237-401 | the assignments make an object with unique keys holding every assigned key, and only assigned pairs |
| JsObject.BuildLastWins | src/components/UniverComponent/utils-data.ts:401 | each key reads the value of its last assignment |
| JsObject.BuildDistinct | src/components/UniverComponent/utils-data.ts:251-401 | assignments to distinct keys create the properties in assignment order |
| JsObject.Entries | src/components/UniverComponent/data-converter.ts:179 | the listing is a permutation of the properties with array-index keys first, ascending, and the other keys in creation order; with no array-index key it is the properties in order |
| JsObject.EntriesOfBuild | src/components/UniverComponent/data-converter.ts:179 | listing a built object lists only assigned pairs and every assigned key; with distinct keys it lists the pairs themselves |
| Colors.IndexedColor | src/components/UniverComponent/styles/color-utils.ts:165-169 | always an upper-case `#RRGGBB`; integral indexes in [0, 127] pick their palette entry, indexes outside the range clamp to entry 0 or 127, a fractional index inside the range misses the table and gives black |
| Colors.ThemeBase | src/components/UniverComponent/styles/color-utils.ts:259-273 | an integral theme index below 12 picks its theme entry; any other index falls back to the default colour |
| Colors.DropAlpha | src/components/UniverComponent/styles/color-utils.ts:245-248 | an eight-character ARGB value loses its two alpha digits; any other length is kept |
| Colors.ProcessExcelColor | src/components/UniverComponent/styles/color-utils.ts:238-296 | precedence: a non-object gives the default; a non-empty string `rgb` wins with its alpha dropped; then a numeric `indexed`; then a numeric `theme` with its tint; otherwise the default |
| Colors.TintedTheme | src/components/UniverComponent/styles/color-utils.ts:273-287 | a zero or non-numeric tint keeps the theme colour; a nonzero numeric tint scales its brightness by 1 + tint/2, for positive and negative tints alike |
| Colors.ProcessExcelColorWellFormed | src/components/UniverComponent/styles/color-utils.ts:238-296 | for colour objects whose `rgb` is six or eight hex digits and a hex default, the result is always a `#` and six hex digits |
| Colors.AdjustBrightnessOfHexColor | src/components/UniverComponent/styles/color-utils.ts:304-313 | a hex colour stays a well-formed lower-case hex colour after any brightness factor: every channel is clamped into [0, 255] |
| Colors.AdjustBrightnessIdentity | src/components/UniverComponent/styles/color-utils.ts:304-313 | factor 1 leaves a lower-case hex colour unchanged: each channel is parsed and re-emitted exactly |
| Colors.AdjustBrightnessZero | src/components/UniverComponent/styles/color-utils.ts:304-313 | factor 0 turns every hex colour into `#000000` |
| Colors.NamedColor | src/components/UniverComponent/styles/color-utils.ts:205-229 | a colour is found exactly for the twenty listed names, each mapped to an upper-case hex colour; the inherited `Object.prototype` members are not (see "## Left out") |
| Colors.RgbSearch | src/components/UniverComponent/styles/color-utils.ts:194 | the `rgb(...)`/`rgba(...)` pattern matches anywhere in the text (`match` is not anchored); the result is absent exactly when no position matches, and otherwise is the match at the leftmost matching position |
| Colors.RgbCallParses | src/components/UniverComponent/styles/color-utils.ts:194-198 | the text `rgb(r, g, b)` is matched with exactly its three channel values |
| Colors.ShorthandNotCanonical | src/components/UniverComponent/styles/color-utils.ts:183-190 | as written, `#fff` normalises to lower-case `#ffffff` while `#ffffff` normalises to `#FFFFFF`: one colour, two normal forms |
| Colors.NormalizeColorAsWritten | src/components/UniverComponent/styles/color-utils.ts:176-230 | the function as written: any result starts with `#` (its shorthand defect is shown by `ShorthandNotCanonical`) |
| Colors.ShorthandMatchesFull | src/components/UniverComponent/styles/color-utils.ts:183-190 | corrected: a `#rgb` shorthand normalises to the same colour as its six-digit form |
| Colors.NormalizeRgbCall | src/components/UniverComponent/styles/color-utils.ts:193-203 | `rgb(r, g, b)` with channels below 256 normalises to `#` and the three channels as upper-case hex pairs |
| Colors.NormalizeIdempotent | src/components/UniverComponent/styles/color-utils.ts:176-230 | every seven-character normal form is a fixed point: normalising it again gives it back |
| DefaultStyles.DefaultCellStyle | src/components/UniverComponent/styles/default-styles.ts:10-35 | centred both ways, wrapped, black text in the default font, padding 2 above and below and 4 at the sides |
| DefaultStyles.DefaultStylesMap | src/components/UniverComponent/styles/default-styles.ts:40-44 | the initial table holds exactly the default style under the default id |
| DefaultStyles.Overlay | src/components/UniverComponent/styles/default-styles.ts:59-71 | the object spread: a key set on the user style wins, every other key comes from the base |
| DefaultStyles.MergeWithDefault | src/components/UniverComponent/styles/default-styles.ts:59-71 | a missing user style gives the default style; otherwise the user's keys override the default's |
| DefaultStyles.MergeIdempotent | src/components/UniverComponent/styles/default-styles.ts:59-71 | merging an already merged style with the default again changes nothing |
| DefaultStyles.MergeEmptyIsDefault | src/components/UniverComponent/styles/default-styles.ts:59-71 | merging the empty style gives exactly the default style |
| TextProcessor.ReplaceNbsp | src/components/UniverComponent/styles/text-processor.ts:70 | never lengthens the text and leaves text without `&` unchanged |
| TextProcessor.ReplaceNbspClean | src/components/UniverComponent/styles/text-processor.ts:70 | no `&nbsp;` remains after the replacement |
| TextProcessor.ReplaceNbspIdempotent | src/components/UniverComponent/styles/text-processor.ts:70 | replacing twice is replacing once |
| TextProcessor.StripQuotes | src/components/UniverComponent/styles/text-processor.ts:168-170 | the font family has no quote characters left and is unchanged when it had none |
| TextProcessor.TagStyle | src/components/UniverComponent/styles/text-processor.ts:113-130 | `b`/`strong` set bold, `i`/`em` italic, `u` underline, `s`/`strike`/`del` strike-through, any other tag nothing; each in both directions |
| TextProcessor.ApplyDeclaration | src/components/UniverComponent/styles/text-processor.ts:136-172 | an empty property or value, or an unknown property, changes nothing; `font-weight` sets bold for `bold` or a weight of at least 600, `font-style: italic` sets italic, `text-decoration` sets underline and strike-through for the words it contains, `color` sets the colour, `font-size` sets a non-zero `parseInt` size, `font-family` sets the family without quotes; nothing else changes and no mark is cleared |
| TextProcessor.ElementStyle | src/components/UniverComponent/styles/text-processor.ts:110-173 | the tag style, then the `style` attribute split at `;` and applied declaration by declaration; without the attribute, the tag style alone; each tag mark survives the declarations |
| TextProcessor.ApplyDeclarations | src/components/UniverComponent/styles/text-processor.ts:133-172 | the declarations apply in order, a mark once set stays set, and a list of unknown properties changes nothing |
| TextProcessor.ApplyDeclarationsAppend | src/components/UniverComponent/styles/text-processor.ts:136-172 | applying two declaration lists one after the other is applying their concatenation |
| TextProcessor.Walk | src/components/UniverComponent/styles/text-processor.ts:92-184 | a node appends exactly its text and all its runs lie inside what it appended; a text node has no runs; an element pushes its children's runs and then, when it has a style and text, its own run covering its whole text |
| TextProcessor.WalkAll | src/components/UniverComponent/styles/text-processor.ts:103-105 | children append their texts in order; their runs are the first child's runs followed by the rest's, every one inside the appended span |
| TextProcessor.WalkSpells | src/components/UniverComponent/styles/text-processor.ts:92-184 | the runs are one per styled element with text, in post-order (children before parent), each spanning exactly that element's text with the element's style |
| TextProcessor.WalkAllSpells | src/components/UniverComponent/styles/text-processor.ts:103-105 | the same for a list of children, in document order |
| TextProcessor.TextOnlyTreeHasNoRuns | src/components/UniverComponent/styles/text-processor.ts:92-98 | text nodes alone produce no runs |
| TextProcessor.ConvertHtmlToRichText | src/components/UniverComponent/styles/text-processor.ts:66-197 | empty input or a throwing parser gives null and a successful parse gives a result; the text is the container's text (empty without a container) and its runs are one per styled element with text, in post-order, each spelling that element's text |
| TextProcessor.RunStyle | src/components/UniverComponent/styles/text-processor.ts:240-286 | bold, italic, underline, size and font are set exactly when the run properties carry them; a colour drops its two alpha digits behind a `#` |
| TextProcessor.StreamText | src/components/UniverComponent/styles/text-processor.ts:288 | same length as the run text, with no line feed left |
| TextProcessor.XmlRuns | src/components/UniverComponent/styles/text-processor.ts:228-300 | the stream is the runs' texts in order; there is one text run per XML run with text and a non-empty style, none with an empty style, starting after the loop's offset and in strictly increasing order |
| TextProcessor.XmlRunsComplete | src/components/UniverComponent/styles/text-processor.ts:230-299 | every XML run with text and a non-empty style records its range: the offset of its text in the stream, its length and its style |
| TextProcessor.XmlRunsPlaced | src/components/UniverComponent/styles/text-processor.ts:230-299 | every text run sits at the offset of an XML run whose text is non-empty and covers exactly that run's text |
| TextProcessor.ProcessExcelRichText | src/components/UniverComponent/styles/text-processor.ts:204-339 | empty text or a parse error gives null; for parsed XML the result is non-null exactly when the run text or the trimmed `textContent` is not blank; the stream ends in `\r\n` with one paragraph at 0 and a section break at its end; with styled runs the stream is the run text, there is exactly one text run per styled XML run, every styled XML run's range is among them, each is placed on its XML run, and they are in increasing order; with none the stream is the trimmed `textContent` when that is not blank, else the run text |
| TextProcessor.RichTextRunsCoverTheirText | src/components/UniverComponent/styles/text-processor.ts:230-299 | every imported text run is a non-empty span before the final `\r\n` that spells one XML run's text |
| TextProcessor.CreateSimpleDocument | src/components/UniverComponent/styles/text-processor.ts:367-387 | null exactly for empty text; otherwise the text followed by `\r\n`, no runs, one paragraph at 0 and the section break at the end |
| TextProcessor.UnstyledRunsAreSimpleDocument | src/components/UniverComponent/styles/text-processor.ts:302-335 | XML whose runs carry no properties (and no stray text) gives the same body as the simple document of its text |
| StyleConverter.RichTextPart | src/components/UniverComponent/styles/style-converter.ts:19-33 | XML rich text is used when present and parseable; HTML only when there is no XML, and only when it yields runs |
| StyleConverter.VertAlignCode | src/components/UniverComponent/styles/style-converter.ts:66-73 | corrected: `superscript` gives 3 and `subscript` 2, each in both directions; anything else gives no code |
| StyleConverter.VertAlignCodeAsWritten | src/components/UniverComponent/styles/style-converter.ts:66-73 | as written: `superscript` gives 1 and `subscript` 2 |
| StyleConverter.FontPart | src/components/UniverComponent/styles/style-converter.ts:35-74 | each font key is set exactly when its source key is truthy, with `Number`/`String` of the value; the colour goes through `processExcelColor` with black; `va` is the code as written (superscript 1, subscript 2); no other key is set |
| StyleConverter.CorrectedFontPart | src/components/UniverComponent/styles/style-converter.ts:66-73 | the font part with the corrected superscript code: only `va` differs from the converter's, and only for a superscript font |
| StyleConverter.NonWhite | src/components/UniverComponent/styles/style-converter.ts:84-87 | a background is kept exactly when it is non-empty and not white |
| StyleConverter.FillBackground | src/components/UniverComponent/styles/style-converter.ts:78-94 | solid or absent pattern uses the resolved foreground colour unless white; light and dark grey patterns use fixed greys; other patterns give nothing |
| StyleConverter.Background | src/components/UniverComponent/styles/style-converter.ts:77-109 | the fill wins; without a fill background the legacy `fgColor`, then `bgColor` is used, never white |
| StyleConverter.HorizontalCode | src/components/UniverComponent/styles/style-converter.ts:116-134 | left, center, right, justify, distributed give 1 to 5, each in both directions |
| StyleConverter.VerticalCode | src/components/UniverComponent/styles/style-converter.ts:137-156 | top 1, middle or center 2, bottom 3, justify 4, distributed 5, each in both directions |
| StyleConverter.AlignmentPart | src/components/UniverComponent/styles/style-converter.ts:111-177 | alignment codes, wrap, rotation and an eight-times left padding are set from their truthy sources and nothing else is set |
| StyleConverter.BorderOrdinal | src/components/UniverComponent/styles/style-converter.ts:183-222 | corrected: the ten known names get the ordinals the exporter reads back; any other name gives thin (1) |
| StyleConverter.BorderOrdinalAsWritten | src/components/UniverComponent/styles/style-converter.ts:186-221 | as written: medium 2, thick 3, dotted 4, double 6, dashed 8, dashDot 9, dashDotDot 10, slantDashDot 11, everything else 1 |
| StyleConverter.ConvertSide | src/components/UniverComponent/styles/style-converter.ts:183-231 | an absent side stays absent, a side without a truthy style becomes null, otherwise the converter's ordinal as written (medium 2, thick 3, dashed 8, …) and its colour resolved with black |
| StyleConverter.BorderPart | src/components/UniverComponent/styles/style-converter.ts:179-250 | the border is absent exactly when no side is given; otherwise each side converted with the ordinals as written |
| StyleConverter.NumberFormat | src/components/UniverComponent/styles/style-converter.ts:252-258 | `numFmt` wins over `_numberFormat`; absent exactly when both are empty |
| StyleConverter.ProtectionPart | src/components/UniverComponent/styles/style-converter.ts:260-273 | read-only forces locked and not hidden; otherwise protection exists exactly when given, each flag true only for a literal `true` |
| StyleConverter.ConvertExcelStyle | src/components/UniverComponent/styles/style-converter.ts:14-277 | a missing style gives null; a result is never the empty object and is the combination of all parts; read-only results are always locked |
| StyleConverter.NullIffNothingSet | src/components/UniverComponent/styles/style-converter.ts:275-276 | the converter returns null exactly when no part sets a key |
| RowHeight.UsableWidth | src/components/UniverComponent/utils/row-height-utils.ts:53 | the usable width is at least 50 and at least the column width less its 10-pixel padding |
| RowHeight.EstimateLines | src/components/UniverComponent/utils/row-height-utils.ts:39-62 | empty text takes one line; otherwise at least the number of explicit lines and at least the wrapped-width estimate, never fewer than one |
| RowHeight.EstimateLinesMonotone | src/components/UniverComponent/utils/row-height-utils.ts:39-62 | a wider column never needs more lines |
| RowHeight.ColumnWidth | src/components/UniverComponent/utils/row-height-utils.ts:132-133 | a column's own non-zero width when there is one, else 150 |
| RowHeight.MaxEstimatedLines | src/components/UniverComponent/utils/row-height-utils.ts:125-145 | the maximum of the line estimates of the cells with content, and 1 when there are none |
| RowHeight.ClampHeight | src/components/UniverComponent/utils/row-height-utils.ts:158 | the rounded height is kept inside [min, max]: never below the minimum, never above the maximum when min <= max, unchanged when already inside |
| RowHeight.LinesHeight | src/components/UniverComponent/utils/row-height-utils.ts:147-155 | at least the base height; at least base·lines·1.1 for several lines; at least base·multiplier with CJK text; exactly the base for one line without CJK |
| RowHeight.RowHeightWithColumns | src/components/UniverComponent/utils/row-height-utils.ts:113-159 | an empty row gets the base height; otherwise the clamped height from the largest line estimate and CJK content, inside [min, max] |
| RowHeight.SingleLineRowDefaultHeight | src/components/UniverComponent/utils/row-height-utils.ts:113-159 | a non-empty row of single-line, non-CJK cells gets exactly 23 with the default configuration |
| RowHeight.MaxTextLength | src/components/UniverComponent/utils/row-height-utils.ts:186 | the length of the longest text among cells with content, 0 when none |
| RowHeight.MaxLineCount | src/components/UniverComponent/utils/row-height-utils.ts:187 | the largest explicit line count among cells with content, at least 1 |
| RowHeight.ContentHeight | src/components/UniverComponent/utils/row-height-utils.ts:199-215 | multi-line rows get base·lines; long single-line text gets base·min(3, 1 + len/100), and at least 2.5 and 3.5 times the base beyond 100 and 200 characters |
| RowHeight.CjkHeight | src/components/UniverComponent/utils/row-height-utils.ts:217-225 | CJK content raises the height to at least base·multiplier, and to 1.5·base past 20 characters; without CJK nothing changes |
| RowHeight.HeightBeforeClamp | src/components/UniverComponent/utils/row-height-utils.ts:199-225 | the unclamped height is at least the base height and meets every bound the content rules set |
| RowHeight.CalculateRowHeight | src/components/UniverComponent/utils/row-height-utils.ts:167-229 | an empty row gets the base height; otherwise the content height clamped into [min, max] |
| RowHeight.LongCjkRaisesHeight | src/components/UniverComponent/utils/row-height-utils.ts:217-225 | a row with CJK text longer than 20 characters always gets more than the base height before clamping |
| RowHeight.ExplicitHeight | src/components/UniverComponent/utils/row-height-utils.ts:248-257 | `hpx` wins, then `round(hpt·1.33)`, then `height`, else the base height 23 |
| RowHeight.MergedEntry | src/components/UniverComponent/utils/row-height-utils.ts:247-271 | the merged height is the larger of the explicit height and the content height of the row when the row exists; `hd` mirrors `hidden` and `ah` equals `h` |
| RowHeight.MergeRowHeights | src/components/UniverComponent/utils/row-height-utils.ts:238-276 | every row with an explicit property gets its merged entry; every other calculated row is kept; no other key appears |
| RowHeight.CalculateAllRowHeights | src/components/UniverComponent/utils/row-height-utils.ts:284-305 | one entry per row, unhidden, with `h` and `ah` equal to the row's calculated height |
| RowHeight.HasChineseContent | src/components/UniverComponent/utils/row-height-utils.ts:312-327 | true exactly when some string cell contains a CJK ideograph |
| GridBuilder.Classify | src/components/UniverComponent/data-converter.ts:53-91 | nullish or empty gives an empty string cell; numbers and booleans keep their type; a string is a forced string exactly when it is finite, non-blank numeric text with a leading zero, more than one character and no `.`, a number exactly when numeric without that, a boolean exactly when it is `true`/`false` in any case and not numeric; objects become their text |
| GridBuilder.LeadingZeroKept | src/components/UniverComponent/data-converter.ts:63-66 | `"0012"` is kept as the forced string `"0012"` |
| GridBuilder.LoneZeroIsNumber | src/components/UniverComponent/data-converter.ts:62-67 | a lone `"0"` is the number 0 |
| GridBuilder.DecimalIsNumber | src/components/UniverComponent/data-converter.ts:62-67 | `"0.5"` contains a dot, so it is the number 0.5 rather than a forced string |
| GridBuilder.UpperTrueIsBoolean | src/components/UniverComponent/data-converter.ts:70-74 | `"TRUE"` becomes the boolean true |
| GridBuilder.BlankStaysText | src/components/UniverComponent/data-converter.ts:62-76 | blank text is not numeric and stays a string |
| GridBuilder.NormalizeFormula | src/components/UniverComponent/data-converter.ts:316 | the result starts with `=`, ends with the original formula, and is the formula itself when it already started with `=` |
| GridBuilder.NormalizeFormulaIdempotent | src/components/UniverComponent/data-converter.ts:316 | normalising twice is normalising once |
| GridBuilder.StripTags | src/components/UniverComponent/data-converter.ts:290-293 | no tag is left, every remaining character comes from the input, and tag-free text is unchanged |
| GridBuilder.StripTagsIdempotent | src/components/UniverComponent/data-converter.ts:290-293 | stripping twice is stripping once |
| GridBuilder.HtmlBody | src/components/UniverComponent/data-converter.ts:266-286 | the stream is the HTML text plus `\r\n`; each run keeps its style and spans exactly the text its HTML run covered |
| GridBuilder.CellContent | src/components/UniverComponent/data-converter.ts:237-304 | without a style object the raw value is used; a replacement value is always text; rich bodies start with that text and end in `\r\n` with the section break at the end |
| GridBuilder.FormulaOf | src/components/UniverComponent/data-converter.ts:306-317 | a cell has a formula exactly when its style object carries a non-empty one, normalised to start with `=` |
| GridBuilder.StyleKeysFresh | src/components/UniverComponent/data-converter.ts:342-361 | generated style ids never collide with the default id or with each other |
| GridBuilder.ResolvedStyle | src/components/UniverComponent/data-converter.ts:324-367 | a cell gets no style exactly when its style entry is an explicit null; in read-only mode every resolved style is locked |
| GridBuilder.AssignStyle | src/components/UniverComponent/data-converter.ts:324-367 | the style table only grows; the cell's id resolves to the style it should have; the id is the default id, absent, or the next fresh id |
| GridBuilder.BuildCell | src/components/UniverComponent/data-converter.ts:226-369 | the cell holds the classified content, the normalised formula, the rich body, and a style id that resolves in the grown table |
| GridBuilder.RowPass | src/components/UniverComponent/data-converter.ts:226-370 | every value of the row gets its cell; cells of other rows are untouched |
| GridBuilder.GridPass | src/components/UniverComponent/data-converter.ts:220-372 | exactly the positions of the value matrix get cells, each built from its value and style entry |
| GridBuilder.Cleared | src/components/UniverComponent/data-converter.ts:131-151 | a cleared cell has an empty value and no rich text or formula, keeps its style, a non-zero type and a truthy custom value; a missing cell becomes `{ v: "" }` |
| GridBuilder.ClearedIdempotent | src/components/UniverComponent/data-converter.ts:131-151 | clearing a cleared cell changes nothing |
| GridBuilder.CleanRange | src/components/UniverComponent/data-converter.ts:116-153 | every cell of the range except the top-left one is cleared (created when missing); every other cell is unchanged |
| GridBuilder.CleanMerged | src/components/UniverComponent/data-converter.ts:98-155 | after all ranges, exactly the covered non-anchor positions are cleared and all other cells are kept |
| GridBuilder.WidthOf | src/components/UniverComponent/data-converter.ts:396-409 | `wpx` wins, then `round(wch·7.5)`, then `round(excelWidth·7)`, then `width`, else 73 |
| GridBuilder.ColumnWidths | src/components/UniverComponent/data-converter.ts:394-410 | one slot per column property holding its pixel width; a missing property (skipped by `forEach`) leaves its slot unset |
| GridBuilder.EstimateWidths | src/components/UniverComponent/utils/row-height-utils.ts:128-133 | the row-height estimate sees a present property's non-zero width, 73 for a property without width fields, and 150 for a missing property or a column past the list |
| GridBuilder.ColumnData | src/components/UniverComponent/data-converter.ts:437-472 | exactly the columns with a width or `hidden` get an entry, at least 20 pixels wide, with `hd` mirroring `hidden` |
| GridBuilder.DefaultRowHeight | src/components/UniverComponent/data-converter.ts:475-508 | at least 20; from the first row property with a height when there is one; at least 25 when the sheet has CJK text |
| GridBuilder.DefaultColumnWidth | src/components/UniverComponent/data-converter.ts:476-525 | the width of the first column property with a width, else 73 |
| GridBuilder.LongestRow | src/components/UniverComponent/data-converter.ts:223 | the length of the longest row |
| GridBuilder.PayloadOf | src/components/UniverComponent/data-converter.ts:202-214 | a plain array sheet has only data; a sheet object supplies every part |
| GridBuilder.SheetIdInjective | src/components/UniverComponent/data-converter.ts:180 | sheet ids built at the same time differ for different indexes |
| GridBuilder.SheetName | src/components/UniverComponent/data-converter.ts:530 | a non-empty sheet name is kept; an empty one becomes the numbered default |
| GridBuilder.CalculatedRows | src/components/UniverComponent/data-converter.ts:416-426 | one unhidden entry per row with the row's estimated height |
| GridBuilder.RowData | src/components/UniverComponent/data-converter.ts:412-434 | every row gets an entry; explicit row properties are merged in; other rows keep the estimate |
| GridBuilder.CleanupKeepsCells | src/components/UniverComponent/data-converter.ts:389-391 | clearing merged ranges keeps every cell built from the data well formed |
| GridBuilder.SheetCells | src/components/UniverComponent/data-converter.ts:216-391 | the cell map of a sheet satisfies the cell rules for its payload, with a grown style table |
| GridBuilder.BuildSheet | src/components/UniverComponent/data-converter.ts:179-563 | the built worksheet has its id, name, counts, defaults, merges, cells, rows and columns as the sheet rules state |
| GridBuilder.StyledCellResolves | src/components/UniverComponent/data-converter.ts:336-366 | every style id a cell carries is in the style table; in read-only mode that style is locked |
| GridBuilder.SheetOrder | src/components/UniverComponent/data-converter.ts:179-181 | one distinct id per sheet, in the order `Object.entries` lists the sheets |
| GridBuilder.SheetMap | src/components/UniverComponent/data-converter.ts:562 | each sheet is stored under its own id and no other key appears |
| GridBuilder.BuildSheets | src/components/UniverComponent/data-converter.ts:179-563 | one built sheet per input sheet, each well formed against the final style table, which extends the default table |
| GridBuilder.TransformExcelToWorkbook | src/components/UniverComponent/data-converter.ts:164-583 | the sheet order holds one distinct id per input sheet, the sheet map holds exactly those ids, and every sheet is well formed against the workbook's style table |
| SheetImport.ConvertExcelType | src/components/UniverComponent/utils-data.ts:31-54 | `b` is boolean; `n` and `d` are numbers; `s`, `e` and `z` are strings; any other type letter follows the value: boolean exactly for booleans, number exactly for numbers, string otherwise |
| SheetImport.PatternStyle | src/components/UniverComponent/utils-data.ts:16-20 | the style carries the number-format pattern and nothing else |
| SheetImport.CellFormat | src/components/UniverComponent/utils-data.ts:12-23 | a format style exists exactly when the cell's `z` is truthy, and then it holds `z` as text |
| SheetImport.CreateCellData | src/components/UniverComponent/utils-data.ts:61-83 | a nullish value is left out; a type is set exactly when the value is present and the type letter is non-empty; the formula is copied when non-empty; a style exists exactly when `z` is truthy |
| SheetImport.TypedCellKeepsKind | src/components/UniverComponent/utils-data.ts:35-53 | a boolean read with type `b` or with an unknown type letter stays a boolean |
| SheetImport.TransformWorksheet | src/components/UniverComponent/utils-data.ts:155-191 | one converted cell per address of the sheet, each one `CreateCellData` of its source; at least 26 columns and more than the last used column |
| SheetImport.PlainSheetIdInjective | src/components/UniverComponent/utils-data.ts:508 | distinct sheet positions give distinct `sheetN` ids |
| SheetImport.PlainOrder | src/components/UniverComponent/utils-data.ts:507-512 | the order lists `sheet1` … `sheetN`, one per sheet, all distinct |
| SheetImport.TransformPlainWorkbook | src/components/UniverComponent/utils-data.ts:501-520 | the sheet map and the order hold the same ids; the k-th id names the converted k-th sheet under its own name |
| SheetImport.ArrayCells | src/components/UniverComponent/utils-data.ts:94-112 | a cell exists exactly at the in-range positions with a non-nullish value; numbers get type number and everything else type string |
| SheetImport.ArraySheet | src/components/UniverComponent/utils-data.ts:86-123 | the row count is the number of rows; the column count is the longest row, at least 26, and no row is longer |
| SheetImport.ArrayWorkbook | src/components/UniverComponent/utils-data.ts:126-135 | one sheet `sheet1` named `Sheet1` holding the array, in a workbook named after the file |
| SheetImport.NonBlankLines | src/components/UniverComponent/utils-data.ts:149 | only lines with non-blank trimmed text are kept; all are kept when none is blank |
| SheetImport.CsvFields | src/components/UniverComponent/utils-data.ts:150 | one trimmed field per comma-separated piece of the line |
| SheetImport.CsvRows | src/components/UniverComponent/utils-data.ts:149-150 | one row of fields per non-blank line |
| SheetImport.TransformCsvToWorkbook | src/components/UniverComponent/utils-data.ts:148-152 | one sheet `sheet1` with one row per non-blank line; a cell exists exactly at each field of each such line and holds that trimmed field as a string cell |
| SheetImport.CsvFieldClean | src/components/UniverComponent/utils-data.ts:149-150 | every CSV field is trimmed and holds no comma and no newline |
| SheetImport.CsvCellsAreText | src/components/UniverComponent/utils-data.ts:148-152 | every cell of a CSV workbook is string-typed trimmed text with no comma or newline |
| SheetImport.CsvLineRoundTrip | src/components/UniverComponent/utils-data.ts:150 | a row of trimmed, comma- and newline-free fields joined with commas splits back into the same row |
| SheetImport.CsvRoundTrip | src/components/UniverComponent/utils-data.ts:148-152 | CSV text written from safe rows reads back as exactly those rows |
| SheetImport.PaneFreeze | src/components/UniverComponent/utils-data.ts:467-470 | a pane freezes at its own split: start row and column equal the splits |
| SheetImport.ChosenPane | src/components/UniverComponent/utils-data.ts:463 | the chosen pane is the first frozen pane (no earlier pane is frozen) when any is frozen, else the first pane |
| SheetImport.PanesFreeze | src/components/UniverComponent/utils-data.ts:458-479 | the freeze from `!panes` always starts where it splits |
| SheetImport.ExtractFreezeInfo | src/components/UniverComponent/utils-data.ts:431-498 | no `!freeze` and no `!panes` gives no freeze; otherwise a first view pane wins, then `!panes`, then `!freeze` |
| SheetImport.PanesOverrideFreeze | src/components/UniverComponent/utils-data.ts:449-479 | once `!panes` is present, `!freeze` makes no difference |
| SheetImport.ViewsAloneIgnored | src/components/UniverComponent/utils-data.ts:440-442 | views without `!freeze` or `!panes` never freeze the sheet |
| SheetImport.FilterMerges | src/components/UniverComponent/utils-data.ts:378-396 | exactly the valid merges are kept, as well-formed ranges; none is dropped when all are valid; a single entry is kept exactly when it is valid |
| SheetImport.FilterMergesAppend | src/components/UniverComponent/utils-data.ts:378-396 | filtering a concatenation filters each part in turn, so the kept merges keep their relative order |
| SheetImport.AnchorIsTopLeft | src/components/UniverComponent/utils-data.ts:382-389 | in a kept merge range the top-left cell is the only anchor and lies above and left of every covered cell |
| SheetImport.ShapedValue | src/components/UniverComponent/utils-data.ts:273-334 | a missing cell reads as empty text; a formatted text wins; otherwise the raw value, with an undefined value read as empty text |
| SheetImport.WithSideFields | src/components/UniverComponent/utils-data.ts:311-320 | the style keeps every field of the cell style and adds the cell's HTML, rich text and number format |
| SheetImport.ShapedStyle | src/components/UniverComponent/utils-data.ts:292-335 | a style entry is null exactly for a missing cell or one without style and formula; otherwise it carries the formatted text, formula and side fields |
| SheetImport.ShapeSheet | src/components/UniverComponent/utils-data.ts:255-338 | both matrices cover every row and column up to the last cell, each entry shaped from the cell at its address |
| SheetImport.ShapedFormulaReachesCell | src/components/UniverComponent/utils-data.ts:282-324 | the formula of a read cell reaches the grid builder, normalised to start with `=` |
| SheetImport.UnstyledCellGetsNoStyle | src/components/UniverComponent/utils-data.ts:321-330 | a cell with neither style nor formula gets no style in the workbook |
| SheetImport.ShapedContentIsValue | src/components/UniverComponent/utils-data.ts:277-289 | a cell without HTML and rich text is stored as its shaped value |
| SheetImport.ShapeRow | src/components/UniverComponent/utils-data.ts:341-356 | a row keeps its point and pixel heights and hidden flag; its height prefers points |
| SheetImport.ShapeColumn | src/components/UniverComponent/utils-data.ts:359-375 | a column keeps its widths and hidden flag; its width prefers Excel units, then characters, then pixels |
| SheetImport.ReadRowHeight | src/components/UniverComponent/utils-data.ts:341-356 | a read row's explicit height prefers pixels, then points times 1.33, then the default; it is explicit exactly when some height is nonzero or it is hidden |
| SheetImport.ReadColumnWidth | src/components/UniverComponent/utils-data.ts:359-375 | a read column's width prefers pixels, then characters times 7.5, then Excel units times 7; it counts exactly when one width is nonzero |
| SheetImport.ReadSheet | src/components/UniverComponent/utils-data.ts:251-413 | a sheet's payload is its shaped matrices over `!ref` (A1:A1 without one), its row and column properties, its valid merges, its freeze info and its hidden flag |
| SheetImport.ReadBook | src/components/UniverComponent/utils-data.ts:219-424 | one payload per sheet in workbook order, hidden exactly when its `Hidden` attribute is 1 |
| SheetImport.Extension | src/components/UniverComponent/utils-data.ts:530 | the extension is the lower-cased text after the last dot and holds no dot |
| SheetImport.FinalName | src/components/UniverComponent/utils-data.ts:528 | the workbook name is never empty and the given name wins |
| SheetImport.SheetEntries | src/components/UniverComponent/utils-data.ts:237-401 | with distinct sheet names the grid builder receives one entry per read sheet |
| SheetImport.SheetEntriesComplete | src/components/UniverComponent/utils-data.ts:251-401 | every entry the grid builder receives is a read sheet, and every read sheet's name is among them |
| SheetImport.SheetEntriesOrder | src/components/UniverComponent/data-converter.ts:179 | sheets named by array indices such as `2023` are listed before all others; with distinct names the others keep workbook order, and with no index-like name the list is the read sheets in order |
| SheetImport.TransformDataToWorkbook | src/components/UniverComponent/utils-data.ts:523-554 | `xlsx`/`xls` files become one built sheet per entry of the reader's result, in `Object.entries` order (one per read sheet when names are distinct); `csv` text goes through the CSV converter; other text fills cell A1; a failed read puts the prefixed error message in A1 |
| DocImport.CreateDefaultDocData | src/components/UniverComponent/utils-data-docs.ts:7-35 | the empty document is well formed: one paragraph at 0, no runs, the stream `\r\n`, the A4 page with its margins |
| DocImport.NormalizeNewlines | src/components/UniverComponent/utils-data-docs.ts:49 | no carriage return survives; text without one is unchanged |
| DocImport.Segments | src/components/UniverComponent/utils-data-docs.ts:49-50 | at least one line, none holding a line break, and the lines joined with `\n` give back the normalised text |
| DocImport.MarkersIncrease | src/components/UniverComponent/utils-data-docs.ts:56-73 | paragraph markers of later lines sit strictly after those of earlier lines |
| DocImport.LinesBodyWellFormed | src/components/UniverComponent/utils-data-docs.ts:52-86 | the laid-out body is well formed and its last paragraph marker sits just before the closing `\r\n` |
| DocImport.LinesBodyLines | src/components/UniverComponent/utils-data-docs.ts:56-73 | the stream between one paragraph's marker and the next is exactly that line's text |
| DocImport.TextDocWellFormed | src/components/UniverComponent/utils-data-docs.ts:40-98 | any text, blank or not, becomes a well-formed body |
| DocImport.TextDocLines | src/components/UniverComponent/utils-data-docs.ts:44-73 | for non-blank text, paragraph k spans exactly line k of the normalised text |
| DocImport.TransformTextToDocData | src/components/UniverComponent/utils-data-docs.ts:40-98 | blank text gives the default document; other text gives one paragraph per line and no runs, in a well-formed body |
| DocImport.LayOutLines | src/components/UniverComponent/utils-data-docs.ts:52-73 | the loop that appends each line and its `\r` (the last one `\r\n`) builds the specified line body |
| DocImport.RgbTripleSearch | src/components/UniverComponent/utils-data-docs.ts:433 | no match exactly when no position of the text starts an `rgb(r, g, b)` call; a match is the triple at the leftmost position that starts one |
| DocImport.RgbToHex | src/components/UniverComponent/utils-data-docs.ts:432-441 | null exactly when the text has no `rgb(…)` call; otherwise `#` followed by the lower-case hex of the first call's channels, at least two digits each |
| DocImport.RgbToHexOfCss | src/components/UniverComponent/utils-data-docs.ts:432-441 | the CSS text `rgb(r, g, b)` of byte channels converts to a seven-character `#rrggbb` whose digit pairs read back as r, g and b |
| DocImport.LowerChannelsReadBack | src/components/UniverComponent/utils-data-docs.ts:435-438 | each zero-padded two-digit channel reads back as its value |
| DocImport.FontSizePx | src/components/UniverComponent/utils-data-docs.ts:245-253 | an empty or unparsable size sets nothing; a set size is a whole number of pixels |
| DocImport.CssColorAndSize | src/components/UniverComponent/utils-data-docs.ts:231-253 | only colour, background and size change; a changed colour or background is a hex colour from `rgb(…)`; a `transparent` background changes nothing |
| DocImport.ParagraphTextStyle | src/components/UniverComponent/utils-data-docs.ts:227-254 | a paragraph's text style is its parent's with at most colour, background and size replaced; without inline CSS it is the parent's |
| DocImport.TagMarks | src/components/UniverComponent/utils-data-docs.ts:271-294 | `strong`/`b` set bold, `em`/`i` italic, `u` underline, `s` strike, `sup` va 3, `sub` va 2; any other tag changes nothing |
| DocImport.CssFlags | src/components/UniverComponent/utils-data-docs.ts:332-350 | a bold weight, italic style, `underline` or `line-through` decoration set their flag; otherwise the flag is kept |
| DocImport.InlineTagStyle | src/components/UniverComponent/utils-data-docs.ts:268-353 | an inline tag never touches font family, alignment or borders; `strong`/`b`, `em`/`i`, `u`, `s`, `sup` and `sub` set bold, italic, underline, strike-through, va 3 and va 2; without CSS the result is the tag marks, with CSS the marks followed by the CSS colour, background, size and flags |
| DocImport.HeadingLevel | src/components/UniverComponent/utils-data-docs.ts:219-224 | a named style exists exactly for `h1`–`h6`, and `hN` gets N + 1 |
| DocImport.HeadingStyle | src/components/UniverComponent/utils-data-docs.ts:218-263 | a paragraph style is attached exactly for headings, carrying only the heading's named style |
| DocImport.PutText | src/components/UniverComponent/utils-data-docs.ts:197-210 | text is appended at the current index; a run covering it is added exactly when the text and the style are non-empty |
| DocImport.PutMarker | src/components/UniverComponent/utils-data-docs.ts:260-265 | a paragraph marker is recorded at the index of the `\r` it appends |
| DocImport.Walk | src/components/UniverComponent/utils-data-docs.ts:196-370 | the stream grows by the node's rendered text; paragraphs and runs are only appended; a text node is put with the inherited style; an element is walked as `WalkElement` says |
| DocImport.WalkElement | src/components/UniverComponent/utils-data-docs.ts:211-370 | `br` adds a bare marker; any other element walks its children with the style it hands down (paragraph text style, inline tag style, or the parent's for other tags), and a paragraph tag then ends with a marker at its `\r` carrying its heading style |
| DocImport.WalkRunsSpell | src/components/UniverComponent/utils-data-docs.ts:196-370 | the runs a walk adds are one per text node with text and a non-empty inherited style, in document order, each spanning exactly that node's text with that style |
| DocImport.WalkAll | src/components/UniverComponent/utils-data-docs.ts:375 | walking the children appends their rendered text in order, walks them one after the other, and keeps every earlier marker and run |
| DocImport.WalkAllRunsSpell | src/components/UniverComponent/utils-data-docs.ts:375 | the same spelling for a list of children, in document order |
| DocImport.Finish | src/components/UniverComponent/utils-data-docs.ts:378-426 | the result is well formed and keeps every run and marker; the stream is the walked text, followed by a `\r` when no marker was placed, then closed by `ClosedStream`, so at most three characters are added |
| DocImport.ClosedStream | src/components/UniverComponent/utils-data-docs.ts:385-393 | the closed stream extends the walked one and ends with `\r\n`: one already ending so is unchanged, a lone trailing `\r` gets its `\n`, anything else gets both |
| DocImport.ConvertHtmlToDocData | src/components/UniverComponent/utils-data-docs.ts:183-427 | the document is well formed; its stream is the rendered body text closed as `Finish` says; its runs are the walk's runs (none when parsing fails), one per styled text node in document order, each spelling that node's text in the stream |
| DocImport.TextRunCoversNode | src/components/UniverComponent/utils-data-docs.ts:199-209 | a styled text node gets exactly one run, with its style, spanning exactly its text |
| DocImport.ParagraphMarkerAtItsCr | src/components/UniverComponent/utils-data-docs.ts:257-265 | a paragraph's marker is its `\r`, right after the text of its children |
| DocImport.TransformJsonToDocData | src/components/UniverComponent/utils-data-docs.ts:447-477 | a document with a non-empty stream keeps it and every given field, each missing one getting its default; otherwise the default document under the same id |
| DocImport.JsonKeepsCompleteDoc | src/components/UniverComponent/utils-data-docs.ts:450-472 | a complete document passes through unchanged |
| DocImport.JsonIdempotent | src/components/UniverComponent/utils-data-docs.ts:447-477 | normalising a normalised document changes nothing, whatever the clock |
| DocImport.JsonFillsWellFormed | src/components/UniverComponent/utils-data-docs.ts:456-458 | the defaults filled in for a bare `\r\n`-terminated stream starting with `\r` make a well-formed body |
| DocImport.MessagesNotBlank | src/components/UniverComponent/utils-data-docs.ts:103-178 | the unsupported-type and docx-failure messages are never blank, so they become real text documents |
| DocImport.TransformFileToDocData | src/components/UniverComponent/utils-data-docs.ts:103-178 | `.txt` files become text documents, `.docx` files their rendered HTML (or the failure message), anything else the unsupported-type message; every result is well formed under the `doc_` id |
| SheetExport.ArgbText | src/components/UniverComponent/utils-export.ts:374-375 | the ARGB text is `FF` followed by the colour with its first `#` removed and upper-cased: for `#rrggbb` the upper-cased digits, for text without `#` the upper-cased text |
| SheetExport.ExcelColor | src/components/UniverComponent/utils-export.ts:370-388 | a falsy colour gives none; a colour string or an `rgb` field gives an opaque upper-case ARGB; otherwise a theme colour exactly when a theme is set, and none without one |
| SheetExport.ColorToArgb | src/components/UniverComponent/utils-export.ts:393-401 | always starts with `FF`; agrees with the cell colour conversion whenever that gives ARGB; a colour object without `rgb` gives opaque black |
| SheetExport.BorderStyleName | src/components/UniverComponent/utils-export.ts:434-453 | each ordinal 2–13 names its own Excel style and distinct ordinals give distinct names; every other ordinal gives `thin` |
| SheetExport.Edge | src/components/UniverComponent/utils-export.ts:419-425 | an edge is written exactly for a present side, with the side's style name and colour |
| SheetExport.ExcelBorder | src/components/UniverComponent/utils-export.ts:406-429 | no border is written exactly when no side is present; otherwise each side maps to its own edge |
| SheetExport.RunFont | src/components/UniverComponent/utils-export.ts:257-273 | bold and italic exactly for the value 1; subscript exactly for va 2 and superscript exactly for va 3; no font exactly when no font field is set |
| SheetExport.Parts | src/components/UniverComponent/utils-export.ts:249-276 | at most one part per run and no part with empty text |
| SheetExport.RichTextOf | src/components/UniverComponent/utils-export.ts:235-279 | an empty stream gives the empty value; runs with no text give the empty string; otherwise the non-empty parts |
| SheetExport.PartsOfRunsInside | src/components/UniverComponent/utils-export.ts:249-276 | runs inside the stream give one part each, with the run's text and font |
| SheetExport.CleanFormula | src/components/UniverComponent/utils-export.ts:589-599 | the formula is trimmed and loses one leading `=` |
| SheetExport.CleanNormalizedFormula | src/components/UniverComponent/utils-export.ts:589-599 | cleaning a trimmed formula after the importer's `=` normalisation gives the formula without its `=` |
| SheetExport.CellValue | src/components/UniverComponent/utils-export.ts:284-316 | rich text wins; string types give text (empty for nullish); numbers give numbers; booleans are true exactly for 1, `"1"` and true; untyped values keep their kind |
| SheetExport.CellStyle | src/components/UniverComponent/utils-export.ts:322-326 | an inline style is used as is; an id resolves through the style table; no style reference gives no style |
| SheetExport.StyleFont | src/components/UniverComponent/utils-export.ts:329-339 | a font is written exactly when a font field is set, carrying its name and size, bold and italic exactly for 1 |
| SheetExport.StyledCell | src/components/UniverComponent/utils-export.ts:321-365 | force-string cells get the text format `@`; any other number format comes from the style; without a style no font, fill or border is written |
| SheetExport.ProcessCell | src/components/UniverComponent/utils-export.ts:191-230 | rich text first, then a formula that is non-empty once cleaned, then the converted value, always styled from the same cell |
| SheetExport.ExportCells | src/components/UniverComponent/utils-export.ts:158-186 | every cell is written at its one-based address and nowhere else, processed on its own |
| SheetExport.ShiftedKeys | src/components/UniverComponent/utils-export.ts:117-152 | a key is present exactly when it is one more than a source key |
| SheetExport.ExportColumns | src/components/UniverComponent/utils-export.ts:117-133 | each column is written at its one-based index with its pixel width over 7.5 and hidden exactly for `hd` 1 |
| SheetExport.ExportRows | src/components/UniverComponent/utils-export.ts:136-152 | each row is written at its one-based index with its height times 0.75 and hidden exactly for `hd` 1 |
| SheetExport.ExportMerges | src/components/UniverComponent/utils-export.ts:521-543 | each merge is written once with all four bounds shifted to one-based |
| SheetExport.ExportSheet | src/components/UniverComponent/utils-export.ts:86-110 | the sheet is named `Sheet` when unnamed, hidden exactly for `hidden` 1, with its defaults scaled and its cells, columns, rows and merges written |
| SheetExport.ExportSheets | src/components/UniverComponent/utils-export.ts:42-81 | every written sheet is the export of a listed id that has a sheet, and nothing is written when no id has one; a single id gives its sheet or nothing |
| SheetExport.ExportedIncluded | src/components/UniverComponent/utils-export.ts:52-58 | every listed id that has a sheet is written |
| SheetExport.ExportSheetsAppend | src/components/UniverComponent/utils-export.ts:52-81 | the export of a concatenated order is the export of each part in turn, so the filter keeps `sheetOrder`'s order |
| SheetExport.ExportSheetsAllPresent | src/components/UniverComponent/utils-export.ts:52-81 | when every listed id has a sheet, one written sheet per id, in order |
| SheetExport.FindResource | src/components/UniverComponent/utils-export.ts:561 | the first resource with the name, none exactly when no resource has it |
| SheetExport.StripEquals | src/components/UniverComponent/utils-export.ts:573-576 | one leading `=` is removed and nothing else changes |
| SheetExport.NamesOf | src/components/UniverComponent/utils-export.ts:567-580 | every added pair comes from an entry with a name and a reference, with the reference stripped of one `=`; every such entry is added; a single entry gives its pair or nothing |
| SheetExport.NamesOfAppend | src/components/UniverComponent/utils-export.ts:566-581 | the names of concatenated entries are those of each part in turn, so entries are added in order |
| SheetExport.DefinedNames | src/components/UniverComponent/utils-export.ts:558-584 | no names without the defined-names resource or when its data does not parse; otherwise the named entries of the parsed data |
| SheetExport.ExportWorkbook | src/components/UniverComponent/utils-export.ts:6-36 | the written workbook holds the exported sheets in order and the defined names |
| Sorting.InsertBy | src/components/UniverComponent/utils-export-docx.ts:205 | inserting into a sorted sequence keeps it sorted, adds exactly the new element, and puts it first when it is the smallest |
| Sorting.SortBy | src/components/UniverComponent/utils-export-docx.ts:205 | the result is sorted by the key and a permutation of the input; an already sorted input is unchanged |
| DocExport.DocxColor | src/components/UniverComponent/utils-export-docx.ts:507-521 | a colour string or an `rgb` field gives a colour exactly when it is neither empty nor just `#` (an empty result is falsy for the callers at lines 385-437); a `#RRGGBB` value gives its digits upper-cased |
| DocExport.StyledRun | src/components/UniverComponent/utils-export-docx.ts:372-442 | the run keeps its text; bold and italics exactly for 1; underline for any `ul`; strike exactly for a nonzero `st.s`; superscript exactly for va 1 or 3 and subscript exactly for va 2; a nonzero size is doubled |
| DocExport.TagMarksExported | src/components/UniverComponent/utils-export-docx.ts:391-423 | each inline mark the importer sets for a tag (bold, italics, underline, strike, superscript, subscript) is written to the docx run |
| DocExport.GapCovers | src/components/UniverComponent/utils-export-docx.ts:361-365 | filling the gap before a run with plain text completes the paragraph up to the run's start |
| DocExport.StepCovers | src/components/UniverComponent/utils-export-docx.ts:347-443 | after one run the pieces still spell the paragraph up to the new end, which never moves back |
| DocExport.StepsCover | src/components/UniverComponent/utils-export-docx.ts:347-444 | runs that do not overlap keep the pieces spelling a prefix of the paragraph |
| DocExport.ChainedSorted | src/components/UniverComponent/utils-export-docx.ts:341 | non-overlapping runs in order are already sorted by start, so sorting keeps them |
| DocExport.TextRunsSpellParagraph | src/components/UniverComponent/utils-export-docx.ts:328-454 | with the gap and tail text taken from the last end, the pieces of non-overlapping runs spell the paragraph exactly |
| DocExport.StepsAgree | src/components/UniverComponent/utils-export-docx.ts:367-370 | when no clipped run is empty the written loop and the corrected one take the same steps |
| DocExport.TextRunsAsWrittenSpell | src/components/UniverComponent/utils-export-docx.ts:328-454 | as written, non-overlapping runs whose clipped text is never empty still spell the paragraph |
| DocExport.GapDuplicated | src/components/UniverComponent/utils-export-docx.ts:355-453 | as written, `abc` with bold runs [0, 2) and [3, 4) is written as `ab`, `c`, `c`, spelling `abcc`: the second run clips to nothing after writing the gap `c`, so the tail repeats it |
| DocExport.GapCorrected | src/components/UniverComponent/utils-export-docx.ts:328-454 | with the last end moved past written gaps the same input spells `abc` |
| DocExport.AlignmentOf | src/components/UniverComponent/utils-export-docx.ts:459-471 | 1 is left, 2 centre, 3 right, 4 justified, each exactly; nothing else aligns |
| DocExport.HeadingOf | src/components/UniverComponent/utils-export-docx.ts:476-502 | 1 is the title; 2–7 are headings 1–6 exactly; nothing else is a heading |
| DocExport.HeadingRoundTrip | src/components/UniverComponent/utils-export-docx.ts:476-502 | an imported `hN` paragraph is exported as heading N |
| DocExport.Scaled | src/components/UniverComponent/utils-export-docx.ts:306-313 | an absent or zero measure gives 0, any other is scaled |
| DocExport.FormatOf | src/components/UniverComponent/utils-export-docx.ts:295-315 | spacing and indents are in twentieths, line spacing in 240ths and only when nonzero, alignment and heading from their codes; no style gives the zero format |
| DocExport.RangesOf | src/components/UniverComponent/utils-export-docx.ts:214-234 | one range per paragraph, in order: each ends at its own marker and carries its style; the first starts at 0 and every later one starts one past the previous range's end, skipping that marker |
| DocExport.StripLineEnd | src/components/UniverComponent/utils-export-docx.ts:252 | only a trailing line ending is removed: the result is a prefix, equal to the text when it has no `\n` |
| DocExport.Overlapping | src/components/UniverComponent/utils-export-docx.ts:273-280 | exactly the runs that overlap the range are kept |
| DocExport.OverlappingChained | src/components/UniverComponent/utils-export-docx.ts:273-280 | filtering non-overlapping runs leaves non-overlapping runs |
| DocExport.ParagraphOf | src/components/UniverComponent/utils-export-docx.ts:271-317 | every written paragraph carries its range's format; without overlapping runs it holds the plain text, otherwise the pieces of the source's run loop |
| DocExport.CorrectedParagraphOf | src/components/UniverComponent/utils-export-docx.ts:271-317 | with the corrected run loop the paragraph has the same format, and is the same paragraph when no run overlaps |
| DocExport.InnerParagraph | src/components/UniverComponent/utils-export-docx.ts:257-264 | an inner paragraph is blank exactly when its text is empty |
| DocExport.EmitRanges | src/components/UniverComponent/utils-export-docx.ts:239-318 | every range but the last gives a paragraph; the last gives one exactly when its text is non-empty |
| DocExport.ConvertParagraphs | src/components/UniverComponent/utils-export-docx.ts:178-323 | without markers at most one paragraph, present exactly when the trimmed text is non-blank; with markers, the ranges of the sorted markers, dropping only an empty last one |
| DocExport.CorrectedParagraphSpells | src/components/UniverComponent/utils-export-docx.ts:271-317 | with non-overlapping runs the paragraph of the corrected loop spells its range's text |
| DocExport.ParagraphOfSpells | src/components/UniverComponent/utils-export-docx.ts:271-317 | with non-overlapping runs none of which clips to nothing, a written paragraph spells its range's text |
| DocExport.ParagraphsSpellText | src/components/UniverComponent/utils-export-docx.ts:178-323 | with non-overlapping runs none of which clips to nothing in its paragraph, the k-th written paragraph spells the k-th range's text |
| DocExport.Twips | src/components/UniverComponent/utils-export-docx.ts:156-159 | a margin is twenty times its value, or twenty times the default when it is absent or zero |
| DocExport.PageOf | src/components/UniverComponent/utils-export-docx.ts:150-160 | a missing style gives the A4 page 11906 × 16838 with margins 1440 and 1800; otherwise each measure scaled by 20 with its default |
| DocExport.DefaultMarginsAgree | src/components/UniverComponent/utils-export-docx.ts:150-160 | the default document's margins export like a missing style, but its 595 × 842 page exports as 11900 × 16840 rather than 11906 × 16838 |
| DocExport.ConvertDoc | src/components/UniverComponent/utils-export-docx.ts:130-173 | it fails exactly without a body or stream; otherwise it has at least one paragraph (a blank one when none was written) and the converted page |
| DocExport.IncreasingSorted | src/components/UniverComponent/utils-export-docx.ts:205 | markers already in increasing order are left in place by the sort |
| DocExport.LinesRanges | src/components/UniverComponent/utils-export-docx.ts:214-252 | the ranges of a laid-out text body give back each line |
| DocExport.TextLinesRoundTrip | src/components/UniverComponent/utils-export-docx.ts:178-323 | a text document's lines are written back one paragraph each; only an empty last line is dropped |
| DocExport.TextDocExport | src/components/UniverComponent/utils-export-docx.ts:130-173 | an imported text document exports, with the default page, and every line but the last comes back as its paragraph |
| WorkerTasks.RejectAll | src/components/UniverComponent/UniverWorkerManager.ts:65-68 | every pending task, and no other, is rejected with the same message |
| WorkerTasks.SubmitStep | src/components/UniverComponent/UniverWorkerManager.ts:73-112 | after disposal the call throws; workbook data comes back unchanged without a task; a file registers one new task under its id and changes nothing else |
| WorkerTasks.MessageOutcome | src/components/UniverComponent/UniverWorkerManager.ts:44-60 | a response resolves exactly with its result; an error rejects with its message, or `Worker processing failed` without one; any other type rejects as unknown |
| WorkerTasks.ResponseStep | src/components/UniverComponent/UniverWorkerManager.ts:37-61 | after disposal or for an unknown id nothing happens; otherwise exactly that task is removed and settled |
| WorkerTasks.ErrorStep | src/components/UniverComponent/UniverWorkerManager.ts:62-69 | a worker error rejects every pending task and leaves none; after disposal it does nothing |
| WorkerTasks.DisposeStep | src/components/UniverComponent/UniverWorkerManager.ts:125-142 | disposal rejects every pending task, clears them and is final; disposing twice does nothing more |
| WorkerTasks.StepFacts | src/components/UniverComponent/UniverWorkerManager.ts:37-142 | every step keeps task numbers unique and below the counter, settles only tasks that were pending, never leaves a settled task pending, and never undoes disposal |
| WorkerTasks.Run | src/components/UniverComponent/UniverWorkerManager.ts:37-142 | a run of events records one set of settlements per event |
| WorkerTasks.SettledAtMostOnce | src/components/UniverComponent/UniverWorkerManager.ts:37-142 | over any run no task is settled twice, and only pending or newly created tasks are settled |
| WorkerTasks.SettledOnce | src/components/UniverComponent/UniverWorkerManager.ts:16-142 | from a fresh manager each task's promise settles at most once |
| WorkerTasks.QuietAfterDispose | src/components/UniverComponent/UniverWorkerManager.ts:37-142 | a disposed manager stays disposed and settles nothing more |
| WorkerTasks.NothingAfterDispose | src/components/UniverComponent/UniverWorkerManager.ts:125-142 | no event after a dispose settles any task |
| WorkerTasks.PendingCount | src/components/UniverComponent/UniverWorkerManager.ts:37-117 | a new file request raises the pending count by one and a matching response lowers it by one |
| WorkerTasks.ModelInputPassesThrough | src/components/UniverComponent/UniverWorkerManager.ts:78-85 | workbook data is returned as it is and registers no task; after disposal it throws instead |
| RoundTrips.BorderNameRoundTrip | src/components/UniverComponent/utils-export.ts:434-453 | with ordinals matching the exporter's table, a border name survives import and export exactly when it is one of the ten the importer knows; any other comes back `thin` |
| RoundTrips.BorderNamesAsWritten | src/components/UniverComponent/styles/style-converter.ts:186-221 | with the importer's ordinals as written, `medium` comes back `hair`, `thick` `dotted`, `dashed` `medium` and `hair` `thin` |
| RoundTrips.VertAlignRoundTrip | src/components/UniverComponent/utils-export.ts:257-273 | with the corrected code an imported superscript or subscript font is exported with the same alignment, and no other font gains one |
| RoundTrips.SuperscriptLostAsWritten | src/components/UniverComponent/styles/style-converter.ts:66-73 | the importer writes 1 for `superscript`, for which the exporter writes no font at all; the corrected code 3 keeps it |
| RoundTrips.SuperscriptImportLost | src/components/UniverComponent/styles/style-converter.ts:66-73 | a superscript font, as the importer converts it, is never exported as superscript |
| RoundTrips.ClassifiedValueRoundTrip | src/components/UniverComponent/data-converter.ts:53-91 | the value exported for a classified cell is the value read: numbers, booleans and text as themselves, numeric text as its number, boolean text as its truth value |
| RoundTrips.LeadingZeroRoundTrip | src/components/UniverComponent/data-converter.ts:63-66 | leading-zero digits such as `0012` are exported as the same text with the text format `@` |
| RoundTrips.FormulaRoundTrip | src/components/UniverComponent/data-converter.ts:306-317 | a trimmed formula stored by the importer is exported without its leading `=`, with or without one in the source |
| RoundTrips.HexColorExport | src/components/UniverComponent/utils-export.ts:370-381 | an imported `#rrggbb` colour is exported as eight ARGB digits: `FF` and the same digits upper-cased |
| RoundTrips.ExcelRgbRoundTrip | src/components/UniverComponent/styles/color-utils.ts:238-248 | an Excel colour given as six or eight hex digits is exported with the same colour digits upper-cased and an opaque alpha |
| RoundTrips.ColumnWidthRoundTrip | src/components/UniverComponent/data-converter.ts:437-472 | every emitted column is exported with its hidden flag, and a width given in characters comes back within one fifteenth of a character |

## Left out

- File reading, downloads and binary encoding are not modelled; their inputs and outputs are parameters. This covers `FileReader`, `file.text()`, `Blob`, object URLs, ExcelJS `writeBuffer` and the docx `Packer`. It also covers `jsonToBufferInExcel`'s buffer and the download wrappers: `transformUniverToExcel`, `jsonToBufferInDocx`, `transformUniverToDocx` and `exportUniverToDocx`.
- `DOMParser`, the XML parser, `querySelector`, `JSON.parse` and `docx-preview` are foreign code. They enter as parser functions or as already-rendered HTML.
- `transformDocxToDocData`'s hidden container is DOM plumbing and is not modelled. A rendering failure is modelled as a failed read.
- Worker threads are not modelled: `postMessage`, `worker.terminate`, the constructor's worker creation and the "Worker not initialized" / "Worker not available" branches, which cannot be reached once the worker exists. `nanoid` ids are an input.
- WorkerTasks.MessageOutcome does not copy the error stack onto the rejected `Error`, and no order is fixed for the rejections `Map.forEach` issues.
- Generated ids (`Date.now()`, `nanoid`) come from a `now` or counter parameter.
- Strings are sequences of characters, not UTF-16 code units. Lengths and indexes agree with the source only outside astral characters.
- Numbers computed by the converters are reals plus NaN and the infinities, not IEEE doubles. Rounding error in scaled widths, heights and sizes is not modelled.
- Number values in the input (`Value.Number`) are finite reals: JSON and the xlsx reader produce no NaN or infinity. So the NaN and infinity branches of `getExcelIndexedColor` and of the theme and tint lookup (color-utils.ts:165-169 and 259-287) are not modelled.
- Object key order matters only where `transformExcelToUniverWorkbook` lists the read sheets with `Object.entries`, which `JsObject.Entries` models. The other tables are maps, whose key order nothing reads: the code only looks keys up or counts them.
- A sheet named `__proto__` is not modelled: assigning it on a plain object sets the prototype instead of creating a property.
- `extractTextFromHtml` is never called by the rest of the code and is not modelled.
- `createRowHeightConfig` is not modelled. The default configuration is a constant.
- The constant sheet fields the grid builder writes are not modelled: tab colour, zoom, header sizes, `showGridlines` and the like.
- Export of tab colour and zoom ratio is not modelled.
- Numeric style indexes looked up in the reader's `SSF` table are not modelled. A cell's style is the style object the reader attached.
- `customRanges`, `customDecorations` and `customBlocks` of document bodies are always empty on import and are not modelled.
- `convertAlignmentToExcel` is never called, because its call is commented out. `exportAllResources` does nothing. Neither is modelled.
- ExcelJS failures in `mergeCells` and `definedNames.add` are not modelled.
- A row or column entry without `h` or `w` is not modelled, so the exporter's fallback to the sheet default is out of the model. The grid builder always writes both.
- Non-array rows in `transformArrayToSheet` are not modelled; rows are sequences.
- Null entries in `!panes` are not modelled. A non-string `numFmt` is treated as absent.
- A value of no modelled kind converts with `Number()` to NaN.
- A null `textContent` in the rich-text fallback is not modelled. The parser supplies the fallback text.
- The file name passed to the CSV and text converters is used only as the workbook name. The stripped document file name is never used and is not modelled.
- SheetImport.ShapeSheet assumes the sheet range starts at A1, which is what the reader produces for the worksheets it writes. Rows above or columns left of a later start are not modelled.
- SheetImport.TransformPlainWorkbook models the plain reader path (`readExcelFile`, `transformExcelToWorkbook`), which `transformDataToWorkbook` never reaches.
- GridBuilder.BuildSheets models read-only mode. It does not claim that every cell ends up locked: explicit null style entries and cells created only by merges get no style, so they stay unlocked in the code.
- DocImport.InlineTagStyle follows the code. `strike` and `del` are missing from the inline tag list, so they inherit the parent style and are not struck through.
- Sorting.SortBy: stability is not proved. Only sortedness and permutation are. Stability is not needed where it is used: the exporter's markers and the sheets' array-index keys are distinct.
- DocExport.TextRuns: this is the corrected run loop, which only `DocExport.CorrectedParagraphOf` uses; the exporter follows the source's loop. Its contract only states that at least one run is written. The content is proved by `DocExport.TextRunsSpellParagraph`, which holds for runs that do not overlap; overlapping runs may still repeat text.
- DocExport.ParagraphOfSpells: the spelling holds only when no overlapping run clips to nothing, because the exporter follows the source's loop. `DocExport.GapDuplicated` shows a paragraph that does not spell its text, and `DocExport.CorrectedParagraphSpells` proves the property unconditionally for the corrected loop.
- DocExport.ParagraphsSpellText: the same premise as `DocExport.ParagraphOfSpells`, for the same reason.
- DocExport.TextRunsAsWritten: its contract only states that at least one run is written. Its behaviour is exhibited by `DocExport.GapDuplicated` and `DocExport.TextRunsAsWrittenSpell`.
- JsText.ToLower: only the ASCII letters are mapped. JavaScript's `toLowerCase` maps every Unicode letter, so `normalizeColor("blac\u212A")` (a Kelvin sign) reads `black` in JavaScript, while `Colors.NormalizeColor` gives none. Unicode case tables are outside the model.
- JsText.ToUpper: only the ASCII letters are mapped. JavaScript's `toUpperCase` maps every Unicode letter, and some change length (`ß` becomes `SS`). `SheetExport.ArgbText`, `SheetExport.ColorToArgb`, `DocExport.DocxColor` and `Colors.NormalizeColor` therefore keep non-ASCII letters unchanged where JavaScript would change them (utils-export.ts:375-398, utils-export-docx.ts:512, color-utils.ts:189).
- JsNumber.NumberText: writes every number in plain decimal form. JavaScript's `String(x)` uses exponent form for magnitudes of at least 1e21 or below 1e-6 (`1e+21`, `1e-7`) and the shortest digits that read back as the same double. The text differs for those numbers where it reaches `SheetExport.CellValue` (utils-export.ts:314) and the row-height length estimates through `Model.ValueText`.
- Colors.NamedColor: `namedColors[color] || null` (color-utils.ts:229) also finds the members every object inherits from `Object.prototype`. So `constructor`, `toString`, `valueOf`, `hasOwnProperty` and `__proto__` return a function or an object, not a colour string, and the model gives none for them. The model's result type is a colour string, and those inherited values are not colours.
- Colors.NormalizeColorAsWritten: its contract only states the leading `#`. Its shorthand behaviour is stated by `Colors.ShorthandNotCanonical`.
- DocExport.AlignmentOf: code 0 has a `LEFT` entry in the alignment table, but the falsy check before the lookup returns no alignment first. The model follows the check, so 0 gives none.

## Findings

| source | as written | input that shows it | evidently intended | confidence | as-written member | corrected member |
|---|---|---|---|---|---|---|
| src/components/UniverComponent/styles/color-utils.ts:183-190 | three-digit `#rgb` is expanded after lower-casing and never upper-cased, while six-digit hex is upper-cased | `#fff` gives `#ffffff` but `#ffffff` gives `#FFFFFF` (`Colors.ShorthandNotCanonical`) | both spellings of a colour normalise to the same upper-case `#RRGGBB` (`Colors.ShorthandMatchesFull`) | not executed | Colors.NormalizeColorAsWritten | Colors.NormalizeColor |
| src/components/UniverComponent/styles/style-converter.ts:186-221 | the importer numbers `medium` 2, `thick` 3 and `dashed` 8, but the exporter's table reads 2 as `hair`, 3 as `dotted` and 8 as `medium` | a `medium` border is exported as `hair` (`RoundTrips.BorderNamesAsWritten`) | every known border name survives import and export (`RoundTrips.BorderNameRoundTrip`) | not executed | StyleConverter.BorderOrdinalAsWritten | StyleConverter.BorderOrdinal |
| src/components/UniverComponent/styles/style-converter.ts:66-73 | `superscript` becomes va 1, but the sheet exporter reads only va 3 as superscript (and va 2 as subscript) | a superscript font is exported with no font at all (`RoundTrips.SuperscriptLostAsWritten`) | superscript is written as va 3, which both exporters and the HTML importer use (`RoundTrips.VertAlignRoundTrip`) | not executed | StyleConverter.VertAlignCodeAsWritten | StyleConverter.VertAlignCode |
| src/components/UniverComponent/utils-export-docx.ts:355-453 | when a run's clipped text is empty, the gap before it is written but `lastEnd` is not advanced, so the tail repeats the gap | paragraph `abc` with bold runs [0, 2) and [3, 4) is written as `abcc` (`DocExport.GapDuplicated`) | the written pieces spell the paragraph exactly (`DocExport.TextRunsSpellParagraph`, `DocExport.GapCorrected`) | not executed | DocExport.TextRunsAsWritten | DocExport.TextRuns |
