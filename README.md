# Table export of the dashboard: PDF writer and CSV serialiser

This project models the two exporters in the dashboard's `utils` folder and proves properties of them in Dafny.

`buildTablePdf` (`dashboard/src/utils/pdf.ts`) turns a title, a list of columns and a list of rows into the bytes of a PDF 1.3 file. It uses no PDF library. The model follows its six jobs:

- `PdfText`: escaping of literal strings, per section 7.3.4.2 of ISO 32000-1, and `toText`.
- `PdfColumns`: column defaults (`normalizeCol`), weights, widths and left edges, the per-column character budget, `estimateTextW` and `cellTextX`.
- `PdfWrap`: `wrapCellText`. It is a method with the source's two loops, proved against a recursive reference definition `Wrap`.
- `PdfPage`: page content and pagination.
  - The class `PageWriter` holds the shared `lines` buffer, the finished `pages` and the cursor `y`.
  - `startPage`, `endPage`, `textAt`, `drawRect`, `textAtBold`, `drawHeaderRow` and `ensureRoom` are its methods.
  - `RenderPages` runs the title, the first header row and the row loop. Its pages are proved equal to `RenderedPages`, a definition of the row loop by recursion over the rows.
  - `RenderedContent` reads those pages one after the other: the first page's head, then every row in order, each preceded by a page break exactly when the page has no room for it, then `ET`.
- `PdfFile`: object numbering and the file itself, following sections 7.5.2, 7.5.4, 7.5.5 and 7.7.2-7.7.3 of ISO 32000-1.
  - `FillObjects` fills the object array by index.
  - `WriteObjects` writes the header and the objects, recording each object's byte offset.
  - `WriteFile` appends the cross-reference table and the trailer.
  - `BuildTablePdf` puts the pieces together.
  - Every method is proved equal to a text-level definition (`FileText`). Lemmas about that text show the following:
    - the offset recorded for object `n` points at `n 0 obj`;
    - `startxref` points at `xref`;
    - the `n`-th cross-reference entry spells the offset of object `n` in 20 bytes;
    - each `/Length` is the UTF-8 byte length of its stream.

`toCsv` (`dashboard/src/utils/csv.ts`) writes a header record and one record per row. It quotes fields as section 2 of RFC 4180 describes and separates records with CRLF. The module `Csv` defines it with `toCell` and `escapeCsv`. Beside it is a reader for the format (`ParseCsv`), and the export is proved to read back as the header texts and the cell texts, in order.

Shared helpers:
- `Text`: JavaScript's `join`, `replaceAll`, `includes`, ASCII `toLowerCase`, `String(n)` and `padStart`, with decimal read-back.
- `Utf8`: `TextEncoder` as UTF-8 encoding, with a decoder and the round trip.
- `Values`: the JavaScript cell values and row lookup.

## Model

| member | source | states |
|---|---|---|
| Text.NatStrDigits | dashboard/src/utils/pdf.ts:321 | `String(n)` is all digits, reads back as `n`, and has no leading zero unless `n` is 0 |
| Text.NatStrLength | dashboard/src/utils/pdf.ts:321 | a number below 10^k is spelled in at most k digits |
| Text.PadZerosValue | dashboard/src/utils/pdf.ts:321 | `padStart(10, '0')` keeps the string decimal and does not change the value it reads back as |
| Text.DecimalValueAppend | dashboard/src/utils/pdf.ts:321 | the value of two digit strings side by side is the first shifted by the second's length plus the second |
| Text.JoinAppend | dashboard/src/utils/pdf.ts:96 | joining two non-empty lists is joining each and putting one separator between them |
| Text.Lower | dashboard/src/utils/pdf.ts:42-43 | `toLowerCase` keeps the length and lowers each ASCII letter in place |
| Text.ReplaceAllAppend | dashboard/src/utils/csv.ts:16 | `replaceAll` of a one-character pattern distributes over concatenation |
| Utf8.EncodeChar | dashboard/src/utils/pdf.ts:326 | a scalar value takes 1 to 4 bytes; one byte exactly for ASCII; every byte after the first is a continuation byte |
| Utf8.ByteLengthEncodes | dashboard/src/utils/pdf.ts:278 | the counted byte length is the length of the encoding |
| Utf8.EncodeAppend | dashboard/src/utils/pdf.ts:311 | the encoding of a concatenation is the concatenation of the encodings |
| Utf8.ByteLengthAppend | dashboard/src/utils/pdf.ts:311 | byte lengths add over concatenation |
| Utf8.EncodedAt | dashboard/src/utils/pdf.ts:311 | in the bytes of `a + t + r`, the bytes of `t` start at the byte length of `a` |
| Utf8.ByteLengthAtLeast | dashboard/src/utils/pdf.ts:278 | a string takes at least as many bytes as it has characters |
| Utf8.EncodeAscii | dashboard/src/utils/pdf.ts:326 | ASCII text encodes as its character codes, one byte each |
| Utf8.ByteLengthAscii | dashboard/src/utils/pdf.ts:315 | ASCII text has as many bytes as characters |
| Utf8.EncodeCharDecodes | dashboard/src/utils/pdf.ts:326 | the lead byte announces the sequence length, and the sequence decodes to the scalar value |
| Utf8.DecodeEncode | dashboard/src/utils/pdf.ts:326 | decoding the encoding of any string gives back its code points |
| Values.Get | dashboard/src/utils/csv.ts:21 | a key the row lacks reads as `undefined` |
| PdfText.EscapeChars | dashboard/src/utils/pdf.ts:1-4 | per-character reference: output length is input length plus the number of `\`, `(`, `)` |
| PdfText.EscapePdfTextIsPerChar | dashboard/src/utils/pdf.ts:1-4 | the three chained `replace` calls equal putting a backslash before each `\`, `(` and `)` and changing nothing else |
| PdfText.UnescapeEscapeChars | dashboard/src/utils/pdf.ts:1-4 | dropping each escaping backslash gives back the input of the per-character escape |
| PdfText.EscapePdfTextRoundTrip | dashboard/src/utils/pdf.ts:1-4 | removing the escapes from `escapePdfText(s)` gives `s`; the output is longer by the number of special characters |
| PdfText.EscapePdfTextPlain | dashboard/src/utils/pdf.ts:1-4 | text without `\`, `(` or `)` is left unchanged |
| PdfText.PlainEscapeChars | dashboard/src/utils/pdf.ts:1-4 | the per-character escape leaves text without special characters unchanged |
| PdfText.EscapePdfText | dashboard/src/utils/pdf.ts:1-4 | specified by `EscapePdfTextIsPerChar`, `EscapePdfTextRoundTrip` and `EscapePdfTextPlain` |
| PdfText.ToText | dashboard/src/utils/pdf.ts:6-9 | null and undefined give "", strings pass through, anything else gives `String(value)` |
| PdfColumns.NormalizeCol | dashboard/src/utils/pdf.ts:41-68 | key and header are kept; a given width or align wins; otherwise the inferred width lies in [0.8, 2.8] and is, first match wins: 2.8 for e-mail, 2.2 for name, 1 for country, 0.9 for status, 0.8 for sales/amount, 1 otherwise; inferred align is right exactly for sales/amount columns and left exactly when neither that nor country/status applies |
| PdfColumns.InferredWidth | dashboard/src/utils/pdf.ts:45-55 | specified by `NormalizeCol`: in [0.8, 2.8]; e-mail 2.8, name 2.2, country 1, status 0.9, sales/amount 0.8, otherwise 1, in that order of precedence |
| PdfColumns.InferredAlign | dashboard/src/utils/pdf.ts:57-65 | specified by `NormalizeCol`: right exactly for sales/amount columns, left exactly when neither that nor country/status applies |
| PdfColumns.Weight | dashboard/src/utils/pdf.ts:71 | every weight is at least 0.1, and a width of at least 0.1 is its own weight |
| PdfColumns.Weights | dashboard/src/utils/pdf.ts:71 | one weight per column, each the column's weight and at least 0.1 |
| PdfColumns.SumAtLeast | dashboard/src/utils/pdf.ts:72 | a sum of weights of at least 0.1 each is at least 0.1 times their number |
| PdfColumns.TotalWeight | dashboard/src/utils/pdf.ts:72 | the total weight is at least 0.1, also for zero columns |
| PdfColumns.Widths | dashboard/src/utils/pdf.ts:73 | one width per weight |
| PdfColumns.WidthsAt | dashboard/src/utils/pdf.ts:73 | width `i` is `usableW * w_i / total` |
| PdfColumns.SumWidths | dashboard/src/utils/pdf.ts:73 | the widths sum to `usableW` times the sum of the weights over the total |
| PdfColumns.WidthsPositive | dashboard/src/utils/pdf.ts:73 | every width is positive |
| PdfColumns.WidthsShareUsable | dashboard/src/utils/pdf.ts:39-73 | with at least one column the widths sum to exactly `usableW` = 515 |
| PdfColumns.Edges | dashboard/src/utils/pdf.ts:74-80 | the edges have one more entry than the widths, start at the start value, and each is the previous plus a width |
| PdfColumns.LastEdge | dashboard/src/utils/pdf.ts:74-80 | the last edge is the start plus the sum of the widths |
| PdfColumns.MaxChars | dashboard/src/utils/pdf.ts:152 | every column's character budget is at least 8 |
| PdfColumns.Budgets | dashboard/src/utils/pdf.ts:152 | one budget per column, each `MaxChars` of its width and at least 8 |
| PdfColumns.Normalized | dashboard/src/utils/pdf.ts:70 | one normalised column per input column, in order |
| PdfColumns.MakeLayout | dashboard/src/utils/pdf.ts:70-80 | the layout is consistent, with one column per spec and budgets of at least 8 |
| PdfColumns.MakeLayoutGeometry | dashboard/src/utils/pdf.ts:39-80 | columns are the normalised specs; widths are positive; `colXs[0]` = 40; `colXs[i+1] = colXs[i] + colWs[i]`; with a column, the widths sum to 515 and the last edge is 555 |
| PdfColumns.EstimateTextWMonotonic | dashboard/src/utils/pdf.ts:154-156 | the estimated width is non-negative, grows with length and size, and is 0 for "" |
| PdfColumns.BudgetFitsColumn | dashboard/src/utils/pdf.ts:152-156 | a line within a budget above 8 has an estimated width of at most 0.936 of the column |
| PdfColumns.CellTextXPlacement | dashboard/src/utils/pdf.ts:158-174 | x is never left of `colLeft + 5`; left gives exactly that; text that fits ends by `colLeft + w - 5`; right-aligned text that fits ends exactly there; centred text that fits has equal gaps; text wider than the padded column is clamped to `colLeft + 5` whatever the alignment |
| PdfColumns.EstimateTextW | dashboard/src/utils/pdf.ts:154-156 | specified by `EstimateTextWMonotonic` and `BudgetFitsColumn` |
| PdfColumns.CellTextX | dashboard/src/utils/pdf.ts:158-174 | specified by `CellTextXPlacement` |
| PdfWrap.TrimEnd | dashboard/src/utils/pdf.ts:141 | the result is a prefix of the input |
| PdfWrap.TrimStart | dashboard/src/utils/pdf.ts:142 | the result is a suffix of the input |
| PdfWrap.TrimEndBlank | dashboard/src/utils/pdf.ts:141 | trimming all-whitespace text gives "" |
| PdfWrap.TrimEndStops | dashboard/src/utils/pdf.ts:141 | after `trimEnd` the last character is not whitespace |
| PdfWrap.TrimStartStops | dashboard/src/utils/pdf.ts:142 | after `trimStart` the first character is not whitespace |
| PdfWrap.LowestCut | dashboard/src/utils/pdf.ts:130 | the lowest candidate cut is at least 1 and at most the budget |
| PdfWrap.CutFrom | dashboard/src/utils/pdf.ts:129-136 | the cut stays within the searched range |
| PdfWrap.Cut | dashboard/src/utils/pdf.ts:129-136 | the cut is between 1 and the budget, so every iteration consumes text |
| PdfWrap.CutFromSpec | dashboard/src/utils/pdf.ts:129-136 | the downward scan stops at the highest break position in range, or falls back to the budget when there is none |
| PdfWrap.CutSpec | dashboard/src/utils/pdf.ts:129-136 | the cut lands just after the last break character in `[max(1, floor(0.55 m)), m]`, or at `m` when there is none |
| PdfWrap.FindCut | dashboard/src/utils/pdf.ts:129-136 | the source's `for` loop computes `Cut` |
| PdfWrap.Step | dashboard/src/utils/pdf.ts:138-145 | the emitted line fits the budget and the rest is shorter than before |
| PdfWrap.StepAt | dashboard/src/utils/pdf.ts:138-145 | a head ending in a space is trimmed at its end and the tail at its start; any other cut splits the text unchanged |
| PdfWrap.SplitAtCut | dashboard/src/utils/pdf.ts:138-142 | the slices and trims compute `Step` |
| PdfWrap.WrapCellText | dashboard/src/utils/pdf.ts:120-150 | the loop computes `Wrap`; at least one line comes out, and every line fits the budget |
| PdfWrap.WrapRestLines | dashboard/src/utils/pdf.ts:128-148 | every line of the loop fits the budget; non-empty text gives at least one line |
| PdfWrap.WrapFits | dashboard/src/utils/pdf.ts:120-150 | at least one line, each within the budget; text within the budget comes back as `[text]` |
| PdfWrap.WrapRestConcat | dashboard/src/utils/pdf.ts:128-148 | without spaces the lines of the loop concatenate to the remaining text |
| PdfWrap.WrapNoSpaceConcat | dashboard/src/utils/pdf.ts:120-150 | text without spaces is split and not changed: the lines concatenate to the text |
| PdfWrap.TrimEndVisible | dashboard/src/utils/pdf.ts:141 | `trimEnd` removes only whitespace |
| PdfWrap.TrimStartVisible | dashboard/src/utils/pdf.ts:142 | `trimStart` removes only whitespace |
| PdfWrap.StepVisible | dashboard/src/utils/pdf.ts:138-145 | one step loses no non-whitespace character |
| PdfWrap.WrapRestVisible | dashboard/src/utils/pdf.ts:128-148 | the loop loses no non-whitespace character, in order |
| PdfWrap.WrapKeepsVisible | dashboard/src/utils/pdf.ts:120-150 | the lines hold exactly the text's non-whitespace characters, in order |
| PdfWrap.TrimAtSpaceBreak | dashboard/src/utils/pdf.ts:141-142 | at a space break all whitespace goes, not one space: the head ends and the tail starts with a non-whitespace character or is empty |
| PdfWrap.WrapCanEmitEmptyLine | dashboard/src/utils/pdf.ts:141-144 | text whose first `maxChars` characters are spaces is wrapped with an empty first line |
| PdfWrap.Wrap | dashboard/src/utils/pdf.ts:120-150 | specified by `WrapFits`, `WrapNoSpaceConcat` and `WrapKeepsVisible`; computed by `WrapCellText` |
| PdfWrap.WrapRest | dashboard/src/utils/pdf.ts:128-148 | specified by `WrapRestLines`, `WrapRestConcat` and `WrapRestVisible` |
| PdfPage.HeaderRowLines | dashboard/src/utils/pdf.ts:183-207 | the header row draws at least one line |
| PdfPage.PageHead | dashboard/src/utils/pdf.ts:87-92 | every page starts with `BT`, `/F1 10 Tf`, `0 0 0 rg` |
| PdfPage.PrefixAppend | dashboard/src/utils/pdf.ts:83 | appending lines keeps what the page already holds |
| PdfPage.PagesOkAt | dashboard/src/utils/pdf.ts:96 | every finished page is its lines joined by LF, opened by the right head and closed |
| PdfPage.PagesOkSnoc | dashboard/src/utils/pdf.ts:96 | appending a closed page keeps every page well formed |
| PdfPage.RowLineCount | dashboard/src/utils/pdf.ts:234 | `rowLines` is at least 1, at least each cell's line count, and equals one of them unless it is 1 |
| PdfPage.RoomFor | dashboard/src/utils/pdf.ts:235-237 | `ceil(rowH / lineH) + 1` is `rowLines + 2` |
| PdfPage.RowClearsMargin | dashboard/src/utils/pdf.ts:219-239 | a row drawn below a cursor that `ensureRoom` accepted (`y >= 40 + (rowLines + 2) * 14`) ends above the bottom margin, of any height; below the header row of a fresh page (y = 772), a row of at most 51 lines does |
| PdfPage.TallRowOverflows | dashboard/src/utils/pdf.ts:219-239 | the bound 51 is tight: a row of 52 lines or more has no room on a fresh page either, and ends below the bottom margin |
| PdfPage.RoomedRowClears | dashboard/src/utils/pdf.ts:219-239 | from any state, `ensureRoom` for a row of at most 51 lines leaves a cursor from which the row ends above the bottom margin |
| PdfPage.WrapRow | dashboard/src/utils/pdf.ts:231-233 | one wrapped cell per column: `wrapCellText(toText(row[col.key]), budget)`; this is `WrappedRow` |
| PdfPage.WrappedRow | dashboard/src/utils/pdf.ts:231-233 | one wrapped cell per column, each `Wrap(toText(row[col.key]), budget)` |
| PdfPage.PageWriter.constructor | dashboard/src/utils/pdf.ts:209-217 | the first page holds the start lines, the title and the header row; no page is finished; y is the first header's bottom |
| PdfPage.PageWriter.DrawTitle | dashboard/src/utils/pdf.ts:212-214 | appends the title lines |
| PdfPage.PageWriter.PushLine | dashboard/src/utils/pdf.ts:83 | appends one line |
| PdfPage.PageWriter.StartPage | dashboard/src/utils/pdf.ts:87-92 | clears the buffer and leaves `BT`, `/F1 10 Tf`, `0 0 0 rg` |
| PdfPage.PageWriter.EndPage | dashboard/src/utils/pdf.ts:94-97 | appends `ET` and adds the lines joined by LF as a page |
| PdfPage.PageWriter.TextAt | dashboard/src/utils/pdf.ts:99-104 | appends the escaped text at (x, y), switching font size around it when a size is given |
| PdfPage.PageWriter.DrawRect | dashboard/src/utils/pdf.ts:106-118 | appends the rectangle operators, with the fill only when a fill is given |
| PdfPage.PageWriter.TextAtBold | dashboard/src/utils/pdf.ts:176-181 | appends the text twice, 0.35 apart, each after a matrix reset |
| PdfPage.PageWriter.DrawRules | dashboard/src/utils/pdf.ts:189-197 | appends one separator per inner column edge between `ET` and `BT` |
| PdfPage.PageWriter.DrawHeaderRow | dashboard/src/utils/pdf.ts:183-207 | appends the header row's lines and returns `yTop - 24` |
| PdfPage.PageWriter.DrawHeaderLabels | dashboard/src/utils/pdf.ts:199-204 | appends every column's bold header label, in column order |
| PdfPage.PageWriter.DrawHeaderLabel | dashboard/src/utils/pdf.ts:200-203 | appends one bold label at `cellTextX` |
| PdfPage.PageWriter.EnsureRoom | dashboard/src/utils/pdf.ts:219-228 | a page breaks exactly when `y < 40 + linesNeeded * 14`; on a break the open page is closed and a new page with the header row starts; otherwise nothing changes; the new state is `RoomStep` of the old one |
| PdfPage.PageWriter.NewPage | dashboard/src/utils/pdf.ts:222-226 | closes the open page and opens the next one below its header row |
| PdfPage.PageWriter.OpenNextPage | dashboard/src/utils/pdf.ts:223-226 | the new page holds the start lines and the header row, and y is below the header |
| PdfPage.PageWriter.DrawRowTexts | dashboard/src/utils/pdf.ts:252-261 | appends the text of every line of the row |
| PdfPage.PageWriter.DrawRowLine | dashboard/src/utils/pdf.ts:253-260 | appends one text line of every column |
| PdfPage.PageWriter.DrawCellLine | dashboard/src/utils/pdf.ts:255-259 | appends one cell line, or "" past its last line, at `cellTextX` |
| PdfPage.PageWriter.DrawRow | dashboard/src/utils/pdf.ts:234-262 | the new state is `RowStep` of the old: the page breaks exactly when it has no room for `rowLines + 2` lines; then the row's box, rules and cell texts are appended below the cursor and y moves down by the row height; at most one page is finished; a row of at most 51 lines stays above the bottom margin |
| PdfPage.PageWriter.DrawRows | dashboard/src/utils/pdf.ts:230-263 | the new state is `RowsFrom` of the old: every row is wrapped and drawn, in row order; pages stay well formed, and at most one page is finished per row |
| PdfPage.PageWriter.DrawTable | dashboard/src/utils/pdf.ts:230-265 | from the state after the first header, the finished pages are `PagesOf` the rows: the row loop, then `endPage`; 1 to rows+1 pages |
| PdfPage.PageWriter.DrawRowBody | dashboard/src/utils/pdf.ts:239-262 | appends the row's box, rules and texts, and moves y down by the row height |
| PdfPage.ClosedPageFramed | dashboard/src/utils/pdf.ts:87-97 | a closed page's stream starts `BT\n/F1 10 Tf\n0 0 0 rg` and ends `\nET` |
| PdfPage.FramedLines | dashboard/src/utils/pdf.ts:87-97 | lines that start with the start lines and end with `ET` join into a framed stream |
| PdfPage.RenderPages | dashboard/src/utils/pdf.ts:209-265 | the streams are `Streams(RenderedPages(...))` of the layout, title and rows; with `Renders`, the page lines are `RenderedPages` and each stream is its page's lines joined by LF; 1 to rows+1 pages, exactly one for no rows; only the first page carries the title; every page starts with the header row; every stream is framed by `BT`...`ET` |
| PdfPage.PagesFramed | dashboard/src/utils/pdf.ts:87-97 | every page of a well-formed list is a framed stream |
| PdfPage.Streams | dashboard/src/utils/pdf.ts:94-97 | one stream per page, each the page's lines joined by LF |
| PdfPage.DrawStepOf | dashboard/src/utils/pdf.ts:239-262 | a state holding the row's drawing below the cursor, with y moved down by the row height, is `DrawStep` |
| PdfPage.RowsFromNext | dashboard/src/utils/pdf.ts:230-263 | the loop over the first i+1 rows is one more pass after the loop over the first i |
| PdfPage.BeforeNext | dashboard/src/utils/pdf.ts:230-263 | the state before row i+1 is one pass of the loop after the state before row i |
| PdfPage.RowStepStream | dashboard/src/utils/pdf.ts:219-262 | one pass appends exactly its lines to the output read page after page: `ET` and the next head on a break, then the row's drawing |
| PdfPage.Events | dashboard/src/utils/pdf.ts:230-263 | one event per row, in row order: what that row adds to the output |
| PdfPage.Telescope | dashboard/src/utils/pdf.ts:230-263 | outputs that each grow by the next event are the first output followed by the events so far |
| PdfPage.OutputFirst | dashboard/src/utils/pdf.ts:209-217 | before any row the output is the first page's head |
| PdfPage.OutputNext | dashboard/src/utils/pdf.ts:230-263 | row i appends its event to the output |
| PdfPage.RowsInOrder | dashboard/src/utils/pdf.ts:209-263 | after k rows the output is the first head followed by the events of rows 0 to k-1, in row order; an event is the row's drawing, preceded by `ET` and the next head exactly when the page had no room |
| PdfPage.BeforeAll | dashboard/src/utils/pdf.ts:230-263 | the state before the row after the last one is the state the loop over all rows ends in |
| PdfPage.CloseOutput | dashboard/src/utils/pdf.ts:94-97 | closing the open page appends `ET` to the output |
| PdfPage.PagesInOrder | dashboard/src/utils/pdf.ts:209-265 | all pages one after the other are the first head, every row's event in order, and `ET` |
| PdfPage.RenderedContent | dashboard/src/utils/pdf.ts:209-265 | the table's pages one after the other: title and header row, then every row in row order, each preceded by `ET` and the next header row exactly when the page had no room, then `ET` |
| PdfPage.RenderedFacts | dashboard/src/utils/pdf.ts:209-265 | pages finished by the writer from the title and first header, if equal to `PagesOf` its heads, satisfy `Renders` |
| PdfPage.RenderedPagesOf | dashboard/src/utils/pdf.ts:209-226 | with the writer's heads, `PagesOf` is `RenderedPages` |
| PdfPage.PagesHeaded | dashboard/src/utils/pdf.ts:209-226 | page 0 is headed by the title and header row, every other page by the header row |
| PdfPage.StreamsOf | dashboard/src/utils/pdf.ts:94-97 | streams that are each page's lines joined by LF are `Streams` of the pages |
| PdfPage.TextAtLines | dashboard/src/utils/pdf.ts:99-104 | specified by `PageWriter.TextAt`, which appends exactly these lines |
| PdfPage.RectLines | dashboard/src/utils/pdf.ts:106-118 | specified by `PageWriter.DrawRect`, which appends exactly these lines |
| PdfPage.BoldTextLines | dashboard/src/utils/pdf.ts:176-181 | specified by `PageWriter.TextAtBold`, which appends exactly these lines |
| PdfPage.RowDrawLines | dashboard/src/utils/pdf.ts:239-261 | specified by `PageWriter.DrawRowBody`, which appends exactly these lines; `RowStepStream` places them in the output |
| PdfPage.HasRoom | dashboard/src/utils/pdf.ts:219-221 | the `y < minY` test negated: specified by `PageWriter.EnsureRoom` (a page breaks exactly when it fails), `RowClearsMargin` and `TallRowOverflows` |
| PdfPage.RowHeight | dashboard/src/utils/pdf.ts:235 | `rowH`: specified by `PageWriter.DrawRowBody` (y moves down by it), `RoomFor` (it asks for `rowLines + 2` lines) and `RowClearsMargin` |
| PdfPage.TitleLines | dashboard/src/utils/pdf.ts:212-213 | specified by `PageWriter.DrawTitle`, which appends exactly these lines; `PagesHeaded` puts them on the first page only |
| PdfPage.HeaderLabelLines | dashboard/src/utils/pdf.ts:199-204 | specified by `PageWriter.DrawHeaderLabel`, which appends exactly these lines for one column |
| PdfPage.Separators | dashboard/src/utils/pdf.ts:192-195 | specified by `PageWriter.DrawRules`, whose loop appends one separator per inner column edge, in column order (also lines 245-248) |
| PdfPage.RowTexts | dashboard/src/utils/pdf.ts:252-261 | specified by `PageWriter.DrawRowTexts`, which appends exactly these lines, line by line |
| PdfPage.RoomStep | dashboard/src/utils/pdf.ts:219-228 | `ensureRoom` as a function of the state: specified by `PageWriter.EnsureRoom`, whose new state it is |
| PdfPage.DrawStep | dashboard/src/utils/pdf.ts:239-262 | drawing a row below the cursor: specified by `DrawStepOf` and `PageWriter.DrawRowBody` |
| PdfPage.RowStep | dashboard/src/utils/pdf.ts:230-263 | one pass of the row loop: specified by `PageWriter.DrawRow`, whose new state it is, and by `RowStepStream` and `RoomedRowClears` |
| PdfPage.RowsFrom | dashboard/src/utils/pdf.ts:230-263 | the row loop as a fold of `RowStep` over the rows: specified by `PageWriter.DrawRows`, whose new state it is, and by `RowsFromNext` and `RowsInOrder` |
| PdfPage.PagesOf | dashboard/src/utils/pdf.ts:230-265 | the row loop then `endPage`: specified by `PageWriter.DrawTable`, whose finished pages it is, and by `PagesInOrder` |
| PdfPage.RenderedPages | dashboard/src/utils/pdf.ts:209-265 | the reference definition of the table's pages: specified by `RenderPages` (its result), `RenderedContent` (its content in order), `PagesHeaded` and `BuildTablePdf` |
| PdfFile.Kids | dashboard/src/utils/pdf.ts:287-290 | `/Kids` lists one reference per page, `4 + 2i 0 R`, in order |
| PdfFile.BodyNotEmpty | dashboard/src/utils/pdf.ts:310 | no object body is empty, so no object is skipped |
| PdfFile.ContentLength | dashboard/src/utils/pdf.ts:276-283 | a content object is `/Length` with digits reading back as the UTF-8 byte length of the stream, then the stream keyword, the stream and `endstream` |
| PdfFile.Bodies | dashboard/src/utils/pdf.ts:295-304 | one body per object, each the text of that object |
| PdfFile.FillObjects | dashboard/src/utils/pdf.ts:295-304 | catalog = 1, pages = 2, font = 3; page i = 4 + 2i refers to content 5 + 2i, which holds page i's stream |
| PdfFile.PageObjects | dashboard/src/utils/pdf.ts:300-304 | two objects per page, in page order: the page object referring to `5 + 2i`, then the page's content |
| PdfFile.Objects | dashboard/src/utils/pdf.ts:285-304 | catalog = 1, pages = 2, font = 3; page i = 4 + 2i refers to content 5 + 2i, which holds page i's stream |
| PdfFile.LayoutIsObjects | dashboard/src/utils/pdf.ts:295-304 | the numbering leaves no slot unfilled: any list laid out that way is `Objects(pages)` |
| PdfFile.WriteObjects | dashboard/src/utils/pdf.ts:306-313 | the output is the header and the objects in increasing order; `offsets[n]` is set exactly for non-empty objects, to the byte count before object n |
| PdfFile.AppendXrefEntries | dashboard/src/utils/pdf.ts:319-322 | appends one entry per object, from the recorded offset or 0 |
| PdfFile.WriteFile | dashboard/src/utils/pdf.ts:306-324 | the output is the file text: body, `xref` section `0 maxObj+1`, free head, entries, trailer and `startxref` |
| PdfFile.BodyGrows | dashboard/src/utils/pdf.ts:308-313 | the body written so far only grows, by the pieces in between |
| PdfFile.FileSplitsAt | dashboard/src/utils/pdf.ts:308-313 | the file is the body before object n, then `n 0 obj`, then the rest |
| PdfFile.OffsetIsBytes | dashboard/src/utils/pdf.ts:311 | the recorded offset is the byte length of the output written before the object |
| PdfFile.OffsetPointsAtObject | dashboard/src/utils/pdf.ts:311 | the bytes at object n's offset in the encoded file are `n 0 obj` |
| PdfFile.PieceBytesCount | dashboard/src/utils/pdf.ts:312 | the counted size of an object's text is its UTF-8 byte length |
| PdfFile.BodyBytesCount | dashboard/src/utils/pdf.ts:308-313 | the counted size of the body is its UTF-8 byte length |
| PdfFile.BodyBytesGrow | dashboard/src/utils/pdf.ts:308-313 | the byte count of the body never shrinks |
| PdfFile.OffsetsIncrease | dashboard/src/utils/pdf.ts:308-313 | offsets strictly increase with the object number |
| PdfFile.OffsetWithinBody | dashboard/src/utils/pdf.ts:311-315 | every offset is at most `xrefStart` |
| PdfFile.StartxrefPointsAtXref | dashboard/src/utils/pdf.ts:315-324 | the bytes at `xrefStart` are `xref`, and the file ends with `startxref`, that number and `%%EOF` |
| PdfFile.XrefEntryShape | dashboard/src/utils/pdf.ts:321 | an entry is 20 bytes: ten digits reading back as the offset, then ` 00000 n ` and LF |
| PdfFile.XrefEntryOfObject | dashboard/src/utils/pdf.ts:319-322 | the entries are 20 bytes each, and entry n holds object n's offset |
| PdfFile.EntryLength | dashboard/src/utils/pdf.ts:321 | every entry is 20 characters long |
| PdfFile.XrefEntriesLength | dashboard/src/utils/pdf.ts:319-322 | k entries take 20k characters |
| PdfFile.AllObjectsIndexed | dashboard/src/utils/pdf.ts:295-313 | for every numbered object, its offset points at `n 0 obj` in the encoded file |
| PdfFile.PagesObject | dashboard/src/utils/pdf.ts:290-291 | specified by `FillObjects` (object 2 is the page tree of all the pages) and `Kids` (`/Kids` lists `4 + 2i 0 R`, in page order) |
| PdfFile.PageObject | dashboard/src/utils/pdf.ts:301 | specified by `FillObjects`: page i refers to content `5 + 2i` |
| PdfFile.ContentObject | dashboard/src/utils/pdf.ts:276-283 | specified by `ContentLength` |
| PdfFile.XrefEntry | dashboard/src/utils/pdf.ts:321 | specified by `XrefEntryShape` and `XrefEntryOfObject` |
| PdfFile.TrailerDict | dashboard/src/utils/pdf.ts:324 | the trailer of the file text that `WriteFile` computes, with `maxObj` the number of objects, so `/Size` is one more than the highest object number; `StartxrefPointsAtXref` states what follows it |
| PdfFile.FileText | dashboard/src/utils/pdf.ts:306-324 | specified by `WriteFile`, `OffsetPointsAtObject` and `StartxrefPointsAtXref` |
| PdfFile.WritePdf | dashboard/src/utils/pdf.ts:267-326 | the returned bytes are the UTF-8 encoding of the file text of `Objects(pages)` |
| PdfFile.BuildTablePdf | dashboard/src/utils/pdf.ts:12-326 | the bytes are the UTF-8 encoding of the file text of `Objects(Streams(RenderedPages(MakeLayout(specs), fmt, title, rows)))`, and those pages are as `Renders` states: 1 to rows+1, exactly one for no rows (hence 5 objects and `/Size 6`), headed by the title and header row, each row drawn in order |
| Csv.ToCell | dashboard/src/utils/csv.ts:5-11 | null and undefined give ""; strings pass through unchanged |
| Csv.IncludesChar | dashboard/src/utils/csv.ts:14 | `includes` of a one-character string is membership |
| Csv.NeedsQuotesIff | dashboard/src/utils/csv.ts:14 | quoting is needed exactly when the field holds `,`, `"`, LF or CR |
| Csv.ReplaceAllGrows | dashboard/src/utils/csv.ts:16 | doubling quotes never shortens a field |
| Csv.EscapeKeepsPlain | dashboard/src/utils/csv.ts:13-17 | `escapeCsv` returns the field unchanged exactly when it has none of `,` `"` LF CR |
| Csv.CollapseDoubled | dashboard/src/utils/csv.ts:16 | collapsing `""` to `"` undoes the quote doubling |
| Csv.EscapeCsvRoundTrip | dashboard/src/utils/csv.ts:13-17 | a quoted field starts and ends with `"`; inside, collapsing `""` gives back the raw field |
| Csv.EscapeCsv | dashboard/src/utils/csv.ts:13-17 | specified by `EscapeKeepsPlain`, `EscapeCsvRoundTrip` and `ReadFieldEscaped` |
| Csv.ReadQuotedEscaped | dashboard/src/utils/csv.ts:16 | a reader stops at the closing quote of an escaped field and returns the raw field |
| Csv.ReadPlainClean | dashboard/src/utils/csv.ts:15 | an unquoted field is read up to the next comma or CR |
| Csv.ReadFieldEscaped | dashboard/src/utils/csv.ts:13-17 | reading any escaped field returns the raw field and stops where the field ends |
| Csv.EscapedCells | dashboard/src/utils/csv.ts:19-21 | one escaped field per cell, in order |
| Csv.RecordTexts | dashboard/src/utils/csv.ts:25 | one line per record, in order |
| Csv.HeaderCells | dashboard/src/utils/csv.ts:19 | the header record holds each column's header, in column order |
| Csv.RowCells | dashboard/src/utils/csv.ts:21 | a row's record holds `toCell(row[c.key])` for each column, in column order |
| Csv.AllRowCells | dashboard/src/utils/csv.ts:20-22 | one record per row, in row order |
| Csv.ReadRecordText | dashboard/src/utils/csv.ts:21 | reading a comma-joined line of escaped cells gives back the cells and consumes the CRLF after it |
| Csv.ParseRecords | dashboard/src/utils/csv.ts:25 | records joined by CRLF read back as exactly those records, so no record is added or lost |
| Csv.ToCsvRoundTrip | dashboard/src/utils/csv.ts:19-25 | with at least one column, the output reads back as the header texts followed by every row's cell texts, in row and column order |
| Csv.ToCsvNoRows | dashboard/src/utils/csv.ts:19-25 | zero rows give the header line alone |
| Csv.ToCsvLines | dashboard/src/utils/csv.ts:19-25 | with rows, the output is the header line, CRLF, then the row lines joined by CRLF |
| Csv.ToCsv | dashboard/src/utils/csv.ts:19-25 | specified by `ToCsvRoundTrip`, `ToCsvNoRows` and `ToCsvLines` |

## Left out

- `downloadPdf` (`dashboard/src/utils/pdf.ts:329-341`) and `downloadCsv` (`dashboard/src/utils/csv.ts:28-41`) are not part of this model. They only hand bytes to the browser through a Blob, an object URL and an anchor element.
- `toFixed(2)` is the parameter `fmt: real -> string`. Coordinates are exact reals, not IEEE doubles. So `14 * 2.2` is exactly 30.8 here, and the model says nothing about rounding.
- `Math.floor(maxChars * 0.55)` is written `(11 * maxChars) / 20`. The two agree for the integer budgets the code produces.
- `toLowerCase` lowers ASCII letters only. Keys and headers with other cased letters may match the column defaults differently.
- The renderings produced by the JavaScript runtime are carried by the cell value and not computed here. These are `String(number)`, `String(bigint)`, `Date.toISOString`, `String(date)`, `JSON.stringify` and `String(object)`. `JSON.stringify` returning `undefined`, for a function or a symbol, is not modelled.
- PdfWrap.Wrap: text is a sequence of Dafny `char`s, which are Unicode scalar values, while the source's `length`, indexing and `slice` count UTF-16 code units. So lengths and cut positions are counted in scalar values. Text with characters outside the Basic Multilingual Plane wraps differently: eight emoji fit a budget of 8 here, while the source sees 16 code units and makes two lines of four. `rowLines`, page breaks and every later y-coordinate then differ.
- PdfWrap.WrapCellText: counts in scalar values, as `Wrap` does.
- PdfWrap.WrapRest, PdfWrap.Cut, PdfWrap.CutFrom, PdfWrap.FindCut, PdfWrap.Step: the same; `rest[j - 1]` and the slices index scalar values, not code units.
- PdfColumns.EstimateTextW: measures length in scalar values. The source counts a character outside the Basic Multilingual Plane twice, so its estimate is wider.
- PdfColumns.CellTextX: places text using `EstimateTextW`, so it inherits that difference for such characters.
- `TextEncoder` is modelled on scalar values, which are never lone surrogates. In the source, a cut can fall between the two halves of a surrogate pair (for "a" followed by four emoji, with a budget of 8, the cut is at code unit 8). `TextEncoder` then writes each lone half as EF BF BD, the UTF-8 encoding of U+FFFD. The model keeps such characters whole, so for such text the bytes differ as well.
- PdfWrap.WrapCellText: requires `maxChars >= 1`. The exporter only calls it with budgets of at least 8, or the default 12.
- PdfPage.RowClearsMargin: on a fresh page the claim holds only for rows of at most 51 lines. From 52 lines such a row ends below the bottom margin, in the source as in the model (`TallRowOverflows`).
- `allObjects` is an array of a datatype (`PdfObject`) rendered to text by `Body`, instead of an array of strings. Every index is filled, as in the source, so the `if (!objBody) continue` branch is never taken (`BodyNotEmpty`).
- The byte offsets are counted by `BodyBytes`/`PieceBytes` rather than by re-encoding the output. `BodyBytesCount` proves the count equal to the UTF-8 byte length the source measures.
- PdfFile.XrefEntryOfObject: requires the body to be shorter than 10^10 bytes. Larger offsets give entries longer than 20 bytes; the source does the same and the model makes no claim for them.
- PdfFile.EntryLength: same bound of 10^10 bytes.
- PdfFile.XrefEntriesLength: same bound of 10^10 bytes.
- Csv.ToCsvRoundTrip: requires at least one column. With zero columns every record is the empty line, which a CSV reader cannot tell apart from a record of one empty field.
- `ParseCsv` is a reference reader for the output of `toCsv`. It does not reject malformed input; its behaviour on text that `toCsv` cannot produce is not specified.
- The output has no trailing CRLF because `join` puts separators only between records. This is stated by `ToCsvLines` and `ParseRecords`: reading back yields exactly one record per row after the header, never an extra empty one. A text whose last record is a lone empty field still ends in CRLF; this happens with one column and an empty last cell.
- Where the code and the usual description of it differ, the model follows the code:
  - At a space break the wrapper trims all whitespace (`trimEnd`/`trimStart`), not a single space, and it can emit an empty line (`TrimAtSpaceBreak`, `WrapCanEmitEmptyLine`).
  - Zero columns do not fail. The total weight falls back to 0.1 and `rowLines` to 1.
  - `normalizeCol` keeps every field of the input column besides `width` and `align`.
