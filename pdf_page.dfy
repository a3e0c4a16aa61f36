/** Page content and pagination of the PDF exporter (dashboard/src/utils/pdf.ts,
    `buildTablePdf` from `startPage` to the final `endPage`). A `PageWriter`
    holds the shared `lines` buffer of the open page, the finished `pages`
    and the cursor `y`; its methods append the drawing operators that the
    source's closures push. The functions before the class say which lines
    each operation appends. Numbers are written by `fmt`, the model of
    `toFixed(2)`. */
module PdfPage {
  import opened Text
  import opened Values
  import opened PdfText
  import opened PdfColumns
  import opened PdfWrap

  /** `Number.prototype.toFixed(2)`, left abstract. */
  type Fmt = real -> string

  // content-stream operators: begin/end a text object, line width, black stroke and fill
  const BeginText: string := "BT"
  const EndText: string := "ET"
  const LineWidth: string := "0.5 w"
  const StrokeBlack: string := "0 0 0 RG"
  const FillBlack: string := "0 0 0 rg"
  const ResetMatrix: string := "1 0 0 1 0 0 Tm"
  const BodyFont: string := "/F1 10 Tf"
  const StartLines: seq<string> := [BeginText, BodyFont, FillBlack]
  const HeaderFill: string := "0.92 0.92 0.92"
  /** `lineH + cellPadding * 2`, the height of the header row. */
  const HeaderRowH: real := LineH + CellPadding * 2.0
  /** `pageH - marginTop`, where every page starts. */
  const TableTop: real := PageH - MarginTop
  /** Where the header row starts on the first page, below the title. */
  const FirstHeaderTop: real := TableTop - LineH * 2.2

  // ---- the lines each drawing operation appends ----

  function SizeLine(size: nat): string
  {
    "/F1 " + NatStr(size) + " Tf"
  }

  /** `textAt`: an optional font-size switch around one `Td ... Tj`. */
  function TextAtLines(fmt: Fmt, x: real, y: real, text: string, size: Option<nat>): seq<string>
  {
    var switch := size.Some? && size.value != 0;
    (if switch then [SizeLine(size.value)] else [])
    + [fmt(x) + " " + fmt(y) + " Td (" + EscapePdfText(text) + ") Tj"]
    + (if switch then [BodyFont] else [])
  }

  function Box(fmt: Fmt, x: real, y: real, w: real, h: real): string
  {
    fmt(x) + " " + fmt(y) + " " + fmt(w) + " " + fmt(h)
  }

  /** `drawRect`: leave text mode, optionally fill, stroke, re-enter text mode. */
  function RectLines(fmt: Fmt, x: real, y: real, w: real, h: real, fill: Option<string>): seq<string>
  {
    [EndText, LineWidth]
    + (if fill.Some? && fill.value != "" then [fill.value + " rg", Box(fmt, x, y, w, h) + " re f", FillBlack] else [])
    + [StrokeBlack, Box(fmt, x, y, w, h) + " re S", BeginText, BodyFont]
  }

  /** `textAtBold`: the same text twice, the second 0.35 pt to the right. */
  function BoldTextLines(fmt: Fmt, x: real, y: real, text: string, size: Option<nat>): seq<string>
  {
    [ResetMatrix] + TextAtLines(fmt, x, y, text, size) + [ResetMatrix] + TextAtLines(fmt, x + 0.35, y, text, size)
  }

  function SeparatorLine(fmt: Fmt, x: real, yBottom: real, h: real): string
  {
    fmt(x) + " " + fmt(yBottom) + " m " + fmt(x) + " " + fmt(yBottom + h) + " l S"
  }

  /** The vertical separators at the inner edges `xs[1]` .. `xs[k - 1]`. */
  function Separators(fmt: Fmt, xs: seq<real>, k: nat, yBottom: real, h: real): seq<string>
    requires k <= |xs|
  {
    if k <= 1 then [] else Separators(fmt, xs, k - 1, yBottom, h) + [SeparatorLine(fmt, xs[k - 1], yBottom, h)]
  }

  /** The separator block of the header row and of every data row. */
  function RuleLines(fmt: Fmt, xs: seq<real>, n: nat, yBottom: real, h: real): seq<string>
    requires n <= |xs|
  {
    [EndText, LineWidth, StrokeBlack] + Separators(fmt, xs, n, yBottom, h) + [BeginText, BodyFont]
  }

  /** The bold label of column `c`, placed by the column's alignment. */
  function HeaderLabelLines(l: Layout, fmt: Fmt, headerY: real, c: nat): seq<string>
    requires l.Valid() && c < |l.columns|
  {
    var header := l.columns[c].header;
    BoldTextLines(fmt, CellTextX(l, c, header, FontSizeHeader as real),
                  headerY + CellPadding + FontSizeHeader as real, header, Some(FontSizeHeader))
  }

  /** The bold header labels of the first `k` columns. */
  function HeaderTexts(l: Layout, fmt: Fmt, headerY: real, k: nat): seq<string>
    requires l.Valid() && k <= |l.columns|
  {
    if k == 0 then [] else HeaderTexts(l, fmt, headerY, k - 1) + HeaderLabelLines(l, fmt, headerY, k - 1)
  }

  /** `drawHeaderRow(yTop)`: shaded box, separators, bold labels. */
  function HeaderRowLines(l: Layout, fmt: Fmt, yTop: real): (r: seq<string>)
    requires l.Valid()
    ensures |r| >= 1
  {
    var headerY := yTop - HeaderRowH;
    RectLines(fmt, MarginX, headerY, UsableW, HeaderRowH, Some(HeaderFill))
    + RuleLines(fmt, l.colXs, |l.columns|, headerY, HeaderRowH)
    + HeaderTexts(l, fmt, headerY, |l.columns|)
  }

  /** The title, drawn once, on the first page. */
  function TitleLines(fmt: Fmt, title: string): seq<string>
  {
    [ResetMatrix] + TextAtLines(fmt, MarginX, TableTop, title, Some(FontSizeTitle))
  }

  /** What every page begins with: `startPage`, the title on the first page
      only, then the header row. */
  function PageHead(l: Layout, fmt: Fmt, title: string, first: bool): (h: seq<string>)
    requires l.Valid()
    ensures |h| >= 4 && h[..3] == StartLines
  {
    var rest := if first then TitleLines(fmt, title) + HeaderRowLines(l, fmt, FirstHeaderTop)
                else HeaderRowLines(l, fmt, TableTop);
    assert |rest| >= 1;
    StartLines + rest
  }

  predicate Prefix(p: seq<string>, s: seq<string>)
  {
    |p| <= |s| && s[..|p|] == p
  }

  lemma PrefixAppend(p: seq<string>, s: seq<string>, more: seq<string>)
    requires Prefix(p, s)
    ensures Prefix(p, s + more)
  {
    assert (s + more)[..|p|] == s[..|p|];
  }

  /** A finished page: its head, then anything, then `ET` from `endPage`. */
  predicate ClosedPage(head: seq<string>, ls: seq<string>)
  {
    |ls| >= 1 && Prefix(head, ls[..|ls| - 1]) && ls[|ls| - 1] == EndText
  }

  /** The finished pages, oldest first: each is its lines joined by
      newlines and is a closed page, the first with head `first` and the
      others with head `next`. */
  ghost predicate PagesOk(first: seq<string>, next: seq<string>, pages: seq<string>, closed: seq<seq<string>>)
    decreases |pages|
  {
    && |pages| == |closed|
    && (|pages| > 0 ==>
         && PagesOk(first, next, pages[..|pages| - 1], closed[..|closed| - 1])
         && pages[|pages| - 1] == Join(closed[|closed| - 1], "\n")
         && ClosedPage(if |pages| == 1 then first else next, closed[|closed| - 1]))
  }

  lemma {:induction false} PagesOkAt(first: seq<string>, next: seq<string>, pages: seq<string>, closed: seq<seq<string>>, i: nat)
    requires PagesOk(first, next, pages, closed) && i < |pages|
    ensures pages[i] == Join(closed[i], "\n") && ClosedPage(if i == 0 then first else next, closed[i])
  {
    if i < |pages| - 1 {
      PagesOkAt(first, next, pages[..|pages| - 1], closed[..|closed| - 1], i);
    }
  }

  lemma PagesOkSnoc(first: seq<string>, next: seq<string>, pages: seq<string>, closed: seq<seq<string>>, p: string, c: seq<string>)
    requires PagesOk(first, next, pages, closed)
    requires p == Join(c, "\n") && ClosedPage(if |pages| == 0 then first else next, c)
    ensures PagesOk(first, next, pages + [p], closed + [c])
  {
    assert (pages + [p])[..|pages|] == pages;
    assert (closed + [c])[..|closed|] == closed;
  }

  // ---- data rows ----

  /** `Math.max(1, ...wrapped.map((w) => w.length))`. */
  function RowLineCount(wrapped: seq<seq<string>>): (n: nat)
    ensures n >= 1
    ensures forall c :: 0 <= c < |wrapped| ==> |wrapped[c]| <= n
    ensures n == 1 || exists c :: 0 <= c < |wrapped| && |wrapped[c]| == n
  {
    if |wrapped| == 0 then 1
    else
      var m := RowLineCount(wrapped[1..]);
      assert forall c :: 1 <= c < |wrapped| ==> wrapped[c] == wrapped[1..][c - 1];
      if |wrapped[0]| > m then |wrapped[0]| else m
  }

  /** `wrapped[c][l] ?? ''`. */
  function CellLine(wrapped: seq<seq<string>>, c: nat, line: nat): string
    requires c < |wrapped|
  {
    if line < |wrapped[c]| then wrapped[c][line] else ""
  }

  /** The baseline of text line `line` (counted from the top) of a row. */
  function TextBaseline(rowY: real, rowLines: nat, line: nat): real
  {
    rowY + CellPadding + FontSize as real + (rowLines as real - 1.0 - line as real) * LineH
  }

  /** Line `line` of the cell in column `c`, placed by the column's alignment. */
  function CellTextLines(l: Layout, fmt: Fmt, wrapped: seq<seq<string>>, rowLines: nat, rowY: real, line: nat, c: nat): seq<string>
    requires l.Valid() && |wrapped| == |l.columns| && c < |l.columns|
  {
    var text := CellLine(wrapped, c, line);
    [ResetMatrix] + TextAtLines(fmt, CellTextX(l, c, text, FontSize as real), TextBaseline(rowY, rowLines, line), text, None)
  }

  /** The text of line `line` in the first `k` columns. */
  function RowCellTexts(l: Layout, fmt: Fmt, wrapped: seq<seq<string>>, rowLines: nat, rowY: real, line: nat, k: nat): seq<string>
    requires l.Valid() && |wrapped| == |l.columns| && k <= |l.columns|
  {
    if k == 0 then []
    else RowCellTexts(l, fmt, wrapped, rowLines, rowY, line, k - 1) + CellTextLines(l, fmt, wrapped, rowLines, rowY, line, k - 1)
  }

  /** Text line `line` of a row across all columns. */
  function RowLineTexts(l: Layout, fmt: Fmt, wrapped: seq<seq<string>>, rowLines: nat, rowY: real, line: nat): seq<string>
    requires l.Valid() && |wrapped| == |l.columns|
  {
    [ResetMatrix] + RowCellTexts(l, fmt, wrapped, rowLines, rowY, line, |l.columns|)
  }

  /** The first `k` text lines of a row. */
  function RowTexts(l: Layout, fmt: Fmt, wrapped: seq<seq<string>>, rowLines: nat, rowY: real, k: nat): seq<string>
    requires l.Valid() && |wrapped| == |l.columns|
  {
    if k == 0 then [] else RowTexts(l, fmt, wrapped, rowLines, rowY, k - 1) + RowLineTexts(l, fmt, wrapped, rowLines, rowY, k - 1)
  }

  /** `rowLines * lineH + cellPadding * 2`. */
  function RowHeight(rowLines: nat): real
  {
    rowLines as real * LineH + CellPadding * 2.0
  }

  /** Everything one data row draws below `yTop`. */
  function RowDrawLines(l: Layout, fmt: Fmt, wrapped: seq<seq<string>>, yTop: real): seq<string>
    requires l.Valid() && |wrapped| == |l.columns|
  {
    var rowLines := RowLineCount(wrapped);
    var rowY := yTop - RowHeight(rowLines);
    RectLines(fmt, MarginX, rowY, UsableW, RowHeight(rowLines), None)
    + RuleLines(fmt, l.colXs, |l.columns|, rowY, RowHeight(rowLines))
    + RowTexts(l, fmt, wrapped, rowLines, rowY, rowLines)
  }

  /** `Math.ceil(r)`. */
  function Ceil(r: real): int
  {
    if r.Floor as real == r then r.Floor else r.Floor + 1
  }

  /** `Math.ceil(rowH / lineH) + 1`, the room a row asks `ensureRoom` for:
      its line count plus 2. */
  method RoomFor(rowLines: nat) returns (need: nat)
    ensures need == rowLines + 2
  {
    var q := RowHeight(rowLines) / LineH;
    assert q == rowLines as real + 10.0 / 14.0;
    assert q.Floor == rowLines;
    need := Ceil(q) + 1;
  }

  /** `ensureRoom`'s test: the cursor is at least `linesNeeded` lines above
      the bottom margin. */
  predicate HasRoom(y: real, linesNeeded: nat)
  {
    y >= MarginBottom + linesNeeded as real * LineH
  }

  /** A row drawn below a cursor that `ensureRoom` accepted ends above the
      bottom margin, and so does a row of at most 51 lines drawn below the
      header row of a fresh page. */
  lemma RowClearsMargin(rowLines: nat, yTop: real)
    requires HasRoom(yTop, rowLines + 2) || yTop == TableTop - HeaderRowH
    ensures rowLines <= 51 ==> yTop - RowHeight(rowLines) >= MarginBottom
    ensures HasRoom(yTop, rowLines + 2) ==> yTop - RowHeight(rowLines) >= MarginBottom
  {
  }

  /** The bound of `RowClearsMargin` is tight: a row of 52 lines or more
      that `ensureRoom` moved to a fresh page ends below the bottom margin. */
  lemma TallRowOverflows(rowLines: nat)
    requires rowLines >= 52
    ensures !HasRoom(TableTop - HeaderRowH, rowLines + 2)
    ensures (TableTop - HeaderRowH) - RowHeight(rowLines) < MarginBottom
  {
  }

  /** The cells of one row, wrapped column by column (the `columns.map` of
      the row loop): `toText(row[col.key])` cut to the column's budget. */
  method WrapRow(l: Layout, row: Row) returns (wrapped: seq<seq<string>>)
    requires Drawable(l)
    ensures |wrapped| == |l.columns|
    ensures forall c :: 0 <= c < |l.columns| ==>
      wrapped[c] == Wrap(ToText(Get(row, l.columns[c].key)), l.maxChars[c])
    ensures wrapped == WrappedRow(l, row)
  {
    ghost var all := WrappedRow(l, row);
    wrapped := [];
    var c := 0;
    while c < |l.columns|
      invariant 0 <= c <= |l.columns|
      invariant wrapped == all[..c]
    {
      var cell := WrapCellText(ToText(Get(row, l.columns[c].key)), l.maxChars[c]);
      assert all[..c + 1] == all[..c] + [cell];
      wrapped := wrapped + [cell];
      c := c + 1;
    }
    assert all[..c] == all;
  }

  /** A layout the row loop can use: consistent, with a positive budget per column. */
  predicate Drawable(l: Layout)
  {
    l.Valid() && forall c :: 0 <= c < |l.columns| ==> l.maxChars[c] >= 1
  }

  /** The wrapped cells of one row, as `WrapRow` computes them. */
  function WrappedRow(l: Layout, row: Row): (w: seq<seq<string>>)
    requires Drawable(l)
    ensures |w| == |l.columns|
    ensures forall c :: 0 <= c < |l.columns| ==> w[c] == Wrap(ToText(Get(row, l.columns[c].key)), l.maxChars[c])
  {
    seq(|l.columns|, c requires 0 <= c < |l.columns| => Wrap(ToText(Get(row, l.columns[c].key)), l.maxChars[c]))
  }

  // ---- the row loop as a function of its inputs ----

  /** What the row loop has produced so far: the finished pages (as lines),
      the lines of the open page and the cursor. */
  datatype Doc = Doc(closed: seq<seq<string>>, lines: seq<string>, y: real)

  /** After the first page's head (the title and the header row). */
  function FirstDoc(first: seq<string>): Doc
  {
    Doc([], first, FirstHeaderTop - HeaderRowH)
  }

  /** `ensureRoom(linesNeeded)`: keep the page while there is room for
      `linesNeeded` lines, else close it with `ET` and open the next page,
      which begins with `next`. */
  function RoomStep(next: seq<string>, d: Doc, linesNeeded: nat): Doc
  {
    if HasRoom(d.y, linesNeeded) then d
    else Doc(d.closed + [d.lines + [EndText]], next, TableTop - HeaderRowH)
  }

  /** A row drawn below the cursor of `d`, the cursor moved to its bottom. */
  function DrawStep(l: Layout, fmt: Fmt, d: Doc, wrapped: seq<seq<string>>): Doc
    requires l.Valid() && |wrapped| == |l.columns|
  {
    Doc(d.closed, d.lines + RowDrawLines(l, fmt, wrapped, d.y), d.y - RowHeight(RowLineCount(wrapped)))
  }

  /** One pass of the row loop: make room for the row's lines plus 2, then
      draw the row. */
  function RowStep(l: Layout, fmt: Fmt, next: seq<string>, d: Doc, wrapped: seq<seq<string>>): Doc
    requires l.Valid() && |wrapped| == |l.columns|
  {
    DrawStep(l, fmt, RoomStep(next, d, RowLineCount(wrapped) + 2), wrapped)
  }

  /** Whatever the state before it, `ensureRoom` for a row of at most 51
      lines (plus 2) leaves a cursor from which the row ends above the
      bottom margin. */
  lemma RoomedRowClears(next: seq<string>, d: Doc, rowLines: nat)
    ensures rowLines <= 51 ==> RoomStep(next, d, rowLines + 2).y - RowHeight(rowLines) >= MarginBottom
  {
    if HasRoom(d.y, rowLines + 2) {
      RowClearsMargin(rowLines, d.y);
    } else {
      RowClearsMargin(rowLines, TableTop - HeaderRowH);
    }
  }

  /** The state after drawing a row below the cursor of `d` is `DrawStep`. */
  lemma DrawStepOf(l: Layout, fmt: Fmt, d: Doc, wrapped: seq<seq<string>>, e: Doc)
    requires l.Valid() && |wrapped| == |l.columns|
    requires e.closed == d.closed && e.lines == d.lines + RowDrawLines(l, fmt, wrapped, d.y)
    requires e.y == d.y - RowHeight(RowLineCount(wrapped))
    ensures e == DrawStep(l, fmt, d, wrapped)
  {
  }

  /** The row loop over `rows`, in order, from `d`. */
  function RowsFrom(l: Layout, fmt: Fmt, next: seq<string>, d: Doc, rows: seq<Row>): Doc
    requires Drawable(l)
    decreases |rows|
  {
    if |rows| == 0 then d
    else RowStep(l, fmt, next, RowsFrom(l, fmt, next, d, rows[..|rows| - 1]), WrappedRow(l, rows[|rows| - 1]))
  }

  /** The row loop over one more row is one more pass. */
  lemma RowsFromNext(l: Layout, fmt: Fmt, next: seq<string>, d: Doc, rows: seq<Row>, i: nat)
    requires Drawable(l) && i < |rows|
    ensures RowsFrom(l, fmt, next, d, rows[..i + 1])
      == RowStep(l, fmt, next, RowsFrom(l, fmt, next, d, rows[..i]), WrappedRow(l, rows[i]))
  {
    assert rows[..i + 1][..i] == rows[..i];
  }

  /** The pages of a row loop that starts after `first` and breaks to
      `next`: the pages it finished, then the open page closed by `endPage`. */
  function PagesOf(l: Layout, fmt: Fmt, first: seq<string>, next: seq<string>, rows: seq<Row>): seq<seq<string>>
    requires Drawable(l)
  {
    var d := RowsFrom(l, fmt, next, FirstDoc(first), rows);
    d.closed + [d.lines + [EndText]]
  }

  /** The lines of every page of the table, the first page headed by the
      title and the header row, every later page by the header row. */
  function RenderedPages(l: Layout, fmt: Fmt, title: string, rows: seq<Row>): seq<seq<string>>
    requires Drawable(l)
  {
    PagesOf(l, fmt, PageHead(l, fmt, title, true), PageHead(l, fmt, title, false), rows)
  }

  /** The content streams: each page's lines joined by newlines. */
  function Streams(pageLines: seq<seq<string>>): (r: seq<string>)
    ensures |r| == |pageLines|
    ensures forall i :: 0 <= i < |pageLines| ==> r[i] == Join(pageLines[i], "\n")
  {
    if |pageLines| == 0 then [] else Streams(pageLines[..|pageLines| - 1]) + [Join(pageLines[|pageLines| - 1], "\n")]
  }

  /** All lines of all pages, one page after the other. */
  function Flatten(pages: seq<seq<string>>): seq<string>
  {
    if |pages| == 0 then [] else Flatten(pages[..|pages| - 1]) + pages[|pages| - 1]
  }

  /** The output so far, read page after page. */
  function Output(d: Doc): seq<string>
  {
    Flatten(d.closed) + d.lines
  }

  /** The state before row `i` is drawn. */
  function Before(l: Layout, fmt: Fmt, first: seq<string>, next: seq<string>, rows: seq<Row>, i: nat): Doc
    requires Drawable(l) && i <= |rows|
  {
    RowsFrom(l, fmt, next, FirstDoc(first), rows[..i])
  }

  /** The state before row `i + 1` is one pass of the loop after the state before row `i`. */
  lemma BeforeNext(l: Layout, fmt: Fmt, first: seq<string>, next: seq<string>, rows: seq<Row>, i: nat)
    requires Drawable(l) && i < |rows|
    ensures Before(l, fmt, first, next, rows, i + 1)
      == RowStep(l, fmt, next, Before(l, fmt, first, next, rows, i), WrappedRow(l, rows[i]))
  {
    RowsFromNext(l, fmt, next, FirstDoc(first), rows, i);
  }

  /** What one pass of the row loop adds to the output: a page break
      (`ET`, then the next page's head) when the page has no room for the
      row, then the row itself, drawn below the cursor. */
  function StepLines(l: Layout, fmt: Fmt, next: seq<string>, d: Doc, wrapped: seq<seq<string>>): seq<string>
    requires l.Valid() && |wrapped| == |l.columns|
  {
    if HasRoom(d.y, RowLineCount(wrapped) + 2) then RowDrawLines(l, fmt, wrapped, d.y)
    else [EndText] + next + RowDrawLines(l, fmt, wrapped, TableTop - HeaderRowH)
  }

  lemma FlattenSnoc(pages: seq<seq<string>>, page: seq<string>)
    ensures Flatten(pages + [page]) == Flatten(pages) + page
  {
    assert (pages + [page])[..|pages|] == pages;
  }

  lemma BreakStream(closed: seq<seq<string>>, lines: seq<string>, next: seq<string>, r: seq<string>)
    ensures Flatten(closed + [lines + [EndText]]) + (next + r) == Flatten(closed) + lines + ([EndText] + next + r)
  {
    FlattenSnoc(closed, lines + [EndText]);
  }

  /** One pass of the row loop appends exactly `StepLines` to the output
      read page after page. */
  lemma RowStepStream(l: Layout, fmt: Fmt, next: seq<string>, d: Doc, wrapped: seq<seq<string>>)
    requires l.Valid() && |wrapped| == |l.columns|
    ensures Output(RowStep(l, fmt, next, d, wrapped)) == Output(d) + StepLines(l, fmt, next, d, wrapped)
  {
    if HasRoom(d.y, RowLineCount(wrapped) + 2) {
      assert RowStep(l, fmt, next, d, wrapped) == DrawStep(l, fmt, d, wrapped);
    } else {
      BreakStream(d.closed, d.lines, next, RowDrawLines(l, fmt, wrapped, TableTop - HeaderRowH));
    }
  }

  /** What row `i` of `rows` adds to the output. */
  function RowEvent(l: Layout, fmt: Fmt, first: seq<string>, next: seq<string>, rows: seq<Row>, i: nat): seq<string>
    requires Drawable(l) && i < |rows|
  {
    StepLines(l, fmt, next, Before(l, fmt, first, next, rows, i), WrappedRow(l, rows[i]))
  }

  /** What each row adds, in row order. */
  function Events(l: Layout, fmt: Fmt, first: seq<string>, next: seq<string>, rows: seq<Row>): (evs: seq<seq<string>>)
    requires Drawable(l)
    ensures |evs| == |rows|
    ensures forall i :: 0 <= i < |rows| ==> evs[i] == RowEvent(l, fmt, first, next, rows, i)
  {
    seq(|rows|, i requires 0 <= i < |rows| => RowEvent(l, fmt, first, next, rows, i))
  }

  /** Outputs that each grow by the next event are the first output followed
      by the events so far. */
  lemma {:induction false} Telescope(outs: seq<seq<string>>, evs: seq<seq<string>>, k: nat)
    requires |outs| == |evs| + 1 && k <= |evs|
    requires forall i :: 0 <= i < |evs| ==> outs[i + 1] == outs[i] + evs[i]
    ensures outs[k] == outs[0] + Flatten(evs[..k])
  {
    if k == 0 {
      assert evs[..0] == [];
      assert outs[0] + [] == outs[0];
    } else {
      Telescope(outs, evs, k - 1);
      assert evs[..k][..k - 1] == evs[..k - 1];
      SeqAssoc(outs[0], Flatten(evs[..k - 1]), evs[k - 1]);
    }
  }

  /** Before any row, the output is the first page's head. */
  lemma OutputFirst(l: Layout, fmt: Fmt, first: seq<string>, next: seq<string>, rows: seq<Row>)
    requires Drawable(l)
    ensures Output(Before(l, fmt, first, next, rows, 0)) == first
  {
    assert rows[..0] == [];
    assert Flatten([]) == [];
    assert [] + first == first;
  }

  /** One more row appends its event to the output. */
  lemma OutputNext(l: Layout, fmt: Fmt, first: seq<string>, next: seq<string>, rows: seq<Row>, i: nat)
    requires Drawable(l) && i < |rows|
    ensures Output(Before(l, fmt, first, next, rows, i + 1))
      == Output(Before(l, fmt, first, next, rows, i)) + RowEvent(l, fmt, first, next, rows, i)
  {
    BeforeNext(l, fmt, first, next, rows, i);
    RowStepStream(l, fmt, next, Before(l, fmt, first, next, rows, i), WrappedRow(l, rows[i]));
  }

  /** The output after `k` rows, read page after page, is the first page's
      head followed by every row's drawing in row order, each preceded by
      a page break exactly when the page had no room for it. */
  lemma RowsInOrder(l: Layout, fmt: Fmt, first: seq<string>, next: seq<string>, rows: seq<Row>, k: nat)
    requires Drawable(l) && k <= |rows|
    ensures Output(Before(l, fmt, first, next, rows, k)) == first + Flatten(Events(l, fmt, first, next, rows)[..k])
  {
    var outs := seq(|rows| + 1, i requires 0 <= i <= |rows| => Output(Before(l, fmt, first, next, rows, i)));
    var evs := Events(l, fmt, first, next, rows);
    forall i | 0 <= i < |evs|
      ensures outs[i + 1] == outs[i] + evs[i]
    {
      OutputNext(l, fmt, first, next, rows, i);
    }
    OutputFirst(l, fmt, first, next, rows);
    Telescope(outs, evs, k);
  }

  /** The state before row `|rows|` is the state after the whole loop. */
  lemma BeforeAll(l: Layout, fmt: Fmt, first: seq<string>, next: seq<string>, rows: seq<Row>)
    requires Drawable(l)
    ensures Before(l, fmt, first, next, rows, |rows|) == RowsFrom(l, fmt, next, FirstDoc(first), rows)
  {
    assert rows[..|rows|] == rows;
  }

  /** Closing the open page with `ET` appends `ET` to the output. */
  lemma CloseOutput(closed: seq<seq<string>>, lines: seq<string>, first: seq<string>, evs: seq<seq<string>>)
    requires Flatten(closed) + lines == first + Flatten(evs[..|evs|])
    ensures Flatten(closed + [lines + [EndText]]) == first + Flatten(evs) + [EndText]
  {
    assert evs[..|evs|] == evs;
    FlattenSnoc(closed, lines + [EndText]);
    SeqAssoc(Flatten(closed), lines, [EndText]);
  }

  /** All the pages, one after the other: the first head, every row in
      order with its page breaks, and the closing `ET`. */
  lemma PagesInOrder(l: Layout, fmt: Fmt, first: seq<string>, next: seq<string>, rows: seq<Row>)
    requires Drawable(l)
    ensures Flatten(PagesOf(l, fmt, first, next, rows)) == first + Flatten(Events(l, fmt, first, next, rows)) + [EndText]
  {
    RowsInOrder(l, fmt, first, next, rows, |rows|);
    BeforeAll(l, fmt, first, next, rows);
    var d := RowsFrom(l, fmt, next, FirstDoc(first), rows);
    CloseOutput(d.closed, d.lines, first, Events(l, fmt, first, next, rows));
  }

  /** The whole table, page after page: the first page's head (title and
      header row), then each row in order, each preceded by `ET` and the
      next page's header row exactly when the page had no room left for
      it, then the closing `ET`. */
  lemma RenderedContent(l: Layout, fmt: Fmt, title: string, rows: seq<Row>)
    requires Drawable(l)
    ensures var first, next := PageHead(l, fmt, title, true), PageHead(l, fmt, title, false);
      Flatten(RenderedPages(l, fmt, title, rows)) == first + Flatten(Events(l, fmt, first, next, rows)) + [EndText]
  {
    PagesInOrder(l, fmt, PageHead(l, fmt, title, true), PageHead(l, fmt, title, false), rows);
  }

  // ---- the page writer ----

  class PageWriter {
    const layout: Layout
    const fmt: Fmt
    const title: string
    /** The operators of the open page (`lines`). */
    var lines: seq<string>
    /** The finished content streams (`pages`). */
    var pages: seq<string>
    /** The cursor: the bottom of what has been drawn on the open page. */
    var y: real
    /** The operators of each finished page, before joining. */
    ghost var closed: seq<seq<string>>
    /** What the first page and every later page begin with. */
    ghost const firstHead: seq<string>
    ghost const nextHead: seq<string>

    /** What the row loop has produced so far. */
    ghost function State(): Doc
      reads this`closed, this`lines, this`y
    {
      Doc(closed, lines, y)
    }

    ghost function HeadOf(first: bool): seq<string>
    {
      if first then firstHead else nextHead
    }

    /** The heads are those of the layout and the title. (The trigger keeps
        the heads folded until a proof asks for one by `HeadOf`.) */
    ghost predicate HeadsOk()
    {
      && layout.Valid()
      && forall first: bool {:trigger HeadOf(first)} :: HeadOf(first) == PageHead(layout, fmt, title, first)
    }

    /** Every finished page has its head and ends with `ET`; the first one
        alone carries the title. */
    ghost predicate PagesValid()
      reads this`pages, this`closed
    {
      PagesOk(firstHead, nextHead, pages, closed)
    }

    /** A page is open and begins with its head. */
    ghost predicate Valid()
      reads this`pages, this`closed, this`lines
    {
      PagesValid() && Prefix(if |pages| == 0 then firstHead else nextHead, lines)
    }

    /** Lines 209-217: open the first page, draw the title and the header row. */
    constructor (layout: Layout, fmt: Fmt, title: string)
      requires layout.Valid()
      ensures this.layout == layout && this.fmt == fmt && this.title == title
      ensures HeadsOk() && Valid()
      ensures pages == [] && closed == [] && lines == firstHead
      ensures y == FirstHeaderTop - HeaderRowH
    {
      this.layout := layout;
      this.fmt := fmt;
      this.title := title;
      firstHead := PageHead(layout, fmt, title, true);
      nextHead := PageHead(layout, fmt, title, false);
      lines := [];
      pages := [];
      closed := [];
      y := 0.0;
      new;
      ghost var head := firstHead;
      assert head == StartLines + TitleLines(fmt, title) + HeaderRowLines(layout, fmt, FirstHeaderTop);
      StartPage();
      y := TableTop;
      DrawTitle();
      y := y - LineH * 2.2;
      assert y == FirstHeaderTop;
      var hdr := DrawHeaderRow(y);
      y := hdr;
      assert lines == head;
      assert lines[..|head|] == head;
    }

    /** The title at the top of the first page, in the title size. */
    method DrawTitle()
      modifies this`lines
      ensures lines == old(lines) + TitleLines(fmt, title)
    {
      PushLine(ResetMatrix);
      TextAt(MarginX, TableTop, title, Some(FontSizeTitle));
      SeqAssoc(old(lines), [ResetMatrix], TextAtLines(fmt, MarginX, TableTop, title, Some(FontSizeTitle)));
    }

    /** `pushLine`. */
    method PushLine(s: string)
      modifies this`lines
      ensures lines == old(lines) + [s]
    {
      lines := lines + [s];
    }

    /** `startPage`: empty the buffer in place and open text mode. */
    method StartPage()
      modifies this`lines
      ensures lines == StartLines
    {
      lines := [];
      PushLine(BeginText);
      PushLine(BodyFont);
      PushLine(FillBlack);
    }

    /** `endPage`: close text mode and join the buffer into a finished page. */
    method EndPage()
      requires Valid()
      modifies this`lines, this`pages, this`closed
      ensures PagesValid()
      ensures lines == old(lines) + [EndText]
      ensures closed == old(closed) + [lines]
      ensures pages == old(pages) + [Join(lines, "\n")]
    {
      PushLine(EndText);
      assert lines[..|lines| - 1] == old(lines);
      PagesOkSnoc(firstHead, nextHead, pages, closed, Join(lines, "\n"), lines);
      pages := pages + [Join(lines, "\n")];
      closed := closed + [lines];
    }

    /** `textAt`. */
    method TextAt(x: real, y: real, text: string, size: Option<nat>)
      modifies this`lines
      ensures lines == old(lines) + TextAtLines(fmt, x, y, text, size)
    {
      var safe := EscapePdfText(text);
      if size.Some? && size.value != 0 {
        PushLine(SizeLine(size.value));
      }
      PushLine(fmt(x) + " " + fmt(y) + " Td (" + safe + ") Tj");
      if size.Some? && size.value != 0 {
        PushLine(BodyFont);
      }
    }

    /** `drawRect`. */
    method DrawRect(x: real, y: real, w: real, h: real, fill: Option<string>)
      modifies this`lines
      ensures lines == old(lines) + RectLines(fmt, x, y, w, h, fill)
    {
      PushLine(EndText);
      PushLine(LineWidth);
      if fill.Some? && fill.value != "" {
        PushLine(fill.value + " rg");
        PushLine(Box(fmt, x, y, w, h) + " re f");
        PushLine(FillBlack);
      }
      PushLine(StrokeBlack);
      PushLine(Box(fmt, x, y, w, h) + " re S");
      PushLine(BeginText);
      PushLine(BodyFont);
    }

    /** `textAtBold`. */
    method TextAtBold(x: real, y: real, text: string, size: Option<nat>)
      modifies this`lines
      ensures lines == old(lines) + BoldTextLines(fmt, x, y, text, size)
    {
      PushLine(ResetMatrix);
      TextAt(x, y, text, size);
      PushLine(ResetMatrix);
      TextAt(x + 0.35, y, text, size);
    }

    /** The separator loop shared by the header row and the data rows. */
    method DrawRules(yBottom: real, h: real)
      requires layout.Valid()
      modifies this`lines
      ensures lines == old(lines) + RuleLines(fmt, layout.colXs, |layout.columns|, yBottom, h)
    {
      PushLine(EndText);
      PushLine(LineWidth);
      PushLine(StrokeBlack);
      ghost var before := lines;
      var c := 1;
      while c < |layout.columns|
        invariant 1 <= c <= |layout.colXs|
        invariant c <= |layout.columns| || |layout.columns| == 0
        invariant lines == before + Separators(fmt, layout.colXs, c, yBottom, h)
      {
        var x := layout.colXs[c];
        PushLine(SeparatorLine(fmt, x, yBottom, h));
        SeqAssoc(before, Separators(fmt, layout.colXs, c, yBottom, h), [SeparatorLine(fmt, x, yBottom, h)]);
        c := c + 1;
      }
      assert Separators(fmt, layout.colXs, c, yBottom, h) == Separators(fmt, layout.colXs, |layout.columns|, yBottom, h);
      PushLine(BeginText);
      PushLine(BodyFont);
    }

    /** `drawHeaderRow(yTop)`; returns `headerY`, the bottom of the header row. */
    method DrawHeaderRow(yTop: real) returns (headerY: real)
      requires layout.Valid()
      modifies this`lines
      ensures lines == old(lines) + HeaderRowLines(layout, fmt, yTop)
      ensures headerY == yTop - HeaderRowH
    {
      headerY := yTop - HeaderRowH;
      ghost var rect := RectLines(fmt, MarginX, headerY, UsableW, HeaderRowH, Some(HeaderFill));
      ghost var rules := RuleLines(fmt, layout.colXs, |layout.columns|, headerY, HeaderRowH);
      ghost var labels := HeaderTexts(layout, fmt, headerY, |layout.columns|);
      assert HeaderRowLines(layout, fmt, yTop) == rect + rules + labels;
      DrawRect(MarginX, headerY, UsableW, HeaderRowH, Some(HeaderFill));
      DrawRules(headerY, HeaderRowH);
      SeqAssoc(old(lines), rect, rules);
      DrawHeaderLabels(headerY);
      SeqAssoc(old(lines), rect + rules, labels);
    }

    /** The label loop of `drawHeaderRow`. */
    method DrawHeaderLabels(headerY: real)
      requires layout.Valid()
      modifies this`lines
      ensures lines == old(lines) + HeaderTexts(layout, fmt, headerY, |layout.columns|)
    {
      var c := 0;
      while c < |layout.columns|
        invariant 0 <= c <= |layout.columns|
        invariant lines == old(lines) + HeaderTexts(layout, fmt, headerY, c)
      {
        DrawHeaderLabel(headerY, c);
        SeqAssoc(old(lines), HeaderTexts(layout, fmt, headerY, c), HeaderLabelLines(layout, fmt, headerY, c));
        c := c + 1;
      }
    }

    /** One bold header label, in the alignment of its column. */
    method DrawHeaderLabel(headerY: real, c: nat)
      requires layout.Valid() && c < |layout.columns|
      modifies this`lines
      ensures lines == old(lines) + HeaderLabelLines(layout, fmt, headerY, c)
    {
      var col := layout.columns[c];
      var x := CellTextX(layout, c, col.header, FontSizeHeader as real);
      var textY := headerY + CellPadding + FontSizeHeader as real;
      TextAtBold(x, textY, col.header, Some(FontSizeHeader));
    }

    /** `ensureRoom(linesNeeded)`: when the cursor is below
        `marginBottom + linesNeeded * lineH`, finish the page and open a new
        one with the header row (no title); otherwise change nothing. */
    method EnsureRoom(linesNeeded: nat) returns (ghost broke: bool)
      requires HeadsOk() && Valid()
      modifies this`lines, this`pages, this`closed, this`y
      ensures Valid()
      ensures broke <==> !HasRoom(old(y), linesNeeded)
      ensures |pages| == |old(pages)| + (if broke then 1 else 0)
      ensures broke ==>
        && closed == old(closed) + [old(lines) + [EndText]]
        && pages == old(pages) + [Join(old(lines) + [EndText], "\n")]
        && lines == nextHead
        && y == TableTop - HeaderRowH
      ensures !broke ==>
        closed == old(closed) && pages == old(pages) && lines == old(lines) && y == old(y)
      ensures HasRoom(y, linesNeeded) || y == TableTop - HeaderRowH
      ensures State() == RoomStep(nextHead, old(State()), linesNeeded)
    {
      var minY := MarginBottom + linesNeeded as real * LineH;
      broke := y < minY;
      if y < minY {
        NewPage();
      }
    }

    /** The page break of `ensureRoom`: `endPage`, `startPage`, the cursor
        back at the top and the header row drawn again. */
    method NewPage()
      requires HeadsOk() && Valid()
      modifies this`lines, this`pages, this`closed, this`y
      ensures Valid()
      ensures closed == old(closed) + [old(lines) + [EndText]]
      ensures pages == old(pages) + [Join(old(lines) + [EndText], "\n")]
      ensures lines == nextHead
      ensures y == TableTop - HeaderRowH
    {
      EndPage();
      OpenNextPage();
      assert lines[..|nextHead|] == nextHead;
    }

    /** A page after the first: `startPage`, the cursor at the top of the
        table and the header row. */
    method OpenNextPage()
      requires HeadsOk()
      modifies this`lines, this`y
      ensures lines == nextHead
      ensures y == TableTop - HeaderRowH
    {
      StartPage();
      y := TableTop;
      var hdr := DrawHeaderRow(y);
      y := hdr;
      assert HeadOf(false) == nextHead;
    }

    /** The text of a row: one text line after another, top to bottom. */
    method DrawRowTexts(wrapped: seq<seq<string>>, rowLines: nat, rowY: real)
      requires layout.Valid() && |wrapped| == |layout.columns|
      modifies this`lines
      ensures lines == old(lines) + RowTexts(layout, fmt, wrapped, rowLines, rowY, rowLines)
    {
      var l := 0;
      while l < rowLines
        invariant 0 <= l <= rowLines
        invariant lines == old(lines) + RowTexts(layout, fmt, wrapped, rowLines, rowY, l)
      {
        DrawRowLine(wrapped, rowLines, rowY, l);
        SeqAssoc(old(lines), RowTexts(layout, fmt, wrapped, rowLines, rowY, l), RowLineTexts(layout, fmt, wrapped, rowLines, rowY, l));
        l := l + 1;
      }
    }

    /** Text line `line` of a row across all columns (`''` below a cell's
        last line). */
    method DrawRowLine(wrapped: seq<seq<string>>, rowLines: nat, rowY: real, line: nat)
      requires layout.Valid() && |wrapped| == |layout.columns|
      modifies this`lines
      ensures lines == old(lines) + RowLineTexts(layout, fmt, wrapped, rowLines, rowY, line)
    {
      PushLine(ResetMatrix);
      ghost var lineStart := lines;
      var c := 0;
      while c < |layout.columns|
        invariant 0 <= c <= |layout.columns|
        invariant lines == lineStart + RowCellTexts(layout, fmt, wrapped, rowLines, rowY, line, c)
      {
        DrawCellLine(wrapped, rowLines, rowY, line, c);
        SeqAssoc(lineStart, RowCellTexts(layout, fmt, wrapped, rowLines, rowY, line, c),
                 CellTextLines(layout, fmt, wrapped, rowLines, rowY, line, c));
        c := c + 1;
      }
      SeqAssoc(old(lines), [ResetMatrix], RowCellTexts(layout, fmt, wrapped, rowLines, rowY, line, |layout.columns|));
    }

    /** One line of one cell, placed by the column's alignment. */
    method DrawCellLine(wrapped: seq<seq<string>>, rowLines: nat, rowY: real, line: nat, c: nat)
      requires layout.Valid() && |wrapped| == |layout.columns| && c < |layout.columns|
      modifies this`lines
      ensures lines == old(lines) + CellTextLines(layout, fmt, wrapped, rowLines, rowY, line, c)
    {
      var textY := TextBaseline(rowY, rowLines, line);
      var cellLine := CellLine(wrapped, c, line);
      var cellX := CellTextX(layout, c, cellLine, FontSize as real);
      PushLine(ResetMatrix);
      TextAt(cellX, textY, cellLine, None);
      SeqAssoc(old(lines), [ResetMatrix], TextAtLines(fmt, cellX, textY, cellLine, None));
    }

    /** The body of the row loop for one row's wrapped cells: make room,
        then draw the row. When the page has no room for the row's lines
        plus 2, the page is finished with `ET` and the row is drawn below
        the next page's header row; otherwise it is drawn below the cursor
        on the same page. A row of at most 51 lines ends above the bottom
        margin. */
    method DrawRow(wrapped: seq<seq<string>>)
      requires HeadsOk() && Valid() && |wrapped| == |layout.columns|
      modifies this`lines, this`pages, this`closed, this`y
      ensures Valid()
      ensures State() == RowStep(layout, fmt, nextHead, old(State()), wrapped)
      ensures |old(pages)| <= |pages| <= |old(pages)| + 1
      ensures RowLineCount(wrapped) <= 51 ==> y >= MarginBottom
    {
      ghost var before := State();
      var rowLines := RowLineCount(wrapped);
      var need := RoomFor(rowLines);
      ghost var broke := EnsureRoom(need);
      ghost var room := State();
      RoomedRowClears(nextHead, before, rowLines);
      DrawRowBody(wrapped);
      DrawStepOf(layout, fmt, room, wrapped, State());
    }

    /** The row loop of lines 230-263: one `DrawRow` per row, in order; at
        most one page break per row. */
    method DrawRows(rows: seq<Row>)
      requires HeadsOk() && Valid() && Drawable(layout)
      modifies this`lines, this`pages, this`closed, this`y
      ensures Valid()
      ensures State() == RowsFrom(layout, fmt, nextHead, old(State()), rows)
      ensures |old(pages)| <= |pages| <= |old(pages)| + |rows|
    {
      ghost var start := State();
      var i := 0;
      while i < |rows|
        invariant 0 <= i <= |rows|
        invariant Valid()
        invariant State() == RowsFrom(layout, fmt, nextHead, start, rows[..i])
        invariant |old(pages)| <= |pages| <= |old(pages)| + i
      {
        var wrapped := WrapRow(layout, rows[i]);
        DrawRow(wrapped);
        RowsFromNext(layout, fmt, nextHead, start, rows, i);
        i := i + 1;
      }
      assert rows[..i] == rows;
    }

    /** Lines 230-265 after the first head: the row loop, then `endPage`
        for the last page. */
    method DrawTable(rows: seq<Row>)
      requires HeadsOk() && Valid() && Drawable(layout)
      requires State() == FirstDoc(firstHead) && pages == []
      modifies this`lines, this`pages, this`closed, this`y
      ensures PagesValid()
      ensures closed == PagesOf(layout, fmt, firstHead, nextHead, rows)
      ensures 1 <= |pages| <= |rows| + 1
    {
      DrawRows(rows);
      EndPage();
    }

    /** The drawing of one row below the cursor, which it moves down by the
        row's height. */
    method DrawRowBody(wrapped: seq<seq<string>>)
      requires layout.Valid() && Valid() && |wrapped| == |layout.columns|
      modifies this`lines, this`y
      ensures Valid()
      ensures lines == old(lines) + RowDrawLines(layout, fmt, wrapped, old(y))
      ensures y == old(y) - RowHeight(RowLineCount(wrapped))
    {
      var rowLines := RowLineCount(wrapped);
      var rowH := RowHeight(rowLines);
      var rowY := y - rowH;
      ghost var rect := RectLines(fmt, MarginX, rowY, UsableW, rowH, None);
      ghost var rules := RuleLines(fmt, layout.colXs, |layout.columns|, rowY, rowH);
      ghost var texts := RowTexts(layout, fmt, wrapped, rowLines, rowY, rowLines);
      assert RowDrawLines(layout, fmt, wrapped, y) == rect + rules + texts;
      DrawRect(MarginX, rowY, UsableW, rowH, None);
      DrawRules(rowY, rowH);
      SeqAssoc(old(lines), rect, rules);
      DrawRowTexts(wrapped, rowLines, rowY);
      SeqAssoc(old(lines), rect + rules, texts);
      y := rowY;
      PrefixAppend(if |pages| == 0 then firstHead else nextHead, old(lines), rect + rules + texts);
    }
  }

  /** The operators every content stream opens with, one per line:
      "BT\n/F1 10 Tf\n0 0 0 rg\n". */
  const StreamOpen: string := Join(StartLines, "\n") + "\n"

  /** The shape every content stream has: it opens text mode, selects the
      font and black fill, and ends by closing text mode. */
  predicate FramedStream(p: string)
  {
    |p| >= |StreamOpen| + 3 && p[..|StreamOpen|] == StreamOpen && p[|p| - 3..] == "\nET"
  }

  /** A finished page whose head opens like every head is framed. */
  lemma ClosedPageFramed(head: seq<string>, ls: seq<string>)
    requires |head| >= 4 && head[..3] == StartLines && ClosedPage(head, ls)
    ensures FramedStream(Join(ls, "\n"))
  {
    assert ls[..3] == head[..3];
    FramedLines(ls);
  }

  /** Lines that open with the three operators of `startPage`, carry at
      least one more and end with `ET` join into a framed stream. */
  lemma FramedLines(ls: seq<string>)
    requires |ls| >= 5 && ls[..3] == StartLines && ls[|ls| - 1] == EndText
    ensures FramedStream(Join(ls, "\n"))
  {
    var init := ls[..|ls| - 1];
    assert ls == init + [EndText];
    var mid := init[3..];
    assert init == StartLines + mid;
    JoinLast(init, EndText, "\n");
    JoinAppend(StartLines, mid, "\n");
    var open, m := StreamOpen, Join(mid, "\n");
    assert Join(ls, "\n") == ((open + m) + "\n") + EndText;
    SeqAssoc(open, m, "\n");
    SeqAssoc(open, m + "\n", EndText);
    SeqAssoc(m, "\n", EndText);
    assert "\n" + EndText == "\nET";
  }

  /** What `RenderPages` promises about the pages of a table: they are the
      pages `RenderedPages` defines (so every row is drawn, in order:
      `RenderedContent`), each content stream is a page's lines joined by
      newlines; there is at least one page and at most one more than there
      are rows, so no rows give exactly one page; every page begins with its
      head (the title only on the first), ends with `ET`, and is framed by
      `BT` ... `ET`. */
  ghost predicate Renders(l: Layout, fmt: Fmt, title: string, rows: seq<Row>, pages: seq<string>, pageLines: seq<seq<string>>)
  {
    && Drawable(l)
    && pageLines == RenderedPages(l, fmt, title, rows)
    && pages == Streams(pageLines)
    && 1 <= |pages| <= |rows| + 1
    && (|rows| == 0 ==> |pages| == 1)
    && (forall i :: 0 <= i < |pages| ==> ClosedPage(PageHead(l, fmt, title, i == 0), pageLines[i]))
    && (forall i :: 0 <= i < |pages| ==> FramedStream(pages[i]))
  }

  /** Lines 209-265: the pages of the table, the content streams of the
      pages `RenderedPages` defines. */
  method RenderPages(l: Layout, fmt: Fmt, title: string, rows: seq<Row>)
    returns (pages: seq<string>, ghost pageLines: seq<seq<string>>)
    requires Drawable(l)
    ensures pages == Streams(RenderedPages(l, fmt, title, rows))
    ensures Renders(l, fmt, title, rows, pages, pageLines)
  {
    var w := new PageWriter(l, fmt, title);
    w.DrawTable(rows);
    pages := w.pages;
    pageLines := w.closed;
    assert w.HeadOf(true) == w.firstHead && w.HeadOf(false) == w.nextHead;
    RenderedFacts(l, fmt, title, rows, w.firstHead, w.nextHead, pages, pageLines);
  }

  /** Every finished page of a valid writer is framed. */
  lemma PagesFramed(first: seq<string>, next: seq<string>, pages: seq<string>, pageLines: seq<seq<string>>)
    requires PagesOk(first, next, pages, pageLines)
    requires |first| >= 4 && first[..3] == StartLines && |next| >= 4 && next[..3] == StartLines
    ensures |pageLines| == |pages|
    ensures forall i :: 0 <= i < |pages| ==>
      pages[i] == Join(pageLines[i], "\n") && ClosedPage(if i == 0 then first else next, pageLines[i])
    ensures forall i :: 0 <= i < |pages| ==> FramedStream(pages[i])
  {
    forall k | 0 <= k < |pages|
      ensures pages[k] == Join(pageLines[k], "\n") && ClosedPage(if k == 0 then first else next, pageLines[k])
      ensures FramedStream(pages[k])
    {
      PagesOkAt(first, next, pages, pageLines, k);
      ClosedPageFramed(if k == 0 then first else next, pageLines[k]);
    }
  }

  /** What the finished writer of `RenderPages` tells about its pages. */
  lemma RenderedFacts(l: Layout, fmt: Fmt, title: string, rows: seq<Row>, first: seq<string>, next: seq<string>,
                      pages: seq<string>, pageLines: seq<seq<string>>)
    requires Drawable(l)
    requires first == PageHead(l, fmt, title, true) && next == PageHead(l, fmt, title, false)
    requires PagesOk(first, next, pages, pageLines)
    requires pageLines == PagesOf(l, fmt, first, next, rows)
    requires 1 <= |pages| <= |rows| + 1
    ensures Renders(l, fmt, title, rows, pages, pageLines)
  {
    assert pageLines == RenderedPages(l, fmt, title, rows) by {
      RenderedPagesOf(l, fmt, title, rows, first, next);
    }
    PagesFramed(first, next, pages, pageLines);
    PagesHeaded(l, fmt, title, first, next, pageLines);
    StreamsOf(pages, pageLines);
  }

  /** Streams that are the pages' lines joined one by one are `Streams`. */
  lemma StreamsOf(pages: seq<string>, pageLines: seq<seq<string>>)
    requires |pages| == |pageLines|
    requires forall i :: 0 <= i < |pages| ==> pages[i] == Join(pageLines[i], "\n")
    ensures pages == Streams(pageLines)
  {
  }

  /** The pages of the row loop between the table's own heads are `RenderedPages`. */
  lemma RenderedPagesOf(l: Layout, fmt: Fmt, title: string, rows: seq<Row>, first: seq<string>, next: seq<string>)
    requires Drawable(l)
    requires first == PageHead(l, fmt, title, true) && next == PageHead(l, fmt, title, false)
    ensures RenderedPages(l, fmt, title, rows) == PagesOf(l, fmt, first, next, rows)
  {
  }

  /** Pages headed by `first` and then `next` are headed by the page heads
      those stand for. */
  lemma PagesHeaded(l: Layout, fmt: Fmt, title: string, first: seq<string>, next: seq<string>, pageLines: seq<seq<string>>)
    requires l.Valid()
    requires first == PageHead(l, fmt, title, true) && next == PageHead(l, fmt, title, false)
    requires forall i :: 0 <= i < |pageLines| ==> ClosedPage(if i == 0 then first else next, pageLines[i])
    ensures forall i :: 0 <= i < |pageLines| ==> ClosedPage(PageHead(l, fmt, title, i == 0), pageLines[i])
  {
    forall i | 0 <= i < |pageLines|
      ensures ClosedPage(PageHead(l, fmt, title, i == 0), pageLines[i])
    {
      assert ClosedPage(if i == 0 then first else next, pageLines[i]);
      if i == 0 {
        assert PageHead(l, fmt, title, i == 0) == first;
      } else {
        assert PageHead(l, fmt, title, i == 0) == next;
      }
    }
  }
}
