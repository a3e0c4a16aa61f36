/** Page constants and column geometry of the PDF table exporter
    (dashboard/src/utils/pdf.ts, the start of `buildTablePdf`): default
    weights and alignments inferred from the column's key and header, widths
    by proportional division of the usable width, left edges by a prefix sum,
    the per-column character budget, the text-width estimate and the
    horizontal placement of a cell's text. Coordinates are PDF points, held
    as exact reals. */
module PdfColumns {
  import opened Text
  import opened Values

  // A4 portrait, in points, and the fixed typography of the table.
  const PageW: real := 595.0
  const PageH: real := 842.0
  const MarginX: real := 40.0
  const MarginTop: real := 46.0
  const MarginBottom: real := 40.0
  const FontSizeTitle: nat := 16
  const FontSize: nat := 10
  const FontSizeHeader: nat := 11
  const LineH: real := 14.0
  const CellPadding: real := 5.0
  const UsableW: real := PageW - MarginX * 2.0

  datatype Align = Left | Center | Right

  /** A column as the caller gives it: width and alignment may be absent. */
  datatype ColumnSpec = ColumnSpec(key: string, header: string, width: Option<real>, align: Option<Align>)

  /** A column after `normalizeCol`: width and alignment are settled. */
  datatype Column = Column(key: string, header: string, width: real, align: Align)

  function Max(a: real, b: real): real { if a >= b then a else b }

  /** The key or the header, lower-cased, contains `word`. */
  predicate Mentions(c: ColumnSpec, word: string)
  {
    Includes(Lower(c.key), word) || Includes(Lower(c.header), word)
  }

  /** A money-like column: `sales` in key or header, or `amount` in the key. */
  predicate MoneyLike(c: ColumnSpec)
  {
    Mentions(c, "sales") || Includes(Lower(c.key), "amount")
  }

  function InferredWidth(c: ColumnSpec): real
  {
    if Mentions(c, "email") then 2.8
    else if Mentions(c, "name") then 2.2
    else if Mentions(c, "country") then 1.0
    else if Mentions(c, "status") then 0.9
    else if MoneyLike(c) then 0.8
    else 1.0
  }

  function InferredAlign(c: ColumnSpec): Align
  {
    if MoneyLike(c) then Right
    else if Mentions(c, "country") || Mentions(c, "status") then Center
    else Left
  }

  /** `normalizeCol`: an explicit width or alignment is kept; an absent one is
      inferred from the key and header, the first matching word deciding:
      email 2.8, name 2.2, country 1.0, status 0.9, sales or amount 0.8,
      otherwise 1. Key and header themselves are kept
      as given (only the copies used for matching are lower-cased). */
  function NormalizeCol(c: ColumnSpec): (r: Column)
    ensures r.key == c.key && r.header == c.header
    ensures c.width.Some? ==> r.width == c.width.value
    ensures c.width.None? ==> 0.8 <= r.width <= 2.8
    ensures c.width.None? ==>
      && (Mentions(c, "email") ==> r.width == 2.8)
      && (!Mentions(c, "email") && Mentions(c, "name") ==> r.width == 2.2)
      && (!Mentions(c, "email") && !Mentions(c, "name") && Mentions(c, "country") ==> r.width == 1.0)
      && (!Mentions(c, "email") && !Mentions(c, "name") && !Mentions(c, "country") && Mentions(c, "status") ==> r.width == 0.9)
      && (!Mentions(c, "email") && !Mentions(c, "name") && !Mentions(c, "country") && !Mentions(c, "status") ==>
            r.width == if MoneyLike(c) then 0.8 else 1.0)
    ensures c.align.Some? ==> r.align == c.align.value
    ensures c.align.None? ==> (r.align == Right <==> MoneyLike(c))
    ensures c.align.None? ==> (r.align == Left <==> !MoneyLike(c) && !Mentions(c, "country") && !Mentions(c, "status"))
  {
    Column(c.key, c.header,
           match c.width case Some(w) => w case None => InferredWidth(c),
           match c.align case Some(a) => a case None => InferredAlign(c))
  }

  // ---- weights, widths and edges ----

  /** `Math.max(0.1, c.width ?? 1)`: a column's weight, floored at 0.1. */
  function Weight(col: Column): (w: real)
    ensures w >= 0.1
    ensures col.width >= 0.1 ==> w == col.width
  {
    Max(0.1, col.width)
  }

  function Weights(cols: seq<Column>): (ws: seq<real>)
    ensures |ws| == |cols|
    ensures forall i :: 0 <= i < |cols| ==> ws[i] == Weight(cols[i]) && ws[i] >= 0.1
  {
    seq(|cols|, i requires 0 <= i < |cols| => Weight(cols[i]))
  }

  function Sum(ws: seq<real>): real
  {
    if |ws| == 0 then 0.0 else ws[0] + Sum(ws[1..])
  }

  lemma {:induction false} SumAtLeast(ws: seq<real>)
    requires forall i :: 0 <= i < |ws| ==> ws[i] >= 0.1
    ensures Sum(ws) >= 0.1 * |ws| as real
  {
    if |ws| > 0 {
      SumAtLeast(ws[1..]);
    }
  }

  /** `Math.max(0.1, sum of weights)`. */
  function TotalWeight(ws: seq<real>): (t: real)
    ensures t >= 0.1
  {
    Max(0.1, Sum(ws))
  }

  /** `colWs`: each weight's share of the usable width. */
  function Widths(ws: seq<real>, total: real): (r: seq<real>)
    requires total > 0.0
    ensures |r| == |ws|
  {
    if |ws| == 0 then [] else [UsableW * ws[0] / total] + Widths(ws[1..], total)
  }

  /** Column `i` gets the share `usableW * w / total` of its own weight. */
  lemma {:induction false} WidthsAt(ws: seq<real>, total: real, i: nat)
    requires total > 0.0 && i < |ws|
    ensures Widths(ws, total)[i] == UsableW * ws[i] / total
  {
    if i > 0 {
      WidthsAt(ws[1..], total, i - 1);
    }
  }

  lemma {:induction false} SumWidths(ws: seq<real>, total: real)
    requires total > 0.0
    ensures Sum(Widths(ws, total)) == UsableW * Sum(ws) / total
  {
    if |ws| > 0 {
      var r := Widths(ws, total);
      assert r[1..] == Widths(ws[1..], total);
      SumWidths(ws[1..], total);
      ShareAdd(UsableW, ws[0], Sum(ws[1..]), total);
    }
  }

  lemma ShareAdd(u: real, a: real, b: real, t: real)
    requires t > 0.0
    ensures u * a / t + u * b / t == u * (a + b) / t
  {
  }

  lemma WidthsPositive(ws: seq<real>, total: real)
    requires total > 0.0
    requires forall i :: 0 <= i < |ws| ==> ws[i] >= 0.1
    ensures forall i :: 0 <= i < |ws| ==> Widths(ws, total)[i] > 0.0
  {
    forall i | 0 <= i < |ws|
      ensures Widths(ws, total)[i] > 0.0
    {
      WidthsAt(ws, total, i);
      SharePositive(UsableW, ws[i], total);
    }
  }

  lemma SharePositive(u: real, w: real, t: real)
    requires u > 0.0 && w > 0.0 && t > 0.0
    ensures u * w / t > 0.0
  {
    assert u * w > 0.0;
  }

  lemma DivSelf(u: real, t: real)
    requires t > 0.0
    ensures u * t / t == u
  {
  }

  /** For at least one column the total weight is the plain sum (it is at
      least 0.1), so the widths add up to the usable width. */
  lemma WidthsShareUsable(ws: seq<real>)
    requires forall i :: 0 <= i < |ws| ==> ws[i] >= 0.1
    ensures |ws| >= 1 ==> Sum(Widths(ws, TotalWeight(ws))) == UsableW
  {
    if |ws| >= 1 {
      SumAtLeast(ws);
      var s := Sum(ws);
      assert TotalWeight(ws) == s;
      SumWidths(ws, s);
      DivSelf(UsableW, s);
    }
  }

  /** `colXs`: the left edges, built by the `reduce` that appends the previous
      edge plus the next width to a list starting at `start`. */
  function Edges(start: real, ws: seq<real>): (xs: seq<real>)
    ensures |xs| == |ws| + 1
    ensures xs[0] == start
    ensures forall i :: 0 <= i < |ws| ==> xs[i + 1] == xs[i] + ws[i]
  {
    if |ws| == 0 then [start]
    else
      var p := Edges(start, ws[..|ws| - 1]);
      p + [p[|p| - 1] + ws[|ws| - 1]]
  }

  lemma {:induction false} SumSnoc(ws: seq<real>, w: real)
    ensures Sum(ws + [w]) == Sum(ws) + w
  {
    if |ws| > 0 {
      assert (ws + [w])[1..] == ws[1..] + [w];
      SumSnoc(ws[1..], w);
    }
  }

  /** The last edge is the first plus the sum of the widths. */
  lemma {:induction false} LastEdge(start: real, ws: seq<real>)
    ensures Edges(start, ws)[|ws|] == start + Sum(ws)
  {
    if |ws| > 0 {
      var init := ws[..|ws| - 1];
      LastEdge(start, init);
      assert ws == init + [ws[|ws| - 1]];
      SumSnoc(init, ws[|ws| - 1]);
    }
  }

  /** `maxCharsPerCol`: `Math.max(8, Math.floor((w / fontSize) * 1.8))`. */
  function MaxChars(w: real): (m: nat)
    ensures m >= 8
  {
    var k := ((w / FontSize as real) * 1.8).Floor;
    if k > 8 then k else 8
  }

  /** `maxCharsPerCol`, column by column. */
  function Budgets(colWs: seq<real>): (m: seq<nat>)
    ensures |m| == |colWs|
    ensures forall i :: 0 <= i < |colWs| ==> m[i] == MaxChars(colWs[i]) && m[i] >= 8
  {
    if |colWs| == 0 then [] else [MaxChars(colWs[0])] + Budgets(colWs[1..])
  }

  /** The geometry computed once per document. */
  datatype Layout = Layout(columns: seq<Column>, colWs: seq<real>, colXs: seq<real>, maxChars: seq<nat>)
  {
    predicate Valid()
    {
      && |colWs| == |columns|
      && |colXs| == |columns| + 1
      && |maxChars| == |columns|
    }
  }

  /** `columns`: every spec normalized, in order. */
  function Normalized(specs: seq<ColumnSpec>): (cols: seq<Column>)
    ensures |cols| == |specs|
    ensures forall i :: 0 <= i < |specs| ==> cols[i] == NormalizeCol(specs[i])
  {
    if |specs| == 0 then [] else [NormalizeCol(specs[0])] + Normalized(specs[1..])
  }

  /** `columns`, `colWeights`, `totalWeight`, `colWs`, `colXs` and
      `maxCharsPerCol` of `buildTablePdf`. */
  function MakeLayout(specs: seq<ColumnSpec>): (l: Layout)
    ensures l.Valid() && |l.columns| == |specs|
    ensures forall i :: 0 <= i < |specs| ==> l.maxChars[i] >= 8
  {
    var cols := Normalized(specs);
    var colWs := Widths(Weights(cols), TotalWeight(Weights(cols)));
    Layout(cols, colWs, Edges(MarginX, colWs), Budgets(colWs))
  }

  /** The geometry of the layout: the normalized columns in order, positive
      widths, edges that start at the left margin and step by the widths,
      and, with at least one column, widths that share out exactly the
      usable width, so that the last edge is the right margin. */
  lemma MakeLayoutGeometry(specs: seq<ColumnSpec>)
    ensures var l := MakeLayout(specs);
      && (forall i :: 0 <= i < |specs| ==> l.columns[i] == NormalizeCol(specs[i]))
      && (forall i :: 0 <= i < |specs| ==> l.colWs[i] > 0.0)
      && l.colXs[0] == MarginX
      && (forall i :: 0 <= i < |specs| ==> l.colXs[i + 1] == l.colXs[i] + l.colWs[i])
      && (|specs| >= 1 ==> Sum(l.colWs) == UsableW && l.colXs[|specs|] == MarginX + UsableW)
  {
    var ws := Weights(Normalized(specs));
    var colWs := Widths(ws, TotalWeight(ws));
    WidthsPositive(ws, TotalWeight(ws));
    WidthsShareUsable(ws);
    LastEdge(MarginX, colWs);
  }

  // ---- text placement ----

  /** `estimateTextW`: the average glyph is 0.52 em wide. */
  function EstimateTextW(text: string, size: real): real
  {
    |text| as real * size * 0.52
  }

  /** The estimate grows with the length and with the size, and is 0 for "". */
  lemma EstimateTextWMonotonic(a: string, b: string, s1: real, s2: real)
    requires |a| <= |b| && 0.0 <= s1 <= s2
    ensures 0.0 <= EstimateTextW(a, s1) <= EstimateTextW(b, s2)
    ensures EstimateTextW("", s1) == 0.0
  {
    var x, y := |a| as real, |b| as real;
    MulLe(0.0, x, s1);
    MulLe(x, y, s1);
    MulLe(s1, s2, y);
    assert 0.0 <= x * s1 <= y * s2;
    assert EstimateTextW(a, s1) == (x * s1) * 0.52;
    assert EstimateTextW(b, s2) == (y * s2) * 0.52;
    assert EstimateTextW("", s1) == (0.0 * s1) * 0.52;
  }

  lemma MulLe(a: real, b: real, c: real)
    requires a <= b && 0.0 <= c
    ensures a * c <= b * c && c * a <= c * b
  {
  }

  /** A line that uses the full budget of a column whose budget is not the
      floor of 8 is estimated at no more than 93.6% of the column's width at
      the body font size. */
  lemma BudgetFitsColumn(w: real, line: string)
    requires MaxChars(w) > 8 && |line| <= MaxChars(w)
    ensures EstimateTextW(line, FontSize as real) <= 0.936 * w
  {
    var k := ((w / FontSize as real) * 1.8).Floor;
    assert k as real <= (w / 10.0) * 1.8;
    assert |line| as real <= w * 0.18;
  }

  /** `cellTextX`: the x position of a text in column `colIdx`. */
  function CellTextX(l: Layout, colIdx: nat, text: string, size: real): real
    requires l.Valid() && colIdx < |l.columns|
  {
    var colLeft := l.colXs[colIdx];
    var w := l.colWs[colIdx];
    match l.columns[colIdx].align
    case Center =>
      var tw := EstimateTextW(text, size);
      Max(colLeft + CellPadding, colLeft + (w - tw) / 2.0)
    case Right =>
      var tw := EstimateTextW(text, size);
      Max(colLeft + CellPadding, colLeft + w - CellPadding - tw)
    case Left => colLeft + CellPadding
  }

  /** Where `cellTextX` puts a text: never left of the left padding; at the
      padding, flush right or centred by the column's alignment; when the
      estimated text fits between the paddings it stays inside them, flush
      with the right padding or with equal room on both sides; and text
      wider than that is clamped to the left padding whatever the
      alignment. */
  lemma CellTextXPlacement(l: Layout, colIdx: nat, text: string, size: real)
    requires l.Valid() && colIdx < |l.columns|
    ensures var x, tw, left, right := CellTextX(l, colIdx, text, size), EstimateTextW(text, size),
                l.colXs[colIdx] + CellPadding, l.colXs[colIdx] + l.colWs[colIdx] - CellPadding;
      && x >= left
      && (l.columns[colIdx].align == Left ==> x == left)
      && (tw <= right - left ==> x + tw <= right)
      && (l.columns[colIdx].align == Right && tw <= right - left ==> x + tw == right)
      && (l.columns[colIdx].align == Center && tw <= right - left ==>
            x - l.colXs[colIdx] == l.colXs[colIdx] + l.colWs[colIdx] - (x + tw))
      && (tw > right - left ==> x == left)
  {
  }
}
