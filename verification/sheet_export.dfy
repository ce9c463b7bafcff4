/**
 * The spreadsheet exporter (utils-export.ts): a workbook model turned into
 * the record an ExcelJS-style writer consumes. Cell values follow the
 * rich text > formula > plain value precedence, indices become 1-based,
 * widths and heights are converted from pixels, colours become ARGB text,
 * border ordinals become style names, and defined names are read from the
 * workbook's resources.
 */
module SheetExport {
  import opened Wrappers
  import opened JsText
  import opened JsNumber
  import opened Model

  // ------------------------------------------------------------ output records

  /** A colour as the writer takes it: `{ argb }`, `{ theme }`, or `undefined`. */
  datatype XColor = Argb(argb: string) | ThemeColor(theme: int) | NoColor

  /** The font of a rich-text part; only the keys that were set. */
  datatype RichFont = RichFont(
    name: Option<string>,
    size: Option<Num>,
    color: Option<XColor>,
    bold: bool,
    italic: bool,
    underline: bool,
    strike: bool,
    vertAlign: Option<string>)

  datatype RichPart = RichPart(text: string, font: Option<RichFont>)

  /** What rich-text conversion gives: `[]` (no stream), `{ richText }`, or `""` (no part). */
  datatype RichValue = NoStream | RichParts(parts: seq<RichPart>) | NoParts

  /** A cell value as the writer takes it. */
  datatype XValue =
    | XUndefined
    | XText(text: string)
    | XNum(num: Num)
    | XBool(b: bool)
    | XFormula(formula: string, result: Value)
    | XRich(rich: RichValue)

  /** The font of a styled cell: every key written, some of them `undefined`. */
  datatype CellFont = CellFont(
    name: Option<string>,
    size: Option<Num>,
    color: XColor,
    bold: bool,
    italic: bool,
    underline: bool,
    strike: bool)

  datatype XEdge = XEdge(style: string, color: XColor)

  datatype XBorder = XBorder(top: Option<XEdge>, bottom: Option<XEdge>, left: Option<XEdge>, right: Option<XEdge>)

  /** An exported cell: value, font, solid fill colour, border and number format. */
  datatype XCell = XCell(value: XValue, font: Option<CellFont>, fill: Option<XColor>, border: Option<XBorder>, numFmt: Option<string>)

  datatype XColumn = XColumn(width: real, hidden: bool)

  datatype XRow = XRow(height: real, hidden: bool)

  /** A merge over 1-based rows and columns. */
  datatype XMerge = XMerge(top: int, left: int, bottom: int, right: int)

  datatype XSheet = XSheet(
    name: string,
    defaultRowHeight: Option<real>,
    defaultColWidth: Option<real>,
    hidden: bool,
    columns: map<int, XColumn>,
    rows: map<int, XRow>,
    cells: map<Pos, XCell>,
    merges: seq<XMerge>)

  /** The workbook handed to the writer: its sheets and its defined names (name, reference). */
  datatype XBook = XBook(sheets: seq<XSheet>, definedNames: seq<(string, string)>)

  // ------------------------------------------------------------ truthiness

  /** A JavaScript number is truthy unless it is 0 or NaN. */
  predicate NumTruthy(n: Num) {
    n.PosInf? || n.NegInf? || (n.Finite? && n.value != 0.0)
  }

  /** A colour object is truthy; a colour string unless it is empty. */
  predicate ColorTruthy(c: ColorRef) {
    c.ColorString? ==> c.text != []
  }

  predicate TextTruthy(s: Option<string>) {
    s.Some? && s.value != []
  }

  // ------------------------------------------------------------ colours and borders

  /** `"FF"` and the upper-cased colour text without its first `#`. */
  function ArgbText(hex: string): (r: string)
    ensures |r| == 2 + |hex| - (if '#' in hex then 1 else 0)
    ensures r[..2] == "FF"
    ensures |hex| > 0 && hex[0] == '#' ==> r[2..] == ToUpper(hex[1..])
    ensures '#' !in hex ==> r[2..] == ToUpper(hex)
  {
    RemoveLeading(hex, '#');
    "FF" + ToUpper(RemoveFirst(hex, '#'))
  }

  /** `convertUniverColorToExcel`: string or `rgb` as ARGB, else a theme index, else `undefined`. */
  function ExcelColor(c: ColorRef): (r: XColor)
    ensures !ColorTruthy(c) ==> r == NoColor
    ensures c.ColorString? && c.text != [] ==> r == Argb(ArgbText(c.text))
    ensures c.ColorObj? && c.rgb != [] ==> r == Argb(ArgbText(c.rgb))
    ensures c.ColorObj? && c.rgb == [] ==> (r.ThemeColor? <==> c.theme.Some?) && (r == NoColor <==> c.theme.None?)
  {
    match c
    case ColorString(t) => if t == [] then NoColor else Argb(ArgbText(t))
    case ColorObj(rgb, theme) =>
      if rgb != [] then Argb(ArgbText(rgb))
      else match theme
        case Some(k) => ThemeColor(k)
        case None => NoColor
  }

  /** `convertColorToArgb` (the tab colour): like the above, but black when there is no `rgb`. */
  function ColorToArgb(c: ColorRef): (r: string)
    ensures |r| >= 2 && r[..2] == "FF"
    ensures c.ColorObj? && c.rgb == [] ==> r == "FF000000"
    ensures ExcelColor(c).Argb? ==> r == ExcelColor(c).argb
  {
    match c
    case ColorString(t) => ArgbText(t)
    case ColorObj(rgb, _) => if rgb != [] then ArgbText(rgb) else "FF000000"
  }

  /** `convertBorderStyle`: the editor's border ordinals 0..13 as style names; anything else is thin. */
  function BorderStyleName(n: int): (r: string)
    ensures n == 2 <==> r == "hair"
    ensures n == 3 <==> r == "dotted"
    ensures n == 4 <==> r == "dashed"
    ensures n == 5 <==> r == "dashDot"
    ensures n == 6 <==> r == "dashDotDot"
    ensures n == 7 <==> r == "double"
    ensures n == 8 <==> r == "medium"
    ensures n == 9 <==> r == "mediumDashed"
    ensures n == 10 <==> r == "mediumDashDot"
    ensures n == 11 <==> r == "mediumDashDotDot"
    ensures n == 12 <==> r == "slantDashDot"
    ensures n == 13 <==> r == "thick"
    ensures !(2 <= n <= 13) <==> r == "thin"
  {
    if n == 2 then "hair"
    else if n == 3 then "dotted"
    else if n == 4 then "dashed"
    else if n == 5 then "dashDot"
    else if n == 6 then "dashDotDot"
    else if n == 7 then "double"
    else if n == 8 then "medium"
    else if n == 9 then "mediumDashed"
    else if n == 10 then "mediumDashDot"
    else if n == 11 then "mediumDashDotDot"
    else if n == 12 then "slantDashDot"
    else if n == 13 then "thick"
    else "thin"
  }

  /** One side: present only when the source side is a border object. */
  function Edge(slot: SideSlot): (r: Option<XEdge>)
    ensures r.Some? <==> slot.Side?
    ensures slot.Side? ==> r.value == XEdge(BorderStyleName(slot.side.s), ExcelColor(slot.side.cl))
  {
    match slot
    case Side(b) => Some(XEdge(BorderStyleName(b.s), ExcelColor(b.cl)))
    case _ => None
  }

  /** `convertBorderToExcel`: `t`/`b`/`l`/`r` to top/bottom/left/right; `None` when no side is set. */
  function ExcelBorder(bd: Borders): (r: Option<XBorder>)
    ensures r.None? <==> !bd.t.Side? && !bd.b.Side? && !bd.l.Side? && !bd.r.Side?
    ensures r.Some? ==> r.value == XBorder(Edge(bd.t), Edge(bd.b), Edge(bd.l), Edge(bd.r))
  {
    var x := XBorder(Edge(bd.t), Edge(bd.b), Edge(bd.l), Edge(bd.r));
    if x.top.None? && x.bottom.None? && x.left.None? && x.right.None? then None else Some(x)
  }

  // ------------------------------------------------------------ rich text

  /** The font of a run's style; `None` when it would have no key. */
  function RunFont(ts: Style): (r: Option<RichFont>)
    ensures r.Some? ==> r.value.bold == (ts.bl == Some(1)) && r.value.italic == (ts.it == Some(1))
    ensures r.Some? ==> (r.value.vertAlign == Some("subscript") <==> ts.va == Some(2))
    ensures r.Some? ==> (r.value.vertAlign == Some("superscript") <==> ts.va == Some(3))
    ensures r.Some? ==> r.value.strike == ts.st.Some? && r.value.underline == ts.ul.Some?
    ensures r.None? <==> !TextTruthy(ts.ff) && !(ts.fs.Some? && NumTruthy(ts.fs.value))
                         && !(ts.cl.Some? && ColorTruthy(ts.cl.value)) && ts.bl != Some(1) && ts.it != Some(1)
                         && ts.ul.None? && ts.st.None? && ts.va != Some(2) && ts.va != Some(3)
  {
    var f := RichFont(
      if TextTruthy(ts.ff) then ts.ff else None,
      if ts.fs.Some? && NumTruthy(ts.fs.value) then ts.fs else None,
      if ts.cl.Some? && ColorTruthy(ts.cl.value) then Some(ExcelColor(ts.cl.value)) else None,
      ts.bl == Some(1),
      ts.it == Some(1),
      ts.ul.Some?,
      ts.st.Some?,
      if ts.va == Some(2) then Some("subscript") else if ts.va == Some(3) then Some("superscript") else None);
    if f == RichFont(None, None, None, false, false, false, false, None) then None else Some(f)
  }

  /** One part per run whose `substring(st, ed)` is not empty, in run order. */
  function Parts(ds: string, runs: seq<TextRun>): (r: seq<RichPart>)
    ensures |r| <= |runs|
    ensures forall k | 0 <= k < |r| :: r[k].text != []
    decreases |runs|
  {
    if |runs| == 0 then []
    else
      var text := Substring(ds, runs[0].st, runs[0].ed);
      var rest := Parts(ds, runs[1..]);
      if text == [] then rest else [RichPart(text, RunFont(runs[0].ts))] + rest
  }

  /** `convertUniverDocToExcelRichText` for a cell's document body. */
  function RichTextOf(body: DocBody): (r: RichValue)
    ensures body.dataStream == [] <==> r == NoStream
    ensures r.RichParts? ==> |r.parts| > 0 && r.parts == Parts(body.dataStream, body.textRuns)
    ensures r == NoParts <==> body.dataStream != [] && Parts(body.dataStream, body.textRuns) == []
  {
    if body.dataStream == [] then NoStream
    else
      var parts := Parts(body.dataStream, body.textRuns);
      if |parts| > 0 then RichParts(parts) else NoParts
  }

  /** Runs inside the stream with `st < ed` give one part each, holding exactly the run's slice. */
  lemma {:induction false} PartsOfRunsInside(ds: string, runs: seq<TextRun>)
    requires forall k | 0 <= k < |runs| :: 0 <= runs[k].st < runs[k].ed <= |ds|
    ensures var r := Parts(ds, runs);
      |r| == |runs|
      && forall k | 0 <= k < |runs| :: r[k] == RichPart(ds[runs[k].st..runs[k].ed], RunFont(runs[k].ts))
    decreases |runs|
  {
    if |runs| > 0 {
      PartsOfRunsInside(ds, runs[1..]);
      var r := Parts(ds, runs);
      assert r == [RichPart(ds[runs[0].st..runs[0].ed], RunFont(runs[0].ts))] + Parts(ds, runs[1..]);
      forall k | 0 <= k < |runs|
        ensures r[k] == RichPart(ds[runs[k].st..runs[k].ed], RunFont(runs[k].ts))
      {
        if k > 0 {
          assert runs[1..][k - 1] == runs[k];
        }
      }
    }
  }

  // ------------------------------------------------------------ values

  /** `cleanFormula`: trimmed, then one leading `=` removed. */
  function CleanFormula(f: string): (r: string)
    ensures |r| <= |f|
    ensures StartsWith(Trim(f), "=") ==> r == Trim(f)[1..]
    ensures !StartsWith(Trim(f), "=") ==> r == Trim(f)
  {
    if f == [] then []
    else
      var cleaned := Trim(f);
      if StartsWith(cleaned, "=") then cleaned[1..] else cleaned
  }

  /** A trimmed formula comes back without its leading `=` after the importer added one. */
  lemma CleanNormalizedFormula(f: string)
    requires Trim(f) == f
    ensures CleanFormula(if StartsWith(f, "=") then f else "=" + f) == (if StartsWith(f, "=") then f[1..] else f)
  {
    if !StartsWith(f, "=") {
      var g := "=" + f;
      TrimmedPrefixed(f);
      assert g[1..] == f;
    }
  }

  /** Putting `=` in front of trimmed text keeps it trimmed. */
  lemma TrimmedPrefixed(f: string)
    requires Trim(f) == f
    ensures Trim("=" + f) == "=" + f
  {
    var g := "=" + f;
    assert !IsSpace(g[0]);
    if |f| > 0 {
      assert IsTrimmed(f) by { assert IsTrimmed(Trim(f)); }
      assert g[|g| - 1] == f[|f| - 1];
    }
    assert IsTrimmed(g);
    TrimOfTrimmed(g);
  }

  /** `convertCellValue`: rich text first, then by cell type, then by the value's own kind. */
  function CellValue(cell: Cell): (r: XValue)
    ensures cell.p.Some? ==> r == XRich(RichTextOf(cell.p.value))
    ensures cell.p.None? && (cell.t == Some(1) || cell.t == Some(4)) ==>
      r == XText(if IsNullish(cell.v) then [] else ValueText(cell.v))
    ensures cell.p.None? && cell.t == Some(2) ==> r == XNum(NumberOf(cell.v))
    ensures cell.p.None? && cell.t == Some(3) ==>
      r == XBool(cell.v == Number(1.0) || cell.v == Str("1") || cell.v == Bool(true))
    ensures cell.p.None? && !(cell.t.Some? && 1 <= cell.t.value <= 4) ==>
      (IsNullish(cell.v) ==> r == XText([]))
      && (cell.v.Bool? ==> r == XBool(cell.v.b))
      && (cell.v.Number? ==> r == XNum(Finite(cell.v.n)))
      && (cell.v.Str? ==> r == (if ToNumber(cell.v.s) != NaN then XNum(ToNumber(cell.v.s)) else XText(cell.v.s)))
  {
    var v := cell.v;
    if cell.p.Some? then XRich(RichTextOf(cell.p.value))
    else if cell.t == Some(1) || cell.t == Some(4) then XText(if IsNullish(v) then [] else ValueText(v))
    else if cell.t == Some(2) then XNum(if v.Number? then Finite(v.n) else NumberOf(v))
    else if cell.t == Some(3) then XBool(v == Number(1.0) || v == Str("1") || v == Bool(true))
    else if IsNullish(v) then XText([])
    else if v.Bool? then XBool(v.b)
    else if v.Number? || NumberOf(v) != NaN then XNum(NumberOf(v))
    else XText(ValueText(v))
  }

  // ------------------------------------------------------------ styles

  /** The style record a cell's `s` names: an id looked up in the table, or an inline record. */
  function CellStyle(s: Option<StyleRef>, styles: map<string, Style>): (r: Option<Style>)
    ensures s.Some? && s.value.InlineStyle? ==> r == Some(s.value.style)
    ensures s.Some? && s.value.StyleId? && s.value.id in styles && s.value.id != [] ==> r == Some(styles[s.value.id])
    ensures r.Some? ==> s.Some?
  {
    match s
    case None => None
    case Some(StyleId(id)) => if id != [] && id in styles then Some(styles[id]) else None
    case Some(InlineStyle(st)) => Some(st)
  }

  /** The font block, written when a name, size or colour is set or bold/italic is present at all. */
  function StyleFont(st: Style): (r: Option<CellFont>)
    ensures r.Some? <==> TextTruthy(st.ff) || (st.fs.Some? && NumTruthy(st.fs.value))
                         || (st.cl.Some? && ColorTruthy(st.cl.value)) || st.bl.Some? || st.it.Some?
    ensures r.Some? ==> r.value.name == st.ff && r.value.size == st.fs
    ensures r.Some? ==> r.value.bold == (st.bl == Some(1)) && r.value.italic == (st.it == Some(1))
    ensures r.Some? ==> r.value.underline == st.ul.Some? && r.value.strike == st.st.Some?
  {
    if TextTruthy(st.ff) || (st.fs.Some? && NumTruthy(st.fs.value)) || (st.cl.Some? && ColorTruthy(st.cl.value))
       || st.bl.Some? || st.it.Some? then
      Some(CellFont(st.ff, st.fs, if st.cl.Some? && ColorTruthy(st.cl.value) then ExcelColor(st.cl.value) else NoColor,
                    st.bl == Some(1), st.it == Some(1), st.ul.Some?, st.st.Some?))
    else None
  }

  /** `applyCellStyle`, then the text format `@` for force-string cells. */
  function StyledCell(value: XValue, cell: Cell, styles: map<string, Style>): (r: XCell)
    ensures r.value == value
    ensures cell.t == Some(4) ==> r.numFmt == Some("@")
    ensures cell.t != Some(4) && r.numFmt.Some? ==> CellStyle(cell.s, styles).Some? && CellStyle(cell.s, styles).value.n == r.numFmt
    ensures CellStyle(cell.s, styles).None? ==> r.font.None? && r.fill.None? && r.border.None?
    ensures CellStyle(cell.s, styles).Some? ==>
      var st := CellStyle(cell.s, styles).value;
      r.font == StyleFont(st)
      && r.fill == (if st.bg.Some? && ColorTruthy(st.bg.value) then Some(ExcelColor(st.bg.value)) else None)
      && r.border == (if st.bd.Some? then ExcelBorder(st.bd.value) else None)
  {
    var fmt := if cell.t == Some(4) then Some("@") else None;
    match CellStyle(cell.s, styles)
    case None => XCell(value, None, None, None, fmt)
    case Some(st) =>
      var fill := if st.bg.Some? && ColorTruthy(st.bg.value) then Some(ExcelColor(st.bg.value)) else None;
      var border := if st.bd.Some? then ExcelBorder(st.bd.value) else None;
      var pattern := if TextTruthy(st.n) then st.n else None;
      XCell(value, StyleFont(st), fill, border, if cell.t == Some(4) then Some("@") else pattern)
  }

  /** `processCell`: rich text, else a formula that survives cleaning, else the plain value. */
  function ProcessCell(cell: Cell, styles: map<string, Style>): (r: XCell)
    ensures cell.p.Some? ==> r.value == XRich(RichTextOf(cell.p.value))
    ensures cell.p.None? && TextTruthy(cell.f) && CleanFormula(cell.f.value) != [] ==>
      r.value == XFormula(CleanFormula(cell.f.value), cell.v)
    ensures cell.p.None? && !(TextTruthy(cell.f) && CleanFormula(cell.f.value) != []) ==> r.value == CellValue(cell)
    ensures r == StyledCell(r.value, cell, styles)
  {
    var value :=
      if cell.p.Some? then XRich(RichTextOf(cell.p.value))
      else if TextTruthy(cell.f) then
        var formula := CleanFormula(cell.f.value);
        if formula != [] then XFormula(formula, cell.v) else CellValue(cell)
      else CellValue(cell);
    StyledCell(value, cell, styles)
  }

  // ------------------------------------------------------------ sheet structure

  /** Zero-based to one-based. */
  function OneBased(q: Pos): Pos {
    Pos(q.r + 1, q.c + 1)
  }

  /** `processCellData`: every cell exported at its one-based address. */
  function ExportCells(cells: map<Pos, Cell>, styles: map<string, Style>): (r: map<Pos, XCell>)
    ensures forall q :: q in cells <==> OneBased(q) in r
    ensures forall q | q in cells :: r[OneBased(q)] == ProcessCell(cells[q], styles)
  {
    var r := map q | q in cells :: OneBased(q) := ProcessCell(cells[q], styles);
    assert forall x | x in r :: Pos(x.r - 1, x.c - 1) in cells && x == OneBased(Pos(x.r - 1, x.c - 1));
    r
  }

  /** A column's width in characters (pixels / 7.5). */
  function ColumnOut(c: ColInfo): XColumn {
    XColumn(c.w / 7.5, c.hd == 1)
  }

  /** A row's height in points (pixels · 0.75). */
  function RowOut(h: RowInfo): XRow {
    XRow(h.h * 0.75, h.hd == 1)
  }

  /** Zero-based indices made one-based. */
  function ShiftedKeys(keys: set<int>): (r: set<int>)
    ensures forall i :: i in keys <==> i + 1 in r
  {
    set i | i in keys :: i + 1
  }

  /** The columns, one-based. */
  function ExportColumns(cd: map<int, ColInfo>): (r: map<int, XColumn>)
    ensures forall i :: i in cd <==> i + 1 in r
    ensures forall i | i in cd :: r[i + 1] == XColumn(cd[i].w / 7.5, cd[i].hd == 1)
  {
    map j | j in ShiftedKeys(cd.Keys) :: ColumnOut(cd[j - 1])
  }

  /** The rows, one-based. */
  function ExportRows(rd: map<int, RowInfo>): (r: map<int, XRow>)
    ensures forall i :: i in rd <==> i + 1 in r
    ensures forall i | i in rd :: r[i + 1] == XRow(rd[i].h * 0.75, rd[i].hd == 1)
  {
    map j | j in ShiftedKeys(rd.Keys) :: RowOut(rd[j - 1])
  }

  /** `processMergedCells`: every range, one-based, in order. */
  function ExportMerges(md: seq<MergeRange>): (r: seq<XMerge>)
    ensures |r| == |md|
    ensures forall k | 0 <= k < |md| ::
      r[k] == XMerge(md[k].startRow + 1, md[k].startColumn + 1, md[k].endRow + 1, md[k].endColumn + 1)
  {
    seq(|md|, k requires 0 <= k < |md| =>
      XMerge(md[k].startRow + 1, md[k].startColumn + 1, md[k].endRow + 1, md[k].endColumn + 1))
  }

  /** One sheet: settings, structure, cells and merges. */
  function ExportSheet(ws: Worksheet, styles: map<string, Style>): (r: XSheet)
    ensures r.name == (if ws.name != [] then ws.name else "Sheet")
    ensures r.cells == ExportCells(ws.cellData, styles)
    ensures ws.layout.None? ==> r.columns == map[] && r.rows == map[] && r.merges == [] && !r.hidden
    ensures ws.layout.Some? ==>
      var l := ws.layout.value;
      r.columns == ExportColumns(l.columnData) && r.rows == ExportRows(l.rowData)
      && r.merges == ExportMerges(l.mergeData) && (r.hidden <==> l.hidden == 1)
      && r.defaultRowHeight == (if l.defaultRowHeight != 0.0 then Some(l.defaultRowHeight * 0.75) else None)
      && r.defaultColWidth == (if l.defaultColumnWidth != 0.0 then Some(l.defaultColumnWidth / 7.5) else None)
  {
    var name := if ws.name != [] then ws.name else "Sheet";
    var cells := ExportCells(ws.cellData, styles);
    match ws.layout
    case None => XSheet(name, None, None, false, map[], map[], cells, [])
    case Some(l) =>
      XSheet(name,
             if l.defaultRowHeight != 0.0 then Some(l.defaultRowHeight * 0.75) else None,
             if l.defaultColumnWidth != 0.0 then Some(l.defaultColumnWidth / 7.5) else None,
             l.hidden == 1,
             ExportColumns(l.columnData), ExportRows(l.rowData), cells, ExportMerges(l.mergeData))
  }

  /** `x` is the export of some id of `order` that has a sheet. */
  predicate ExportedOf(x: XSheet, order: seq<string>, sheets: map<string, Worksheet>, styles: map<string, Style>) {
    exists j | 0 <= j < |order| :: order[j] in sheets && x == ExportSheet(sheets[order[j]], styles)
  }

  /** The sheets in `sheetOrder`, skipping ids without a sheet. */
  function ExportSheets(order: seq<string>, sheets: map<string, Worksheet>, styles: map<string, Style>): (r: seq<XSheet>)
    ensures |r| <= |order|
    ensures |order| == 1 ==> r == (if order[0] in sheets then [ExportSheet(sheets[order[0]], styles)] else [])
    ensures forall k | 0 <= k < |r| :: ExportedOf(r[k], order, sheets, styles)
    ensures (forall k | 0 <= k < |order| :: order[k] !in sheets) ==> r == []
    decreases |order|
  {
    if |order| == 0 then []
    else
      var rest := ExportSheets(order[1..], sheets, styles);
      ExportedFrom(order, sheets, styles, rest);
      if order[0] in sheets then [ExportSheet(sheets[order[0]], styles)] + rest else rest
  }

  /** Every sheet exported from the tail of the order comes from an id of the whole order. */
  lemma ExportedFrom(order: seq<string>, sheets: map<string, Worksheet>, styles: map<string, Style>, rest: seq<XSheet>)
    requires |order| > 0
    requires forall k | 0 <= k < |rest| :: ExportedOf(rest[k], order[1..], sheets, styles)
    ensures forall k | 0 <= k < |rest| :: ExportedOf(rest[k], order, sheets, styles)
  {
    forall k | 0 <= k < |rest| ensures ExportedOf(rest[k], order, sheets, styles) {
      assert ExportedOf(rest[k], order[1..], sheets, styles);
      var j :| 0 <= j < |order[1..]| && order[1..][j] in sheets && rest[k] == ExportSheet(sheets[order[1..][j]], styles);
      assert order[j + 1] == order[1..][j];
    }
  }

  /** When every id has a sheet, the export is one sheet per id, in order. */
  lemma {:induction false} ExportSheetsAllPresent(order: seq<string>, sheets: map<string, Worksheet>, styles: map<string, Style>)
    requires forall k | 0 <= k < |order| :: order[k] in sheets
    ensures var r := ExportSheets(order, sheets, styles);
      |r| == |order| && forall k | 0 <= k < |order| :: r[k] == ExportSheet(sheets[order[k]], styles)
    decreases |order|
  {
    if |order| > 0 {
      assert forall k | 1 <= k < |order| :: order[1..][k - 1] == order[k];
      ExportSheetsAllPresent(order[1..], sheets, styles);
    }
  }

  /** Every id of the order that has a sheet is exported. */
  lemma {:induction false} ExportedIncluded(order: seq<string>, sheets: map<string, Worksheet>, styles: map<string, Style>, j: nat)
    requires j < |order| && order[j] in sheets
    ensures ExportSheet(sheets[order[j]], styles) in ExportSheets(order, sheets, styles)
    decreases |order|
  {
    if j > 0 {
      assert order[1..][j - 1] == order[j];
      ExportedIncluded(order[1..], sheets, styles, j - 1);
    }
  }

  /** Exporting a concatenated order exports each part in turn: the filter keeps the order of `sheetOrder`. */
  lemma {:induction false} ExportSheetsAppend(a: seq<string>, b: seq<string>, sheets: map<string, Worksheet>, styles: map<string, Style>)
    ensures ExportSheets(a + b, sheets, styles) == ExportSheets(a, sheets, styles) + ExportSheets(b, sheets, styles)
    decreases |a|
  {
    if |a| > 0 {
      assert (a + b)[1..] == a[1..] + b;
      ExportSheetsAppend(a[1..], b, sheets, styles);
    } else {
      assert a + b == b;
    }
  }

  // ------------------------------------------------------------ defined names

  /** An entry of the defined-names blob; `""` for a missing field. */
  datatype NameEntry = NameEntry(name: string, formulaOrRefString: string)

  const DefinedNamesKey: string := "SHEET_DEFINED_NAME_PLUGIN"

  /** The first resource with the given name. */
  function FindResource(resources: seq<Resource>, name: string): (r: Option<Resource>)
    ensures r.Some? ==> r.value.name == name && r.value in resources
    ensures r.None? <==> forall k | 0 <= k < |resources| :: resources[k].name != name
    ensures |resources| > 0 && resources[0].name == name ==> r == Some(resources[0])
    decreases |resources|
  {
    if |resources| == 0 then None
    else if resources[0].name == name then Some(resources[0])
    else
      var r := FindResource(resources[1..], name);
      assert forall k | 1 <= k < |resources| :: resources[1..][k - 1] == resources[k];
      r
  }

  /** The reference with one leading `=` removed. */
  function StripEquals(f: string): (r: string)
    ensures StartsWith(f, "=") ==> "=" + r == f
    ensures !StartsWith(f, "=") ==> r == f
  {
    if StartsWith(f, "=") then f[1..] else f
  }

  /** An entry that is added: present, with a non-empty name and reference. */
  predicate Named(e: Option<NameEntry>) {
    e.Some? && e.value.name != [] && e.value.formulaOrRefString != []
  }

  /** The name and the reference without its leading `=`. */
  function NamePair(e: NameEntry): (string, string) {
    (e.name, StripEquals(e.formulaOrRefString))
  }

  /** `p` is the pair of some named entry. */
  predicate PairOf(p: (string, string), entries: seq<Option<NameEntry>>) {
    exists j | 0 <= j < |entries| :: Named(entries[j]) && p == NamePair(entries[j].value)
  }

  /**
   * Entries with a name and a reference, in order, the reference without
   * its leading `=`: every added pair comes from a named entry and every
   * named entry is added.
   */
  function NamesOf(entries: seq<Option<NameEntry>>): (r: seq<(string, string)>)
    ensures |r| <= |entries|
    ensures forall k | 0 <= k < |r| :: r[k].0 != []
    ensures |entries| == 1 ==> r == (if Named(entries[0]) then [NamePair(entries[0].value)] else [])
    ensures forall k | 0 <= k < |r| :: PairOf(r[k], entries)
    ensures forall j | 0 <= j < |entries| && Named(entries[j]) :: NamePair(entries[j].value) in r
    decreases |entries|
  {
    if |entries| == 0 then []
    else
      var rest := NamesOf(entries[1..]);
      NamedFrom(entries, rest);
      assert forall j | 1 <= j < |entries| :: entries[1..][j - 1] == entries[j];
      if Named(entries[0]) then [NamePair(entries[0].value)] + rest else rest
  }

  /** Every pair added from the tail of the entries comes from a named entry of the whole list. */
  lemma NamedFrom(entries: seq<Option<NameEntry>>, rest: seq<(string, string)>)
    requires |entries| > 0
    requires forall k | 0 <= k < |rest| :: PairOf(rest[k], entries[1..])
    ensures forall k | 0 <= k < |rest| :: PairOf(rest[k], entries)
  {
    forall k | 0 <= k < |rest| ensures PairOf(rest[k], entries) {
      assert PairOf(rest[k], entries[1..]);
      var j :| 0 <= j < |entries[1..]| && Named(entries[1..][j]) && rest[k] == NamePair(entries[1..][j].value);
      assert entries[j + 1] == entries[1..][j];
    }
  }

  /** The names of concatenated entries are the names of each part in turn: the entries' order is kept. */
  lemma {:induction false} NamesOfAppend(a: seq<Option<NameEntry>>, b: seq<Option<NameEntry>>)
    ensures NamesOf(a + b) == NamesOf(a) + NamesOf(b)
    decreases |a|
  {
    if |a| > 0 {
      assert (a + b)[1..] == a[1..] + b;
      NamesOfAppend(a[1..], b);
    } else {
      assert a + b == b;
    }
  }

  /**
   * `setDefinedNames`: the first `SHEET_DEFINED_NAME_PLUGIN` resource's data
   * (or `{}`) read by the JSON parser, a parameter that gives `None` when it
   * throws.
   */
  function DefinedNames(resources: seq<Resource>, parse: string -> Option<seq<Option<NameEntry>>>): (r: seq<(string, string)>)
    ensures FindResource(resources, DefinedNamesKey).None? ==> r == []
    ensures FindResource(resources, DefinedNamesKey).Some? ==>
      var data := FindResource(resources, DefinedNamesKey).value.data;
      var parsed := parse(if data != [] then data else "{}");
      r == (if parsed.Some? then NamesOf(parsed.value) else [])
  {
    match FindResource(resources, DefinedNamesKey)
    case None => []
    case Some(res) =>
      match parse(if res.data != [] then res.data else "{}")
      case None => []
      case Some(entries) => NamesOf(entries)
  }

  /** `jsonToBufferInExcel` up to the writer: the sheets in order and the defined names. */
  function ExportWorkbook(wb: Workbook, parse: string -> Option<seq<Option<NameEntry>>>): (r: XBook)
    ensures r.sheets == ExportSheets(wb.sheetOrder, wb.sheets, wb.styles)
    ensures r.definedNames == DefinedNames(wb.resources, parse)
  {
    XBook(ExportSheets(wb.sheetOrder, wb.sheets, wb.styles), DefinedNames(wb.resources, parse))
  }
}
