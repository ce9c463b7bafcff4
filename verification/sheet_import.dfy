/**
 * The plain spreadsheet converters of `utils-data.ts`: the SheetJS cell-type
 * mapping, the number-format-only cell records, value matrices and CSV text
 * turned into one-sheet workbooks, the freeze-pane extraction, the merge-range
 * filter, the shaping of a read sheet into the grid builder's payload, and
 * the dispatch on the file extension.
 *
 * The SheetJS reader and `FileReader` are foreign: a read sheet arrives as
 * the records below, and a read that throws arrives as its error message.
 */
module SheetImport {
  import opened Wrappers
  import opened JsText
  import opened JsNumber
  import opened Model
  import opened StyleConverter
  import opened RowHeight
  import opened GridBuilder
  import JsObject

  // ------------------------------------------------------ SheetJS cells

  /**
   * A SheetJS cell object: raw value `v` (`Undefined` when absent), type
   * letter `t`, formula `f`, formatted text `w`, HTML text `h` and rich-text
   * markup `r` (each `""` when absent or falsy), number format `z`, and the
   * style object `s` (`None` when absent or `null`).
   */
  datatype XlsxCell = XlsxCell(v: Value, t: string, f: string, z: Value, w: string, h: string, r: string, s: Option<ExcelStyle>)

  /** The SheetJS type letters the mapping names. */
  predicate KnownType(t: string) {
    t == "b" || t == "n" || t == "d" || t == "s" || t == "e" || t == "z"
  }

  /**
   * `convertExcelTypeToUniverType`: booleans 3; numbers and dates 2;
   * strings, errors and stubs 1; any other letter by the value's own type.
   */
  function ConvertExcelType(excelType: string, v: Value): (r: int)
    ensures r == StringType || r == NumberType || r == BooleanType
    ensures excelType == "b" ==> r == BooleanType
    ensures excelType == "n" || excelType == "d" ==> r == NumberType
    ensures excelType == "s" || excelType == "e" || excelType == "z" ==> r == StringType
    ensures !KnownType(excelType) ==> (r == BooleanType <==> v.Bool?) && (r == NumberType <==> v.Number?)
  {
    if excelType == "b" then BooleanType
    else if excelType == "n" || excelType == "d" then NumberType
    else if excelType == "s" || excelType == "e" || excelType == "z" then StringType
    else if v.Bool? then BooleanType
    else if v.Number? then NumberType
    else StringType
  }

  /** The style `{ n: { pattern } }` that carries nothing but a number format. */
  function PatternStyle(pattern: string): (st: Style)
    ensures st.n == Some(pattern)
    ensures st.(n := None) == EmptyStyle
  {
    EmptyStyle.(n := Some(pattern))
  }

  /** `transformCellFormat`: a truthy `z` becomes a number-format style; otherwise there is none. */
  function CellFormat(z: Value): (r: Option<Style>)
    ensures r.Some? <==> Truthy(z)
    ensures r.Some? ==> r.value == PatternStyle(ValueText(z))
  {
    if Truthy(z) then Some(PatternStyle(ValueText(z))) else None
  }

  /**
   * `createUniverCellData`: `v` only for a non-null value, `t` only next to
   * `v` and only when SheetJS gave a type, `f` copied, and an inline
   * number-format style exactly when `z` is truthy.
   */
  function CreateCellData(x: XlsxCell): (c: Cell)
    ensures c.v == (if IsNullish(x.v) then Undefined else x.v)
    ensures c.t.Some? <==> !IsNullish(x.v) && x.t != []
    ensures c.t.Some? ==> c.t.value == ConvertExcelType(x.t, x.v) && !c.v.Undefined?
    ensures c.f == (if x.f != [] then Some(x.f) else None)
    ensures c.s.Some? <==> Truthy(x.z)
    ensures c.s.Some? ==> c.s.value == InlineStyle(PatternStyle(ValueText(x.z)))
    ensures c.p.None? && c.custom == Undefined
  {
    var present := !IsNullish(x.v);
    Cell(if present then x.v else Undefined,
         if present && x.t != [] then Some(ConvertExcelType(x.t, x.v)) else None,
         if x.f != [] then Some(x.f) else None,
         match CellFormat(x.z) case Some(st) => Some(InlineStyle(st)) case None => None,
         None, Undefined)
  }

  /** A cell with a value and a SheetJS type reads back with the editor type of that value's kind. */
  lemma TypedCellKeepsKind(x: XlsxCell)
    requires x.v.Bool? && (x.t == "b" || !KnownType(x.t)) && x.t != []
    ensures CreateCellData(x).t == Some(BooleanType) && CreateCellData(x).v == x.v
  {
  }

  // ------------------------------------------------------ the plain reader path

  /** A worksheet as the plain reader sees it: the end of `!ref` when present, and the cells by address. */
  datatype PlainSheet = PlainSheet(lastColumn: Option<nat>, cells: map<Pos, XlsxCell>)

  /**
   * `transformWorksheet`: one cell record per SheetJS cell at its decoded
   * address, and at least 26 columns, one more than the last column of
   * `!ref` when it has more; no `rowCount`.
   */
  function TransformWorksheet(id: string, name: string, ws: PlainSheet): (r: Worksheet)
    ensures r.id == id && r.name == name && r.rowCount.None? && r.layout.None?
    ensures r.cellData.Keys == ws.cells.Keys
    ensures forall q | q in ws.cells :: r.cellData[q] == CreateCellData(ws.cells[q])
    ensures r.columnCount >= 26
    ensures ws.lastColumn.Some? ==> r.columnCount > ws.lastColumn.value
  {
    var maxCol := if ws.lastColumn.Some? then ws.lastColumn.value else 0;
    Worksheet(id, name, None, Max(maxCol + 1, 26), map q | q in ws.cells :: CreateCellData(ws.cells[q]), None)
  }

  /** The id `sheet<k>` of the plain reader's and the array converter's sheets. */
  function PlainSheetId(k: nat): string {
    "sheet" + NatToString(k)
  }

  lemma PlainSheetIdInjective(a: nat, b: nat)
    requires PlainSheetId(a) == PlainSheetId(b)
    ensures a == b
  {
    assert PlainSheetId(a)[5..] == NatToString(a);
    assert PlainSheetId(b)[5..] == NatToString(b);
    NatToStringInjective(a, b);
  }

  /** `sheet<k+1>` for each position `k`. */
  function PlainOrder(n: nat): (r: seq<string>)
    ensures |r| == n && forall k | 0 <= k < n :: r[k] == PlainSheetId(k + 1)
    ensures forall a, b | 0 <= a < b < n :: r[a] != r[b]
  {
    var r := seq(n, k requires 0 <= k < n => PlainSheetId(k + 1));
    assert forall a, b | 0 <= a < b < n :: r[a] != r[b] by {
      forall a, b | 0 <= a < b < n ensures r[a] != r[b] {
        if r[a] == r[b] { PlainSheetIdInjective(a + 1, b + 1); }
      }
    }
    r
  }

  /**
   * The plain reader's `transformExcelToWorkbook`: sheet `k` becomes
   * `sheet<k+1>`, in `SheetNames` order, under the id `workbook1`.
   */
  function TransformPlainWorkbook(book: seq<(string, PlainSheet)>, fileName: string): (wb: Workbook)
    ensures wb.id == "workbook1" && wb.name == fileName
    ensures |wb.sheetOrder| == |book|
    ensures forall id :: id in wb.sheets <==> id in wb.sheetOrder
    ensures forall k | 0 <= k < |book| ::
      wb.sheetOrder[k] == PlainSheetId(k + 1) && wb.sheets[wb.sheetOrder[k]] == TransformWorksheet(PlainSheetId(k + 1), book[k].0, book[k].1)
  {
    var order := PlainOrder(|book|);
    var built := seq(|book|, k requires 0 <= k < |book| => TransformWorksheet(PlainSheetId(k + 1), book[k].0, book[k].1));
    Workbook("workbook1", fileName, None, None, map[], order, SheetMap(order, built), [])
  }

  // ------------------------------------------------------ arrays and CSV

  /** The cells of a value matrix: `{ v, t }` for every non-null value, `t` 2 for numbers and 1 otherwise. */
  function ArrayCells(data: seq<seq<Value>>): (cells: map<Pos, Cell>)
    ensures forall q: Pos :: q in cells <==> InGrid(q, data) && !IsNullish(data[q.r][q.c])
    ensures forall q: Pos | InGrid(q, data) && !IsNullish(data[q.r][q.c]) ::
      cells[q] == Cell(data[q.r][q.c], Some(if data[q.r][q.c].Number? then NumberType else StringType), None, None, None, Undefined)
  {
    var keys := set i, j | 0 <= i < |data| && 0 <= j < |data[i]| && !IsNullish(data[i][j]) :: Pos(i, j);
    assert forall q: Pos :: q in keys <==> InGrid(q, data) && !IsNullish(data[q.r][q.c]) by {
      forall q: Pos ensures q in keys <==> InGrid(q, data) && !IsNullish(data[q.r][q.c]) {
        if InGrid(q, data) && !IsNullish(data[q.r][q.c]) {
          assert Pos(q.r, q.c) in keys;
        }
      }
    }
    map q | q in keys :: Cell(data[q.r][q.c], Some(if data[q.r][q.c].Number? then NumberType else StringType), None, None, None, Undefined)
  }

  /** `transformArrayToSheet`: `rowCount` is the number of rows, at least 26 columns. */
  function ArraySheet(id: string, name: string, data: seq<seq<Value>>): (ws: Worksheet)
    ensures ws.id == id && ws.name == name && ws.layout.None?
    ensures ws.rowCount == Some(|data|)
    ensures ws.columnCount >= 26 && forall i | 0 <= i < |data| :: |data[i]| <= ws.columnCount
    ensures ws.columnCount == 26 || exists i | 0 <= i < |data| :: |data[i]| == ws.columnCount
    ensures ws.cellData == ArrayCells(data)
  {
    Worksheet(id, name, Some(|data|), Max(LongestRow(data), 26), ArrayCells(data), None)
  }

  /** `transformArrayData`: one sheet `sheet1` named `Sheet1` in the workbook `workbook1`. */
  function ArrayWorkbook(data: seq<seq<Value>>, fileName: string): (wb: Workbook)
    ensures wb.id == "workbook1" && wb.name == fileName
    ensures wb.sheetOrder == ["sheet1"] && wb.sheets.Keys == {"sheet1"}
    ensures wb.sheets["sheet1"] == ArraySheet("sheet1", "Sheet1", data)
    ensures wb.styles == map[] && wb.resources == []
  {
    Workbook("workbook1", fileName, None, None, map[], ["sheet1"], map["sheet1" := ArraySheet("sheet1", "Sheet1", data)], [])
  }

  /** The lines that are not blank, in order. */
  function NonBlankLines(lines: seq<string>): (r: seq<string>)
    ensures |r| <= |lines|
    ensures forall k | 0 <= k < |r| :: Trim(r[k]) != [] && r[k] in lines
    ensures (forall k | 0 <= k < |lines| :: Trim(lines[k]) != []) ==> r == lines
  {
    if lines == [] then []
    else
      var rest := NonBlankLines(lines[1..]);
      if Trim(lines[0]) != [] then [lines[0]] + rest else rest
  }

  /** The fields of one CSV line: split on every comma, each field trimmed. */
  function CsvFields(line: string): (r: seq<string>)
    ensures |r| == |Split(line, ',')| && |r| >= 1
    ensures forall k | 0 <= k < |r| :: r[k] == Trim(Split(line, ',')[k])
  {
    var parts := Split(line, ',');
    seq(|parts|, k requires 0 <= k < |parts| => Trim(parts[k]))
  }

  /** The rows `transformCsvToWorkbook` reads: the non-blank lines, each split into trimmed fields. */
  function CsvRows(content: string): (rows: seq<seq<string>>)
    ensures |rows| == |NonBlankLines(Split(content, '\n'))|
    ensures forall i | 0 <= i < |rows| :: rows[i] == CsvFields(NonBlankLines(Split(content, '\n'))[i])
  {
    var lines := NonBlankLines(Split(content, '\n'));
    seq(|lines|, i requires 0 <= i < |lines| => CsvFields(lines[i]))
  }

  /** Strings as string values. */
  function StringRows(rows: seq<seq<string>>): (data: seq<seq<Value>>)
    ensures |data| == |rows|
    ensures forall i | 0 <= i < |rows| :: |data[i]| == |rows[i]| && forall j | 0 <= j < |rows[i]| :: data[i][j] == Str(rows[i][j])
  {
    seq(|rows|, i requires 0 <= i < |rows| => seq(|rows[i]|, j requires 0 <= j < |rows[i]| => Str(rows[i][j])))
  }

  /**
   * `transformCsvToWorkbook`: the CSV rows as a one-sheet workbook; quotes
   * are not interpreted. Every field of every non-blank line becomes a
   * string cell at its line and field position, and nothing else does.
   */
  function TransformCsvToWorkbook(content: string, fileName: string): (wb: Workbook)
    ensures wb.name == fileName && wb.sheetOrder == ["sheet1"] && wb.sheets.Keys == {"sheet1"}
    ensures wb.sheets["sheet1"].rowCount == Some(|CsvRows(content)|)
    ensures var rows := CsvRows(content);
      forall q: Pos :: q in wb.sheets["sheet1"].cellData <==> 0 <= q.r < |rows| && 0 <= q.c < |rows[q.r]|
    ensures var rows := CsvRows(content);
      forall q: Pos | q in wb.sheets["sheet1"].cellData ::
        wb.sheets["sheet1"].cellData[q] == Cell(Str(rows[q.r][q.c]), Some(StringType), None, None, None, Undefined)
  {
    var rows := CsvRows(content);
    StringCells(rows);
    ArrayWorkbook(StringRows(rows), fileName)
  }

  /** The cells of a matrix of strings sit exactly at its positions and hold them as string cells. */
  lemma StringCells(rows: seq<seq<string>>)
    ensures var cells := ArrayCells(StringRows(rows));
      && (forall q: Pos :: q in cells <==> 0 <= q.r < |rows| && 0 <= q.c < |rows[q.r]|)
      && (forall q: Pos | q in cells :: cells[q] == Cell(Str(rows[q.r][q.c]), Some(StringType), None, None, None, Undefined))
  {
    var data := StringRows(rows);
    forall q: Pos ensures InGrid(q, data) <==> 0 <= q.r < |rows| && 0 <= q.c < |rows[q.r]| {
    }
    forall q: Pos | InGrid(q, data) ensures data[q.r][q.c] == Str(rows[q.r][q.c]) && !IsNullish(data[q.r][q.c]) {
    }
  }

  /** Trimming keeps only characters of the original. */
  lemma TrimAvoids(s: string, c: char)
    requires c !in s
    ensures c !in Trim(s)
  {
    var t := Trim(s);
    var a := LeadingSpaces(s);
    assert t == s[a..a + |t|];
    assert forall x | x in t :: x in s;
  }

  /** Every CSV field is trimmed and has no comma or line feed in it. */
  lemma CsvFieldClean(content: string, i: nat, j: nat)
    requires i < |CsvRows(content)| && j < |CsvRows(content)[i]|
    ensures var f := CsvRows(content)[i][j]; IsTrimmed(f) && ',' !in f && '\n' !in f
  {
    var lines := NonBlankLines(Split(content, '\n'));
    var line := lines[i];
    assert line in Split(content, '\n');
    var parts := Split(line, ',');
    var part := parts[j];
    assert forall x | x in part :: x in line by {
      assert line == Join(parts, ',') by { JoinSplit(line, ','); }
      JoinHasPiece(parts, ',', j);
    }
    TrimAvoids(part, ',');
    TrimAvoids(part, '\n');
  }

  /** Every character of a piece occurs in the join. */
  lemma {:induction false} JoinHasPiece(parts: seq<string>, d: char, k: nat)
    requires k < |parts|
    ensures forall x | x in parts[k] :: x in Join(parts, d)
    decreases |parts|
  {
    if |parts| > 1 {
      var s := Join(parts, d);
      assert s == parts[0] + [d] + Join(parts[1..], d);
      if k > 0 {
        JoinHasPiece(parts[1..], d, k - 1);
      }
    }
  }

  /** Every field of a CSV sheet is a trimmed string cell of type 1 with no comma or line feed in it. */
  lemma CsvCellsAreText(content: string, fileName: string, q: Pos)
    requires q in TransformCsvToWorkbook(content, fileName).sheets["sheet1"].cellData
    ensures var c := TransformCsvToWorkbook(content, fileName).sheets["sheet1"].cellData[q];
      c.v.Str? && c.t == Some(StringType) && IsTrimmed(c.v.s) && ',' !in c.v.s && '\n' !in c.v.s
  {
    var rows := CsvRows(content);
    var data := StringRows(rows);
    assert TransformCsvToWorkbook(content, fileName).sheets["sheet1"].cellData == ArrayCells(data);
    assert InGrid(q, data);
    CsvFieldClean(content, q.r, q.c);
  }

  /** The CSV text of rows: fields joined by commas, lines by line feeds. */
  function CsvText(rows: seq<seq<string>>): string
    requires |rows| >= 1 && forall i | 0 <= i < |rows| :: |rows[i]| >= 1
  {
    Join(CsvLines(rows), '\n')
  }

  /** Each row's fields joined by commas. */
  function CsvLines(rows: seq<seq<string>>): (lines: seq<string>)
    requires forall i | 0 <= i < |rows| :: |rows[i]| >= 1
    ensures |lines| == |rows| && forall i | 0 <= i < |rows| :: lines[i] == Join(rows[i], ',')
  {
    seq(|rows|, i requires 0 <= i < |rows| => Join(rows[i], ','))
  }

  /** A row that CSV can carry: trimmed fields without commas or line feeds, at least one of them non-empty. */
  predicate CsvSafeRow(row: seq<string>) {
    && |row| >= 1
    && (forall j | 0 <= j < |row| :: IsTrimmed(row[j]) && ',' !in row[j] && '\n' !in row[j])
    && (exists j | 0 <= j < |row| :: row[j] != [])
  }

  /** Rows that CSV can carry: at least one, each safe. */
  predicate CsvSafe(rows: seq<seq<string>>) {
    |rows| >= 1 && forall i | 0 <= i < |rows| :: CsvSafeRow(rows[i])
  }

  /** One safe row survives its line. */
  lemma CsvLineRoundTrip(row: seq<string>)
    requires CsvSafeRow(row)
    ensures '\n' !in Join(row, ',') && Trim(Join(row, ',')) != [] && CsvFields(Join(row, ',')) == row
  {
    var line := Join(row, ',');
    assert '\n' !in line by { JoinAvoids(row, ',', '\n'); }
    assert Trim(line) != [] by {
      var j :| 0 <= j < |row| && row[j] != [];
      assert IsTrimmed(row[j]);
      assert !IsSpace(row[j][0]);
      JoinNotAllSpace(row, ',', j);
    }
    assert Split(line, ',') == row by { SplitJoin(row, ','); }
    var fields := CsvFields(line);
    forall k | 0 <= k < |row| ensures fields[k] == row[k] {
      TrimOfTrimmed(row[k]);
    }
  }

  /** Reading back the CSV text of safe rows gives the rows. */
  lemma CsvRoundTrip(rows: seq<seq<string>>)
    requires CsvSafe(rows)
    ensures CsvRows(CsvText(rows)) == rows
  {
    var lines := CsvLines(rows);
    forall i | 0 <= i < |rows|
      ensures '\n' !in lines[i] && Trim(lines[i]) != [] && CsvFields(lines[i]) == rows[i]
    {
      CsvLineRoundTrip(rows[i]);
    }
    SplitJoin(lines, '\n');
    assert NonBlankLines(Split(CsvText(rows), '\n')) == lines;
  }

  // ------------------------------------------------------ freeze panes

  /** `!freeze`: `row` and `col`, 0 when falsy. */
  datatype FreezeKey = FreezeKey(row: int, col: int)

  /** A pane record: `state`, and `xSplit`/`ySplit`, 0 when falsy. */
  datatype Pane = Pane(state: string, xSplit: int, ySplit: int)

  /** `!panes`: an array of panes or a single pane object. */
  datatype Panes = PaneList(panes: seq<Pane>) | PaneObject(pane: Pane)

  /** The freeze-related keys of a worksheet: `!freeze`, `!panes`, and the `pane` of each `!views` entry. */
  datatype FreezeSource = FreezeSource(freeze: Option<FreezeKey>, panes: Option<Panes>, views: seq<Option<Pane>>)

  /** A pane's split, which also gives the first scrolling row and column. */
  function PaneFreeze(p: Pane): (f: Freeze)
    ensures f.startRow == f.ySplit == p.ySplit && f.startColumn == f.xSplit == p.xSplit
  {
    Freeze(p.ySplit, p.xSplit, p.ySplit, p.xSplit)
  }

  /** Position `k` holds the first frozen pane. */
  predicate FirstFrozenAt(ps: seq<Pane>, k: int) {
    0 <= k < |ps| && ps[k].state == "frozen" && forall j | 0 <= j < k :: ps[j].state != "frozen"
  }

  /** `panes.find(frozen) || panes[0]`: the first pane whose state is `"frozen"`, else the first pane. */
  function ChosenPane(ps: seq<Pane>): (p: Pane)
    requires |ps| > 0
    ensures (exists k | 0 <= k < |ps| :: ps[k].state == "frozen") ==> exists k :: FirstFrozenAt(ps, k) && p == ps[k]
    ensures (forall k | 0 <= k < |ps| :: ps[k].state != "frozen") ==> p == ps[0]
  {
    if ps[0].state == "frozen" || |ps| == 1 then
      assert ps[0].state == "frozen" ==> FirstFrozenAt(ps, 0);
      ps[0]
    else
      var rest := ChosenPane(ps[1..]);
      FirstFrozenShifts(ps);
      if rest.state == "frozen" then rest else ps[0]
  }

  /** Past a first pane that is not frozen, the first frozen pane of the tail is the first of the whole list. */
  lemma FirstFrozenShifts(ps: seq<Pane>)
    requires |ps| > 1 && ps[0].state != "frozen"
    ensures forall k | FirstFrozenAt(ps[1..], k) :: FirstFrozenAt(ps, k + 1) && ps[1..][k] == ps[k + 1]
    ensures (exists k | 0 <= k < |ps| :: ps[k].state == "frozen") ==> exists k | 0 <= k < |ps[1..]| :: ps[1..][k].state == "frozen"
  {
    forall k | FirstFrozenAt(ps[1..], k) ensures FirstFrozenAt(ps, k + 1) {
      forall j | 0 <= j < k + 1 ensures ps[j].state != "frozen" {
        if j > 0 {
          assert ps[j] == ps[1..][j - 1];
        }
      }
    }
    if exists k | 0 <= k < |ps| :: ps[k].state == "frozen" {
      var k :| 0 <= k < |ps| && ps[k].state == "frozen";
      assert k > 0 && ps[1..][k - 1] == ps[k];
    }
  }

  /** What `!panes` sets: an empty array is an object without splits, so it sets zeros. */
  function PanesFreeze(panes: Panes): (f: Freeze)
    ensures f.startRow == f.ySplit && f.startColumn == f.xSplit
  {
    match panes
    case PaneList(ps) => if |ps| > 0 then PaneFreeze(ChosenPane(ps)) else PaneFreeze(Pane("", 0, 0))
    case PaneObject(p) => PaneFreeze(p)
  }

  /**
   * `extractFreezeInfo`: nothing without `!freeze` or `!panes` (even when a
   * view has a pane); otherwise the first view's pane wins over `!panes`,
   * which wins over `!freeze`. Every non-default result scrolls from its
   * split.
   */
  function ExtractFreezeInfo(src: FreezeSource): (r: Freeze)
    ensures src.freeze.None? && src.panes.None? ==> r == NoFreeze
    ensures r == NoFreeze || (r.startRow == r.ySplit && r.startColumn == r.xSplit)
    ensures (src.freeze.Some? || src.panes.Some?) && |src.views| > 0 && src.views[0].Some? ==> r == PaneFreeze(src.views[0].value)
    ensures src.panes.Some? && !(|src.views| > 0 && src.views[0].Some?) ==> r == PanesFreeze(src.panes.value)
    ensures src.freeze.Some? && src.panes.None? && !(|src.views| > 0 && src.views[0].Some?) ==>
      r == Freeze(src.freeze.value.row, src.freeze.value.col, src.freeze.value.row, src.freeze.value.col)
  {
    if src.freeze.None? && src.panes.None? then NoFreeze
    else
      var fromFreeze := match src.freeze
        case Some(k) => Freeze(k.row, k.col, k.row, k.col)
        case None => NoFreeze;
      var fromPanes := match src.panes
        case Some(ps) => PanesFreeze(ps)
        case None => fromFreeze;
      if |src.views| > 0 && src.views[0].Some? then PaneFreeze(src.views[0].value) else fromPanes
  }

  /** With `!panes` present, `!freeze` has no effect. */
  lemma PanesOverrideFreeze(src: FreezeSource, other: Option<FreezeKey>)
    requires src.panes.Some?
    ensures ExtractFreezeInfo(src.(freeze := other)) == ExtractFreezeInfo(src)
  {
  }

  /** Without `!freeze` and `!panes`, the views have no effect. */
  lemma ViewsAloneIgnored(src: FreezeSource, views: seq<Option<Pane>>)
    requires src.freeze.None? && src.panes.None?
    ensures ExtractFreezeInfo(src.(views := views)) == NoFreeze
  {
  }

  // ------------------------------------------------------ merge ranges

  /** A `!merges` entry; `s` or `e` is `None` when falsy. */
  datatype MergeIn = MergeIn(s: Option<Pos>, e: Option<Pos>)

  /** The filter's test: both corners present, the start non-negative, the end not before it. */
  predicate ValidMerge(m: MergeIn) {
    && m.s.Some? && m.e.Some?
    && m.s.value.r >= 0 && m.s.value.c >= 0
    && m.e.value.r >= m.s.value.r && m.e.value.c >= m.s.value.c
  }

  /** A range whose start is its top-left cell, inside the sheet. */
  predicate WellFormedRange(rg: Range) {
    0 <= rg.s.r <= rg.e.r && 0 <= rg.s.c <= rg.e.c
  }

  /** `rg` is the range of some valid entry of `ms`. */
  predicate RangeOfValid(rg: Range, ms: seq<MergeIn>) {
    exists i | 0 <= i < |ms| :: ValidMerge(ms[i]) && rg == Range(ms[i].s.value, ms[i].e.value)
  }

  /** The merge ranges that are kept: the valid ones, in order. */
  function FilterMerges(ms: seq<MergeIn>): (r: seq<Range>)
    ensures |r| <= |ms|
    ensures forall k | 0 <= k < |r| :: WellFormedRange(r[k])
    ensures forall i | 0 <= i < |ms| && ValidMerge(ms[i]) :: Range(ms[i].s.value, ms[i].e.value) in r
    ensures forall k | 0 <= k < |r| :: RangeOfValid(r[k], ms)
    ensures (forall i | 0 <= i < |ms| :: ValidMerge(ms[i])) ==> |r| == |ms|
    ensures |ms| == 1 ==> (r == [] <==> !ValidMerge(ms[0]))
  {
    if ms == [] then []
    else
      var rest := FilterMerges(ms[1..]);
      var r := if ValidMerge(ms[0]) then [Range(ms[0].s.value, ms[0].e.value)] + rest else rest;
      FilterStepSound(ms, ms[1..], rest, r);
      FilterStepComplete(ms, ms[1..], rest, r);
      r
  }

  /** Filtering a concatenation filters each part in turn, so the kept merges stay in their original order. */
  lemma {:induction false} FilterMergesAppend(a: seq<MergeIn>, b: seq<MergeIn>)
    ensures FilterMerges(a + b) == FilterMerges(a) + FilterMerges(b)
    decreases |a|
  {
    if a == [] {
      assert a + b == b;
    } else {
      assert (a + b)[0] == a[0];
      assert (a + b)[1..] == a[1..] + b;
      FilterMergesAppend(a[1..], b);
    }
  }

  /** A range of a valid entry of the tail is a range of a valid entry of the whole list. */
  lemma RangeOfValidTail(rg: Range, ms: seq<MergeIn>, tail: seq<MergeIn>)
    requires ms != [] && tail == ms[1..] && RangeOfValid(rg, tail)
    ensures RangeOfValid(rg, ms)
  {
    var i :| 0 <= i < |tail| && ValidMerge(tail[i]) && rg == Range(tail[i].s.value, tail[i].e.value);
    assert ms[i + 1] == tail[i];
  }

  /** Keeping the first entry when it is valid, in front of the ranges kept from the rest, keeps only ranges of valid entries. */
  lemma FilterStepSound(ms: seq<MergeIn>, tail: seq<MergeIn>, rest: seq<Range>, r: seq<Range>)
    requires ms != [] && tail == ms[1..] && |rest| <= |tail|
    requires forall k | 0 <= k < |rest| :: WellFormedRange(rest[k])
    requires forall k | 0 <= k < |rest| :: RangeOfValid(rest[k], tail)
    requires r == if ValidMerge(ms[0]) then [Range(ms[0].s.value, ms[0].e.value)] + rest else rest
    ensures |r| <= |ms|
    ensures forall k | 0 <= k < |r| :: WellFormedRange(r[k])
    ensures forall k | 0 <= k < |r| :: RangeOfValid(r[k], ms)
  {
    forall k | 0 <= k < |rest| ensures RangeOfValid(rest[k], ms) {
      RangeOfValidTail(rest[k], ms, tail);
    }
    if ValidMerge(ms[0]) {
      assert forall k | 1 <= k < |r| :: r[k] == rest[k - 1];
      assert RangeOfValid(r[0], ms) by { assert ValidMerge(ms[0]) && r[0] == Range(ms[0].s.value, ms[0].e.value); }
    }
  }

  /** Every valid entry's range is kept, and nothing is dropped when every entry is valid. */
  lemma FilterStepComplete(ms: seq<MergeIn>, tail: seq<MergeIn>, rest: seq<Range>, r: seq<Range>)
    requires ms != [] && tail == ms[1..]
    requires forall i | 0 <= i < |tail| && ValidMerge(tail[i]) :: Range(tail[i].s.value, tail[i].e.value) in rest
    requires (forall i | 0 <= i < |tail| :: ValidMerge(tail[i])) ==> |rest| == |tail|
    requires r == if ValidMerge(ms[0]) then [Range(ms[0].s.value, ms[0].e.value)] + rest else rest
    ensures forall i | 0 <= i < |ms| && ValidMerge(ms[i]) :: Range(ms[i].s.value, ms[i].e.value) in r
    ensures (forall i | 0 <= i < |ms| :: ValidMerge(ms[i])) ==> |r| == |ms|
  {
    assert forall i | 1 <= i < |ms| :: ms[i] == tail[i - 1];
  }

  /** In a well-formed range every cell is the anchor or a non-anchor cell, and the anchor is the top-left one. */
  lemma AnchorIsTopLeft(rg: Range, q: Pos)
    requires WellFormedRange(rg)
    requires rg.s.r <= q.r <= rg.e.r && rg.s.c <= q.c <= rg.e.c
    ensures q == rg.s <==> !NonAnchor(rg, q)
    ensures !NonAnchor(rg, rg.s) && rg.s.r <= q.r && rg.s.c <= q.c
  {
  }

  // ------------------------------------------------------ payload shaping

  const EmptyExcelStyle: ExcelStyle := ExcelStyle("", "", None, None, None, None, None, None, "", "", None)

  /** `_numberFormat`: the number format's text when `z` is truthy. */
  function FormatText(z: Value): string {
    if Truthy(z) then ValueText(z) else ""
  }

  /** A cell's value in the payload: the formatted text when it is non-empty and differs from the raw value, else the raw value (`""` when absent). */
  function ShapedValue(c: Option<XlsxCell>): (v: Value)
    ensures c.None? ==> v == Str("")
    ensures c.Some? && c.value.w != [] ==> v == Str(c.value.w)
    ensures c.Some? && c.value.w == [] ==> v == (if c.value.v.Undefined? then Str("") else c.value.v)
  {
    match c
    case None => Str("")
    case Some(x) =>
      var raw := if !x.v.Undefined? then x.v else Str("");
      if x.w != [] && Str(x.w) != raw then Str(x.w) else raw
  }

  /** The style object with the reader's side fields written over it. */
  function WithSideFields(es: ExcelStyle, x: XlsxCell): (r: ExcelStyle)
    ensures r.htmlContent == x.h && r.richText == x.r && r.numberFormat == FormatText(x.z)
    ensures r.font == es.font && r.fill == es.fill && r.alignment == es.alignment && r.border == es.border
    ensures r.numFmt == es.numFmt && r.protection == es.protection && r.fgColor == es.fgColor && r.bgColor == es.bgColor
  {
    es.(htmlContent := x.h, richText := x.r, numberFormat := FormatText(x.z))
  }

  /**
   * A cell's style-matrix entry: the style plus side fields, side fields
   * alone for a formula cell without a style, else `null` (also for a
   * missing cell).
   */
  function ShapedStyle(c: Option<XlsxCell>): (sc: StyleCell)
    ensures sc.NoStyle? == false
    ensures sc.NullStyle? <==> c.None? || (c.value.s.None? && c.value.f == [])
    ensures sc.Styled? ==> sc.formattedText == c.value.w && sc.formula == c.value.f
    ensures sc.Styled? && c.value.s.Some? ==> sc.style == WithSideFields(c.value.s.value, c.value)
    ensures sc.Styled? && c.value.s.None? ==> sc.style == WithSideFields(EmptyExcelStyle, c.value)
  {
    match c
    case None => NullStyle
    case Some(x) =>
      match x.s
      case Some(es) => Styled(WithSideFields(es, x), x.w, x.f)
      case None => if x.f != [] then Styled(WithSideFields(EmptyExcelStyle, x), x.w, x.f) else NullStyle
  }

  /** The SheetJS cell at an address, if any. */
  function CellAt(cells: map<Pos, XlsxCell>, q: Pos): Option<XlsxCell> {
    if q in cells then Some(cells[q]) else None
  }

  /** The value and style matrices over the used range `A1:<last>`. */
  function ShapeSheet(lastRow: nat, lastColumn: nat, cells: map<Pos, XlsxCell>): (r: (seq<seq<Value>>, seq<seq<StyleCell>>))
    ensures |r.0| == |r.1| == lastRow + 1
    ensures forall i | 0 <= i <= lastRow :: |r.0[i]| == |r.1[i]| == lastColumn + 1
    ensures forall i, j | 0 <= i <= lastRow && 0 <= j <= lastColumn ::
      r.0[i][j] == ShapedValue(CellAt(cells, Pos(i, j))) && r.1[i][j] == ShapedStyle(CellAt(cells, Pos(i, j)))
  {
    (seq(lastRow + 1, i requires 0 <= i <= lastRow => seq(lastColumn + 1, j requires 0 <= j <= lastColumn => ShapedValue(CellAt(cells, Pos(i, j))))),
     seq(lastRow + 1, i requires 0 <= i <= lastRow => seq(lastColumn + 1, j requires 0 <= j <= lastColumn => ShapedStyle(CellAt(cells, Pos(i, j))))))
  }

  /** A formula reaches the built cell, normalised, whether or not the cell has a style. */
  lemma ShapedFormulaReachesCell(x: XlsxCell)
    requires x.f != []
    ensures FormulaOf(ShapedStyle(Some(x))) == Some(NormalizeFormula(x.f))
  {
  }

  /** A present cell without style and formula gets no `s` at all from the grid builder. */
  lemma UnstyledCellGetsNoStyle(x: XlsxCell, readonly: bool, p: Parsers)
    requires x.s.None? && x.f == []
    ensures ResolvedStyle(ShapedStyle(Some(x)), readonly, p).None?
  {
  }

  /** For a cell without HTML or rich text, the grid builder's content is the shaped value. */
  lemma ShapedContentIsValue(x: XlsxCell, p: Parsers)
    requires x.h == [] && x.r == []
    ensures CellContent(ShapedValue(Some(x)), ShapedStyle(Some(x)), p) == Content(ShapedValue(Some(x)), None)
  {
  }

  /** A `!rows` entry: `hpt` and `hpx` (0 when absent) and `hidden`. */
  datatype RowIn = RowIn(hpt: real, hpx: real, hidden: bool)

  /** A `!cols` entry: `width`, `wch` and `wpx` (0 when absent) and `hidden`. */
  datatype ColIn = ColIn(width: real, wch: real, wpx: real, hidden: bool)

  /** A row property: `height` is `hpt || hpx`, the raw fields are kept. */
  function ShapeRow(row: RowIn): (p: RowProps)
    ensures p.hpt == row.hpt && p.hpx == row.hpx && p.hidden == row.hidden
    ensures p.height == (if row.hpt != 0.0 then row.hpt else row.hpx)
  {
    RowProps(if row.hpt != 0.0 then row.hpt else row.hpx, row.hpt, row.hpx, row.hidden)
  }

  /** A column property: `width` is `width || wch || wpx`, `excelWidth` the raw `width`. */
  function ShapeColumn(col: ColIn): (p: ColProps)
    ensures p.wpx == col.wpx && p.wch == col.wch && p.excelWidth == col.width && p.hidden == col.hidden
    ensures p.width == (if col.width != 0.0 then col.width else if col.wch != 0.0 then col.wch else col.wpx)
  {
    ColProps(if col.width != 0.0 then col.width else if col.wch != 0.0 then col.wch else col.wpx, col.wpx, col.wch, col.width, col.hidden)
  }

  /** The explicit height of a read row: `hpx`, else `hpt` at 1.33 px per point, else the base height 23. */
  lemma ReadRowHeight(row: RowIn)
    ensures ExplicitHeight(ShapeRow(row)) ==
      (if row.hpx != 0.0 then row.hpx else if row.hpt != 0.0 then Round(row.hpt * 1.33) as real else DefaultConfig.baseHeight)
    ensures HasExplicit(Some(ShapeRow(row))) <==> row.hpt != 0.0 || row.hpx != 0.0 || row.hidden
  {
  }

  /** The pixel width of a read column: `wpx`, else `wch` at 7.5 px, else `width` at 7 px, else 73; the combined `width` field never decides. */
  lemma ReadColumnWidth(col: ColIn)
    ensures WidthOf(ShapeColumn(col)) ==
      (if col.wpx != 0.0 then col.wpx
       else if col.wch != 0.0 then Round(col.wch * 7.5) as real
       else if col.width != 0.0 then Round(col.width * 7.0) as real
       else DefaultWidth)
    ensures HasWidth(ShapeColumn(col)) <==> col.width != 0.0 || col.wch != 0.0 || col.wpx != 0.0
  {
  }

  function MapOption<A, B>(xs: seq<Option<A>>, f: A -> B): (r: seq<Option<B>>)
    ensures |r| == |xs|
    ensures forall k | 0 <= k < |xs| :: r[k] == (if xs[k].Some? then Some(f(xs[k].value)) else None)
  {
    seq(|xs|, k requires 0 <= k < |xs| => if xs[k].Some? then Some(f(xs[k].value)) else None)
  }

  /** A worksheet as the styled reader sees it. */
  datatype XlsxSheet = XlsxSheet(
    lastCell: Option<(nat, nat)>,
    cells: map<Pos, XlsxCell>,
    rows: seq<Option<RowIn>>,
    cols: seq<Option<ColIn>>,
    merges: seq<MergeIn>,
    freeze: FreezeSource)

  /**
   * One sheet of `readExcelFileWithStyles`: the matrices over `!ref`
   * (`A1:A1` without it), the row and column properties, the valid merge
   * ranges, the freeze info and the hidden flag.
   */
  function ReadSheet(ws: XlsxSheet, hidden: bool): (pl: Payload)
    ensures var (lr, lc) := if ws.lastCell.Some? then ws.lastCell.value else (0, 0);
      (pl.data, pl.matrix) == ShapeSheet(lr, lc, ws.cells)
    ensures pl.rowProps == MapOption(ws.rows, ShapeRow) && pl.colProps == MapOption(ws.cols, ShapeColumn)
    ensures pl.merges == FilterMerges(ws.merges)
    ensures pl.freeze == Some(ExtractFreezeInfo(ws.freeze)) && pl.hidden == hidden
  {
    var (lr, lc) := if ws.lastCell.Some? then ws.lastCell.value else (0, 0);
    var m := ShapeSheet(lr, lc, ws.cells);
    Payload(m.0, m.1, MapOption(ws.rows, ShapeRow), MapOption(ws.cols, ShapeColumn),
            FilterMerges(ws.merges), Some(ExtractFreezeInfo(ws.freeze)), hidden)
  }

  /** A read workbook: each sheet with its name and its `Hidden` attribute (`Undefined` without workbook metadata). */
  datatype XlsxBook = XlsxBook(sheets: seq<(string, XlsxSheet, Value)>)

  /** `readExcelFileWithStyles`: one styled payload per sheet, in sheet order; hidden exactly when `Hidden === 1`. */
  function ReadBook(book: XlsxBook): (r: seq<(string, SheetInfo)>)
    ensures |r| == |book.sheets|
    ensures forall k | 0 <= k < |r| ::
      r[k].0 == book.sheets[k].0 && r[k].1 == WithStyles(ReadSheet(book.sheets[k].1, book.sheets[k].2 == Number(1.0)))
  {
    seq(|book.sheets|, k requires 0 <= k < |book.sheets| =>
      (book.sheets[k].0, WithStyles(ReadSheet(book.sheets[k].1, book.sheets[k].2 == Number(1.0)))))
  }

  /** No two sheets of the workbook share a name. */
  predicate DistinctNames(book: XlsxBook) {
    forall a, b | 0 <= a < b < |book.sheets| :: book.sheets[a].0 != book.sheets[b].0
  }

  /**
   * The sheets as the grid builder receives them: the reader stores each
   * payload under its sheet name (`result[sheetName] = …`, so a later sheet
   * of the same name overwrites an earlier one in place), and
   * `Object.entries` lists array-index names such as `2023` first, in
   * ascending numeric order, and the other names in sheet order.
   */
  function SheetEntries(book: XlsxBook): (r: seq<(string, SheetInfo)>)
    ensures DistinctNames(book) ==> |r| == |book.sheets|
  {
    var read := ReadBook(book);
    JsObject.EntriesOfBuild(read);
    DistinctKeys(book);
    JsObject.Entries(JsObject.Build(read))
  }

  /** Every listed sheet was read, and every read sheet's name is listed. */
  lemma SheetEntriesComplete(book: XlsxBook)
    ensures forall e | e in SheetEntries(book) :: e in ReadBook(book)
    ensures forall k | 0 <= k < |book.sheets| :: JsObject.HasKey(SheetEntries(book), book.sheets[k].0)
  {
    var read := ReadBook(book);
    JsObject.EntriesOfBuild(read);
    forall k | 0 <= k < |book.sheets| ensures JsObject.HasKey(SheetEntries(book), book.sheets[k].0) {
      assert read[k].0 == book.sheets[k].0;
    }
  }

  /**
   * The listing puts array-index names first; with distinct names the other
   * sheets keep their order, and when no name is an array index the listing
   * is the sheets in order.
   */
  lemma SheetEntriesOrder(book: XlsxBook)
    ensures var r := SheetEntries(book);
      forall a, b | 0 <= a < b < |r| && JsObject.IsArrayIndex(r[b].0) :: JsObject.IsArrayIndex(r[a].0)
    ensures DistinctNames(book) ==> JsObject.NameKeyed(SheetEntries(book)) == JsObject.NameKeyed(ReadBook(book))
    ensures DistinctNames(book) && (forall k | 0 <= k < |book.sheets| :: !JsObject.IsArrayIndex(book.sheets[k].0)) ==>
      SheetEntries(book) == ReadBook(book)
  {
    var read := ReadBook(book);
    JsObject.EntriesOfBuild(read);
    DistinctKeys(book);
    if forall k | 0 <= k < |book.sheets| :: !JsObject.IsArrayIndex(book.sheets[k].0) {
      assert forall k | 0 <= k < |read| :: read[k].0 == book.sheets[k].0;
    }
  }

  /** Distinct sheet names make distinct keys of the reader's result. */
  lemma DistinctKeys(book: XlsxBook)
    ensures DistinctNames(book) ==> JsObject.UniqueKeys(ReadBook(book))
  {
    var read := ReadBook(book);
    assert forall a | 0 <= a < |read| :: read[a].0 == book.sheets[a].0;
  }

  // ------------------------------------------------------ dispatch

  /** A file: its name, and what reading it as text and as a workbook gives. */
  datatype FileIn = FileIn(name: string, text: Read<string>, book: Read<XlsxBook>)

  /** `文件解析失败: `, the prefix of the error cell. */
  const FailurePrefix: string := "\U{6587}\U{4EF6}\U{89E3}\U{6790}\U{5931}\U{8D25}: "

  /** The lower-cased text after the last dot of the name (the whole name without one). */
  function Extension(name: string): (e: string)
    ensures '.' !in e
  {
    var parts := Split(name, '.');
    var last := parts[|parts| - 1];
    assert forall k | 0 <= k < |last| :: ToLower(last)[k] == LowerChar(last[k]) != '.';
    ToLower(last)
  }

  /** The workbook name: the given name, else the file's, else `Untitled File`. */
  function FinalName(fileName: string, file: FileIn): (r: string)
    ensures r != []
    ensures fileName != [] ==> r == fileName
  {
    if fileName != [] then fileName else if file.name != [] then file.name else "Untitled File"
  }

  /** The one-cell workbook that reports a failed read. */
  function FailureWorkbook(message: string, name: string): (wb: Workbook)
    ensures wb == ArrayWorkbook([[Str(FailurePrefix + message)]], name)
  {
    ArrayWorkbook([[Str(FailurePrefix + message)]], name)
  }

  /**
   * The workbook built from listed sheet entries: one sheet per entry, under
   * the ids `sheet_<now>_<j>` in listing order, the sheet map holding exactly
   * those ids, and each sheet built from its entry against the workbook's
   * style table.
   */
  ghost predicate BuiltFrom(wb: Workbook, es: seq<(string, SheetInfo)>, now: nat, readonly: bool, p: Parsers) {
    && |wb.sheetOrder| == |es|
    && (forall j | 0 <= j < |wb.sheetOrder| :: wb.sheetOrder[j] == SheetId(now, j))
    && (forall id :: id in wb.sheets <==> id in wb.sheetOrder)
    && (forall j | 0 <= j < |wb.sheetOrder| ::
          SheetOk(wb.sheets[wb.sheetOrder[j]], es[j].0, es[j].1, j, now, readonly, p, wb.styles))
  }

  /**
   * `transformDataToWorkbook`: `xlsx`/`xls` files take the styled reader and
   * the grid builder, `csv` files the CSV converter, anything else shows its
   * whole text in cell A1; a failed read shows its message there instead.
   */
  method TransformDataToWorkbook(file: FileIn, fileName: string, readonly: bool, now: nat, p: Parsers)
    returns (wb: Workbook)
    ensures var ext := Extension(file.name);
      (ext == "xlsx" || ext == "xls") && file.book.Loaded? ==>
        && wb.name == FinalName(fileName, file)
        && BuiltFrom(wb, SheetEntries(file.book.value), now, readonly, p)
        && (DistinctNames(file.book.value) ==> |wb.sheetOrder| == |file.book.value.sheets|)
    ensures var ext := Extension(file.name);
      (ext == "xlsx" || ext == "xls") && file.book.Failed? ==> wb == FailureWorkbook(file.book.message, FinalName(fileName, file))
    ensures var ext := Extension(file.name);
      ext != "xlsx" && ext != "xls" && file.text.Failed? ==> wb == FailureWorkbook(file.text.message, FinalName(fileName, file))
    ensures var ext := Extension(file.name);
      ext == "csv" && file.text.Loaded? ==> wb == TransformCsvToWorkbook(file.text.value, FinalName(fileName, file))
    ensures var ext := Extension(file.name);
      ext != "xlsx" && ext != "xls" && ext != "csv" && file.text.Loaded? ==> wb == ArrayWorkbook([[Str(file.text.value)]], FinalName(fileName, file))
  {
    var name := FinalName(fileName, file);
    var ext := Extension(file.name);
    if ext == "xlsx" || ext == "xls" {
      match file.book
      case Loaded(book) =>
        var entries := SheetEntries(book);
        wb := TransformExcelToWorkbook(entries, name, readonly, now, p);
        assert BuiltFrom(wb, entries, now, readonly, p);
      case Failed(message) =>
        wb := FailureWorkbook(message, name);
    } else {
      match file.text
      case Loaded(text) =>
        if ext == "csv" {
          wb := TransformCsvToWorkbook(text, name);
        } else {
          wb := ArrayWorkbook([[Str(text)]], name);
        }
      case Failed(message) =>
        wb := FailureWorkbook(message, name);
    }
  }
}
