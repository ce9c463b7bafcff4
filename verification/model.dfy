/**
 * The editor's in-memory records: style records (`IStyleData`), rich-text
 * documents (`IDocumentData` bodies), cells, worksheets and workbooks, plus
 * the JavaScript values that flow through them.
 *
 * Object keys that may be absent are `Option` fields; a style record with
 * every field `None` is the empty object `{}`. Nested row/column objects of
 * `cellData` are flattened into one map keyed by (row, column).
 */
module Model {
  import opened Wrappers
  import opened JsNumber

  /** A JavaScript value as it appears in raw cell data; numbers are finite. */
  datatype Value =
    | Undefined
    | Null
    | Str(s: string)
    | Number(n: real)
    | Bool(b: bool)
      /** An object (a date, an array, ...) together with its `String()` text. */
    | Other(shown: string)

  /** JavaScript truthiness. */
  predicate Truthy(v: Value) {
    match v
    case Undefined => false
    case Null => false
    case Str(s) => s != []
    case Number(n) => n != 0.0
    case Bool(b) => b
    case Other(_) => true
  }

  /** `v === null || v === undefined`. */
  predicate IsNullish(v: Value) {
    v.Undefined? || v.Null?
  }

  /** `String(v)`. */
  function ValueText(v: Value): (r: string)
    ensures v.Str? ==> r == v.s
    ensures v.Undefined? ==> r == "undefined"
  {
    match v
    case Undefined => "undefined"
    case Null => "null"
    case Str(s) => s
    case Number(n) => NumberText(n)
    case Bool(b) => if b then "true" else "false"
    case Other(shown) => shown
  }

  /** `Number(v)`; an object other than a string, number or boolean reads as NaN. */
  function NumberOf(v: Value): (r: Num)
    ensures v.Number? ==> r == Finite(v.n)
    ensures v.Str? ==> r == ToNumber(v.s)
  {
    match v
    case Undefined => NaN
    case Null => Finite(0.0)
    case Str(s) => ToNumber(s)
    case Number(n) => Finite(n)
    case Bool(b) => Finite(if b then 1.0 else 0.0)
    case Other(_) => NaN
  }

  /** The `{ s: 1 }` record used for underline and strike-through. */
  datatype Decoration = Decoration(s: int)

  /** A colour: an object `{ rgb, theme }` (empty `rgb` = absent) or a bare string. */
  datatype ColorRef =
    | ColorObj(rgb: string, theme: Option<int>)
    | ColorString(text: string)

  /** `{ rgb: c }`, the only colour shape the importers produce. */
  function Rgb(c: string): ColorRef {
    ColorObj(c, None)
  }

  /** Text rotation `{ a, v }`; `a` is whatever the source alignment held. */
  datatype Rotation = Rotation(a: Value, v: int)

  datatype Padding = Padding(t: Option<Num>, b: Option<Num>, l: Option<Num>, r: Option<Num>)

  datatype BorderSide = BorderSide(s: int, cl: ColorRef)

  /** One side key of a border record: absent, present but `null`, or a side. */
  datatype SideSlot = NoSide | NullSide | Side(side: BorderSide)

  datatype Borders = Borders(t: SideSlot, b: SideSlot, l: SideSlot, r: SideSlot)

  datatype Protection = Protection(locked: bool, hidden: bool)

  /** A cell or text-run style record (`IStyleData`). */
  datatype Style = Style(
    ff: Option<string>,
    fs: Option<Num>,
    bl: Option<int>,
    it: Option<int>,
    ul: Option<Decoration>,
    st: Option<Decoration>,
    cl: Option<ColorRef>,
    va: Option<int>,
    bg: Option<ColorRef>,
    ht: Option<int>,
    vt: Option<int>,
    tb: Option<int>,
    tr: Option<Rotation>,
    pd: Option<Padding>,
    bd: Option<Borders>,
    n: Option<string>,
    protection: Option<Protection>,
    richText: Option<RichText>)

  /** The empty style object `{}`. */
  const EmptyStyle: Style :=
    Style(None, None, None, None, None, None, None, None, None,
          None, None, None, None, None, None, None, None, None)

  /** Rich text kept on a style: a converted SpreadsheetML run list or a converted HTML fragment. */
  datatype RichText =
    | XmlRich(body: DocBody)
    | HtmlRich(text: string, runs: seq<HtmlRun>)

  /** A styled range `[startIndex, endIndex)` of the text produced from HTML. */
  datatype HtmlRun = HtmlRun(style: Style, startIndex: int, endIndex: int)

  /** A styled range `[st, ed)` of a document's `dataStream`. */
  datatype TextRun = TextRun(st: int, ed: int, ts: Style)

  datatype ParagraphStyle = ParagraphStyle(
    namedStyleType: Option<int>,
    horizontalAlign: Option<int>,
    spaceAbove: Option<real>,
    spaceBelow: Option<real>,
    lineSpacing: Option<real>,
    indentStart: Option<real>,
    indentEnd: Option<real>,
    indentFirstLine: Option<real>)

  /** A paragraph marker: `startIndex` is the position of the paragraph's closing `'\r'`. */
  datatype Paragraph = Paragraph(startIndex: int, paragraphStyle: Option<ParagraphStyle>)

  /** A document body; section breaks are kept as their start indices. */
  datatype DocBody = DocBody(
    dataStream: string,
    textRuns: seq<TextRun>,
    paragraphs: seq<Paragraph>,
    sectionBreaks: seq<int>)

  datatype PageSize = PageSize(width: real, height: real)

  datatype DocumentStyle = DocumentStyle(
    pageSize: Option<PageSize>,
    marginTop: Option<real>,
    marginBottom: Option<real>,
    marginLeft: Option<real>,
    marginRight: Option<real>)

  /** A complete document (`IDocumentData`). */
  datatype DocData = DocData(id: string, body: DocBody, documentStyle: DocumentStyle)

  /** A body whose lists may be missing, as found in a partial document. */
  datatype PartialBody = PartialBody(
    dataStream: string,
    textRuns: Option<seq<TextRun>>,
    paragraphs: Option<seq<Paragraph>>,
    sectionBreaks: Option<seq<int>>)

  /** A partial document (`Partial<IDocumentData>`); an empty `id` is absent. */
  datatype PartialDoc = PartialDoc(id: string, body: Option<PartialBody>, documentStyle: Option<DocumentStyle>)

  /** `s` of a cell: an id into the workbook's style table or an inline style. */
  datatype StyleRef = StyleId(id: string) | InlineStyle(style: Style)

  /** A cell (`ICellData`); `v == Undefined` when the key is absent. */
  datatype Cell = Cell(
    v: Value,
    t: Option<int>,
    f: Option<string>,
    s: Option<StyleRef>,
    p: Option<DocBody>,
    custom: Value)

  /** The cell `{ v }` with no other key. */
  function PlainCell(v: Value): Cell {
    Cell(v, None, None, None, None, Undefined)
  }

  /** Zero-based (row, column) address. */
  datatype Pos = Pos(r: int, c: int)

  datatype MergeRange = MergeRange(startRow: int, endRow: int, startColumn: int, endColumn: int)

  datatype Freeze = Freeze(startRow: int, startColumn: int, ySplit: int, xSplit: int)

  const NoFreeze: Freeze := Freeze(-1, -1, 0, 0)

  datatype RowInfo = RowInfo(h: real, hd: int, ah: real)

  datatype ColInfo = ColInfo(w: real, hd: int)

  /** Layout keys that only the styled grid builder sets. */
  datatype SheetLayout = SheetLayout(
    hidden: int,
    defaultColumnWidth: real,
    defaultRowHeight: real,
    freeze: Freeze,
    mergeData: seq<MergeRange>,
    rowData: map<int, RowInfo>,
    columnData: map<int, ColInfo>,
    sheetProtection: bool)

  /** A worksheet (`IWorksheetData`); `rowCount` is absent from the xlsx-reader path. */
  datatype Worksheet = Worksheet(
    id: string,
    name: string,
    rowCount: Option<int>,
    columnCount: int,
    cellData: map<Pos, Cell>,
    layout: Option<SheetLayout>)

  datatype Resource = Resource(name: string, data: string)

  /** A workbook (`IWorkbookData`); only the styled grid builder sets `appVersion` and `locale`. */
  datatype Workbook = Workbook(
    id: string,
    name: string,
    appVersion: Option<string>,
    locale: Option<string>,
    styles: map<string, Style>,
    sheetOrder: seq<string>,
    sheets: map<string, Worksheet>,
    resources: seq<Resource>)

  /** The outcome of a foreign read or render: its result, or the message of what it threw. */
  datatype Read<T> = Loaded(value: T) | Failed(message: string)
}
