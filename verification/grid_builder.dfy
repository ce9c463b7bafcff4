/**
 * The styled grid builder `transformExcelToUniverWorkbook`: per-sheet raw
 * payloads (a value matrix, a parallel matrix of style entries, row and
 * column properties, merge ranges, freeze panes and a hidden flag) become one
 * workbook with a shared style table.
 *
 * `nanoid()` is replaced by a counter: the k-th style registered gets the id
 * `StyleKey(k)`, and `Date.now()` is the parameter `now`.
 */
module GridBuilder {
  import opened Wrappers
  import opened JsText
  import opened JsNumber
  import opened Model
  import opened DefaultStyles
  import opened TextProcessor
  import opened StyleConverter
  import opened RowHeight

  // ------------------------------------------------------ cell classification

  const StringType: int := 1
  const NumberType: int := 2
  const BooleanType: int := 3
  const ForceStringType: int := 4

  /** A cell type together with the value stored under it. */
  datatype Classified = Classified(t: int, v: Value)

  /** `Number(s)` is finite and `s` is not blank. */
  predicate NumericText(s: string) {
    IsFiniteNumber(s) && Trim(s) != []
  }

  /** Text such as `"0012"` that must keep its leading zero: starts with `0`, is longer than one character, has no `.`. */
  predicate LeadingZeroText(s: string) {
    |s| > 1 && s[0] == '0' && '.' !in s
  }

  /** Equal to `"true"` or `"false"` up to ASCII case. */
  predicate BooleanText(s: string) {
    ToLower(s) == "true" || ToLower(s) == "false"
  }

  /**
   * `determineCellTypeAndValue`: nullish and `""` are the empty string;
   * numeric text is a number unless a leading zero must be kept; text equal
   * to true/false ignoring case is a boolean; other text stays as it is.
   */
  function Classify(v: Value): (r: Classified)
    ensures r.t == StringType ==> r.v.Str?
    ensures r.t == NumberType ==> r.v.Number?
    ensures r.t == BooleanType ==> r.v.Bool?
    ensures r.t == ForceStringType ==> r.v == v && v.Str?
    ensures StringType <= r.t <= ForceStringType
    ensures IsNullish(v) || v == Str("") ==> r == Classified(StringType, Str(""))
    ensures v.Number? ==> r == Classified(NumberType, v)
    ensures v.Bool? ==> r == Classified(BooleanType, v)
    ensures v.Other? ==> r == Classified(StringType, Str(v.shown))
    ensures v.Str? && v.s != [] ==> (r.t == ForceStringType <==> NumericText(v.s) && LeadingZeroText(v.s))
    ensures v.Str? && v.s != [] ==> (r.t == NumberType <==> NumericText(v.s) && !LeadingZeroText(v.s))
    ensures v.Str? && r.t == NumberType ==> ToNumber(v.s) == Finite(r.v.n)
    ensures v.Str? && v.s != [] ==> (r.t == BooleanType <==> !NumericText(v.s) && BooleanText(v.s))
    ensures v.Str? && r.t == BooleanType ==> (r.v.b <==> ToLower(v.s) == "true")
    ensures v.Str? && r.t == StringType ==> r.v == v
  {
    match v
    case Undefined => Classified(StringType, Str(""))
    case Null => Classified(StringType, Str(""))
    case Str(s) =>
      if s == [] then Classified(StringType, Str(""))
      else if NumericText(s) then
        if s[0] == '0' && |s| > 1 && '.' !in s then Classified(ForceStringType, v)
        else Classified(NumberType, Number(ToNumber(s).value))
      else if BooleanText(s) then Classified(BooleanType, Bool(ToLower(s) == "true"))
      else Classified(StringType, v)
    case Number(_) => Classified(NumberType, v)
    case Bool(_) => Classified(BooleanType, v)
    case Other(shown) => Classified(StringType, Str(shown))
  }

  /** Digit text is a forced string when it must keep a leading zero, and otherwise the number it spells. */
  lemma ClassifyDigits(s: string)
    requires |s| > 0 && AllDigits(s)
    ensures LeadingZeroText(s) ==> Classify(Str(s)) == Classified(ForceStringType, Str(s))
    ensures !LeadingZeroText(s) ==> Classify(Str(s)) == Classified(NumberType, Number(DigitsValue(s) as real))
  {
    DigitsToNumber(s);
  }

  /** `"0012"` keeps its text as a forced string. */
  lemma LeadingZeroKept()
    ensures Classify(Str("0012")) == Classified(ForceStringType, Str("0012"))
  {
    assert AllDigits("0012") && LeadingZeroText("0012");
    ClassifyDigits("0012");
  }

  /** A lone `"0"` is the number 0. */
  lemma LoneZeroIsNumber()
    ensures Classify(Str("0")) == Classified(NumberType, Number(0.0))
  {
    assert AllDigits("0") && !LeadingZeroText("0");
    ClassifyDigits("0");
    assert DigitsValue("0") == 0 by { assert "0"[..0] == []; }
  }

  /** `"0.5"` has a dot, so it is the number 0.5. */
  lemma DecimalIsNumber()
    ensures Classify(Str("0.5")) == Classified(NumberType, Number(0.5))
  {
    HalfNumber();
    assert NumericText("0.5");
    assert !LeadingZeroText("0.5") by { assert "0.5"[1] == '.'; }
  }

  lemma HalfNumber()
    ensures ToNumber("0.5") == Finite(0.5)
  {
    OneDecimalPlace('0', '5');
    assert ['0', '.', '5'] == "0.5";
  }

  /** A digit, a dot and a digit read as the decimal number they spell. */
  lemma OneDecimalPlace(a: char, b: char)
    requires IsDigit(a) && IsDigit(b)
    ensures ToNumber([a, '.', b]) == Finite(DigitValue(a) as real + DigitValue(b) as real / 10.0)
  {
    OneDecimalPlain(a, b);
    OneDecimalLiteral(a, b);
    PlainDecimalText([a, '.', b]);
  }

  /** `a.b` is trimmed and is not `Infinity`. */
  lemma OneDecimalPlain(a: char, b: char)
    requires IsDigit(a) && IsDigit(b)
    ensures Trim([a, '.', b]) == [a, '.', b] && [a, '.', b] != "Infinity"
  {
    TrimOfTrimmed([a, '.', b]);
  }

  /** The unsigned decimal literal `a.b`. */
  lemma OneDecimalLiteral(a: char, b: char)
    requires IsDigit(a) && IsDigit(b)
    ensures UnsignedDecimal([a, '.', b]) == Some(DigitValue(a) as real + DigitValue(b) as real / 10.0)
  {
    var s := [a, '.', b];
    assert DigitPrefix(s) == 1 by {
      assert !IsDigit(s[1]);
      assert DigitPrefix(s[1..]) == 0;
    }
    assert s[2..] == [b];
    assert DigitPrefix([b]) == 1 by { assert DigitPrefix([b][1..]) == 0; }
    assert s[2..][..1] == [b];
    assert s[..1] == [a];
    assert s[3..] == [];
    assert Exponent([]) == Some(0);
    assert DigitsValue([a]) == DigitValue(a) by { assert [a][..0] == []; }
    assert DigitsValue([b]) == DigitValue(b) by { assert [b][..0] == []; }
  }

  /** `"TRUE"` is the boolean true. */
  lemma UpperTrueIsBoolean()
    ensures Classify(Str("TRUE")) == Classified(BooleanType, Bool(true))
  {
    assert ToLower("TRUE") == "true";
    NonNumericText("TRUE");
    ClassifyBooleanText("TRUE");
  }

  /** Non-numeric text spelling true or false in any case is a boolean. */
  lemma ClassifyBooleanText(s: string)
    requires s != [] && ToNumber(s) == NaN && BooleanText(s)
    ensures Classify(Str(s)) == Classified(BooleanType, Bool(ToLower(s) == "true"))
  {
  }

  /** Blank text is not a number (although `Number("  ")` is 0): it stays text. */
  lemma BlankStaysText()
    ensures Classify(Str("  ")) == Classified(StringType, Str("  "))
  {
    assert Trim("  ") == [] by { assert AllSpace("  "); }
    assert ToLower("  ") == "  ";
  }

  // ------------------------------------------------------ formulas

  /** `f` of a cell: a formula already starting with `=` is kept, any other gets one prepended. */
  function NormalizeFormula(f: string): (r: string)
    ensures StartsWith(r, "=")
    ensures |f| <= |r| <= |f| + 1 && r[|r| - |f|..] == f
    ensures StartsWith(f, "=") ==> r == f
  {
    if StartsWith(f, "=") then f else "=" + f
  }

  /** Normalising twice is normalising once. */
  lemma NormalizeFormulaIdempotent(f: string)
    ensures NormalizeFormula(NormalizeFormula(f)) == NormalizeFormula(f)
  {
  }

  // ------------------------------------------------------ tag stripping

  /** No `<` of `s` has a `>` somewhere after it. */
  predicate NoTag(s: string) {
    forall i, j | 0 <= i < j < |s| :: s[i] == '<' ==> s[j] != '>'
  }

  /**
   * `s.replace(/<[^>]*>/g, "")`: each `<` with a later `>` is removed through
   * the first such `>`; a `<` with no `>` after it is kept.
   */
  function StripTags(s: string): (r: string)
    ensures |r| <= |s|
    ensures forall i | 0 <= i < |r| :: r[i] in s
    ensures NoTag(r)
    ensures NoTag(s) ==> r == s
    decreases |s|
  {
    if s == [] then []
    else if s[0] == '<' && '>' in s[1..] then
      var k := IndexOfChar(s[1..], '>');
      var rest := StripTags(s[1..][k + 1..]);
      assert !NoTag(s) by { assert s[k + 1] == '>'; }
      assert s[1..][k + 1..] == s[k + 2..];
      CharsOfSuffix(rest, s, k + 2);
      rest
    else
      var tail := StripTags(s[1..]);
      CharsOfSuffix(tail, s, 1);
      KeptFirstNoTag(s, tail);
      KeptWhole(s, tail);
      [s[0]] + tail
  }

  /** Characters drawn from a suffix of `s` are characters of `s`. */
  lemma CharsOfSuffix(t: string, s: string, m: nat)
    requires m <= |s| && forall i | 0 <= i < |t| :: t[i] in s[m..]
    ensures forall i | 0 <= i < |t| :: t[i] in s
  {
    forall i | 0 <= i < |t| ensures t[i] in s {
      var j :| 0 <= j < |s[m..]| && s[m..][j] == t[i];
      assert s[m + j] == t[i];
    }
  }

  /** Keeping the first character in front of a tag-free tail stays tag-free unless that character opens a tag. */
  lemma KeptFirstNoTag(s: string, tail: string)
    requires |s| > 0 && !(s[0] == '<' && '>' in s[1..])
    requires NoTag(tail) && forall i | 0 <= i < |tail| :: tail[i] in s[1..]
    ensures NoTag([s[0]] + tail)
  {
    var r := [s[0]] + tail;
    forall i, j | 0 <= i < j < |r| && r[i] == '<' ensures r[j] != '>' {
      if i == 0 {
        assert tail[j - 1] in s[1..];
      } else {
        assert tail[i - 1] == '<' && tail[j - 1] == r[j];
      }
    }
  }

  /** When a tag-free text's tail is kept whole, keeping its first character gives the text back. */
  lemma KeptWhole(s: string, tail: string)
    requires |s| > 0 && (NoTag(s[1..]) ==> tail == s[1..])
    ensures NoTag(s) ==> [s[0]] + tail == s
  {
    if NoTag(s) {
      NoTagOfTail(s);
      assert s == [s[0]] + s[1..];
    }
  }

  /** A tag-free text stays tag-free without its first character. */
  lemma NoTagOfTail(s: string)
    requires |s| > 0 && NoTag(s)
    ensures NoTag(s[1..])
  {
    forall i, j | 0 <= i < j < |s[1..]| && s[1..][i] == '<' ensures s[1..][j] != '>' {
      assert s[i + 1] == '<';
    }
  }

  /** Stripping twice is stripping once. */
  lemma StripTagsIdempotent(s: string)
    ensures StripTags(StripTags(s)) == StripTags(s)
  {
  }

  // ------------------------------------------------------ cell content

  /**
   * One entry of the style matrix: no entry (`undefined`, also for a missing
   * matrix or row), an explicit `null`, or a style object with the reader's
   * `_formattedText` and `_formula` side fields ("" when absent).
   */
  datatype StyleCell = NoStyle | NullStyle | Styled(style: ExcelStyle, formattedText: string, formula: string)

  /** The entry at (i, j) of a style matrix; outside the matrix there is none. */
  function StyleAt(styles: seq<seq<StyleCell>>, i: int, j: int): StyleCell {
    if 0 <= i < |styles| && 0 <= j < |styles[i]| then styles[i][j] else NoStyle
  }

  /** The value that is classified and the rich-text body stored as `p`. */
  datatype Content = Content(value: Value, body: Option<DocBody>)

  /** The body built for HTML runs: the text plus `"\r\n"`, one paragraph at 0, a section break at the end. */
  function HtmlBody(text: string, runs: seq<HtmlRun>): (b: DocBody)
    requires RunsWithin(runs, 0, |text|)
    ensures |b.dataStream| == |text| + 2 && b.dataStream[..|text|] == text && EndsWith(b.dataStream, "\r\n")
    ensures |b.textRuns| == |runs|
    ensures forall k | 0 <= k < |runs| ::
      && 0 <= b.textRuns[k].st < b.textRuns[k].ed <= |text|
      && b.textRuns[k].ts == runs[k].style && b.dataStream[b.textRuns[k].st..b.textRuns[k].ed] == text[runs[k].startIndex..runs[k].endIndex]
    ensures b.sectionBreaks == [|b.dataStream|]
  {
    var ds := text + "\r\n";
    assert ds[..|text|] == text;
    DocBody(ds, seq(|runs|, k requires 0 <= k < |runs| => TextRun(runs[k].startIndex, runs[k].endIndex, runs[k].style)),
            [Paragraph(0, None)], [|ds|])
  }

  /**
   * The value and body of a cell: `_richText` wins when it converts, then
   * `_htmlContent` (its text, or the markup with tags stripped when it gives
   * no text), then `_formattedText`, else the raw value.
   */
  function CellContent(raw: Value, sc: StyleCell, p: Parsers): (r: Content)
    ensures !sc.Styled? ==> r == Content(raw, None)
    ensures r.value != raw ==> r.value.Str? && sc.Styled?
    ensures r.body.Some? ==> r.value.Str? && StartsWith(r.body.value.dataStream, r.value.s)
    ensures r.body.Some? ==> EndsWith(r.body.value.dataStream, "\r\n") && r.body.value.sectionBreaks == [|r.body.value.dataStream|]
    ensures sc.Styled? && sc.style.richText == [] && sc.style.htmlContent == [] ==>
      r == Content(if sc.formattedText != [] then Str(sc.formattedText) else raw, None)
    ensures sc.Styled? && sc.style.richText != [] && ProcessExcelRichText(sc.style.richText, p.xml).Some? ==>
      r.body == ProcessExcelRichText(sc.style.richText, p.xml)
  {
    if !sc.Styled? then Content(raw, None)
    else
      var es := sc.style;
      var xml := if es.richText != [] then ProcessExcelRichText(es.richText, p.xml) else None;
      if es.richText != [] then
        match xml
        case Some(body) =>
          assert StartsWith(body.dataStream, body.dataStream);
          Content(Str(body.dataStream), Some(body))
        case None => Content(raw, None)
      else if es.htmlContent != [] then
        match ConvertHtmlToRichText(es.htmlContent, p.html)
        case Some(rt) =>
          if rt.text != [] then
            if rt.runs != [] then
              var b := HtmlBody(rt.text, rt.runs);
              Content(Str(rt.text), Some(b))
            else Content(Str(rt.text), None)
          else
            var plain := StripTags(es.htmlContent);
            Content(if plain != [] then Str(plain) else raw, None)
        case None =>
          var plain := StripTags(es.htmlContent);
          Content(if plain != [] then Str(plain) else raw, None)
      else if sc.formattedText != [] then Content(Str(sc.formattedText), None)
      else Content(raw, None)
  }

  /** `f` of a cell: the normalised `_formula` of a style object that has one. */
  function FormulaOf(sc: StyleCell): (r: Option<string>)
    ensures r.Some? <==> sc.Styled? && sc.formula != []
    ensures r.Some? ==> r.value == NormalizeFormula(sc.formula)
  {
    if sc.Styled? && sc.formula != [] then Some(NormalizeFormula(sc.formula)) else None
  }

  // ------------------------------------------------------ style ids

  /** The id of the k-th style registered. */
  function StyleKey(k: nat): string {
    "style_" + NatToString(k)
  }

  /** Style ids never collide with each other or with the default id. */
  lemma StyleKeysFresh(a: nat, b: nat)
    ensures StyleKey(a) != DefaultStyleId()
    ensures StyleKey(a) == StyleKey(b) ==> a == b
  {
    assert StyleKey(a)[0] == 's';
    if StyleKey(a) == StyleKey(b) {
      assert StyleKey(a)[6..] == NatToString(a);
      assert StyleKey(b)[6..] == NatToString(b);
      NatToStringInjective(a, b);
    }
  }

  /** The style record a readonly cell without a style entry gets before merging. */
  const ReadonlyProtection: Style := EmptyStyle.(protection := Some(Protection(true, false)))

  /**
   * The style a cell's `s` must resolve to, or None when the cell gets no
   * `s`: an explicit `null` entry gives none; a style object its conversion
   * merged over the default (the default itself when nothing converts); no
   * entry the default, or in readonly mode the locked default.
   */
  function ResolvedStyle(sc: StyleCell, readonly: bool, p: Parsers): (r: Option<Style>)
    ensures r.None? <==> sc.NullStyle?
    ensures readonly && r.Some? ==> r.value.protection == Some(Protection(true, false))
  {
    match sc
    case NullStyle => None
    case Styled(es, _, _) => Some(MergeWithDefault(ConvertExcelStyle(Some(es), readonly, p)))
    case NoStyle => Some(if readonly then MergeWithDefault(Some(ReadonlyProtection)) else DefaultCellStyle())
  }

  /** `s` is absent exactly when `want` is, and otherwise an id whose table entry is `want`. */
  predicate Resolves(s: Option<StyleRef>, want: Option<Style>, styles: map<string, Style>) {
    match s
    case None => want.None?
    case Some(ref) => ref.StyleId? && ref.id in styles && want == Some(styles[ref.id])
  }

  /** The style table holds the default style and no id from the counter `next` on. */
  ghost predicate TableOk(styles: map<string, Style>, next: nat) {
    && DefaultStyleId() in styles && styles[DefaultStyleId()] == DefaultCellStyle()
    && forall n: nat | n >= next :: StyleKey(n) !in styles
  }

  /** Every entry of `small` is in `big` unchanged. */
  predicate Grows(small: map<string, Style>, big: map<string, Style>) {
    forall id | id in small :: id in big && big[id] == small[id]
  }

  /**
   * The id assignment for one cell: the default id, a fresh id registered
   * with its style, or nothing.
   */
  function AssignStyle(sc: StyleCell, readonly: bool, p: Parsers, styles: map<string, Style>, next: nat): (r: (Option<StyleRef>, map<string, Style>, nat))
    requires TableOk(styles, next)
    ensures TableOk(r.1, r.2) && r.2 >= next && Grows(styles, r.1)
    ensures Resolves(r.0, ResolvedStyle(sc, readonly, p), r.1)
    ensures r.0 == Some(StyleId(DefaultStyleId())) || r.0.None? || r.0 == Some(StyleId(StyleKey(next)))
  {
    var key := StyleKey(next);
    match sc
    case NullStyle => (None, styles, next)
    case Styled(es, _, _) =>
      (match ConvertExcelStyle(Some(es), readonly, p)
       case Some(u) =>
         var st := MergeWithDefault(Some(u));
         Registered(styles, next, st);
         (Some(StyleId(key)), styles[key := st], next + 1)
       case None => (Some(StyleId(DefaultStyleId())), styles, next))
    case NoStyle =>
      if readonly then
        var st := MergeWithDefault(Some(ReadonlyProtection));
        Registered(styles, next, st);
        (Some(StyleId(key)), styles[key := st], next + 1)
      else (Some(StyleId(DefaultStyleId())), styles, next)
  }

  /** Registering a style under the counter's key keeps the table sound with the counter moved on, and loses no entry. */
  lemma Registered(styles: map<string, Style>, next: nat, st: Style)
    requires TableOk(styles, next)
    ensures TableOk(styles[StyleKey(next) := st], next + 1)
    ensures Grows(styles, styles[StyleKey(next) := st])
  {
    var key := StyleKey(next);
    StyleKeysFresh(next, next);
    forall n: nat | n >= next + 1 ensures StyleKey(n) != key { StyleKeysFresh(n, next); }
  }

  /** What the cell pass stores at a cell, given the final style table. */
  predicate CellOk(cell: Cell, raw: Value, sc: StyleCell, readonly: bool, p: Parsers, styles: map<string, Style>) {
    var content := CellContent(raw, sc, p);
    var c := Classify(content.value);
    && cell.v == c.v && cell.t == Some(c.t)
    && cell.f == FormulaOf(sc) && cell.p == content.body && cell.custom == Undefined
    && Resolves(cell.s, ResolvedStyle(sc, readonly, p), styles)
  }

  /** A growing table keeps every resolution. */
  lemma ResolvesGrows(s: Option<StyleRef>, want: Option<Style>, small: map<string, Style>, big: map<string, Style>)
    requires Resolves(s, want, small) && Grows(small, big)
    ensures Resolves(s, want, big)
  {
  }

  /** The cell the pass builds for one raw value, with the updated table. */
  function BuildCell(raw: Value, sc: StyleCell, readonly: bool, p: Parsers, styles: map<string, Style>, next: nat): (r: (Cell, map<string, Style>, nat))
    requires TableOk(styles, next)
    ensures TableOk(r.1, r.2) && r.2 >= next && Grows(styles, r.1)
    ensures CellOk(r.0, raw, sc, readonly, p, r.1)
  {
    var content := CellContent(raw, sc, p);
    var c := Classify(content.value);
    var a := AssignStyle(sc, readonly, p, styles, next);
    (Cell(c.v, Some(c.t), FormulaOf(sc), a.0, content.body, Undefined), a.1, a.2)
  }

  // ------------------------------------------------------ the cell pass

  /** The cell map, style table and id counter threaded through the cell pass. */
  datatype Pass = Pass(cells: map<Pos, Cell>, styles: map<string, Style>, next: nat)

  /** (q.r, q.c) addresses a value of the matrix. */
  predicate InGrid(q: Pos, data: seq<seq<Value>>) {
    0 <= q.r < |data| && 0 <= q.c < |data[q.r]|
  }

  /** Cells `row[j..]` of row `i`, in column order. */
  function RowPass(row: seq<Value>, i: int, matrix: seq<seq<StyleCell>>, readonly: bool, p: Parsers, j: nat, acc: Pass): (r: Pass)
    requires j <= |row| && TableOk(acc.styles, acc.next)
    ensures TableOk(r.styles, r.next) && r.next >= acc.next && Grows(acc.styles, r.styles)
    ensures forall q: Pos :: q in r.cells <==> q in acc.cells || (q.r == i && j <= q.c < |row|)
    ensures forall q: Pos | q in acc.cells && !(q.r == i && j <= q.c < |row|) :: r.cells[q] == acc.cells[q]
    ensures forall k | j <= k < |row| :: CellOk(r.cells[Pos(i, k)], row[k], StyleAt(matrix, i, k), readonly, p, r.styles)
    decreases |row| - j
  {
    if j == |row| then acc
    else
      var b := BuildCell(row[j], StyleAt(matrix, i, j), readonly, p, acc.styles, acc.next);
      var r := RowPass(row, i, matrix, readonly, p, j + 1, Pass(acc.cells[Pos(i, j) := b.0], b.1, b.2));
      RowPassStep(row, i, matrix, readonly, p, j, acc.cells, b.0, b.1, r);
      r
  }

  /** A resolution that holds in a table holds in every table grown from it. */
  lemma CellOkGrows(cell: Cell, raw: Value, sc: StyleCell, readonly: bool, p: Parsers, small: map<string, Style>, big: map<string, Style>)
    requires CellOk(cell, raw, sc, readonly, p, small) && Grows(small, big)
    ensures CellOk(cell, raw, sc, readonly, p, big)
  {
    ResolvesGrows(cell.s, ResolvedStyle(sc, readonly, p), small, big);
  }

  /** The cell built at column `j`, followed by the pass over the rest of the row, covers the row from `j`. */
  lemma RowPassStep(row: seq<Value>, i: int, matrix: seq<seq<StyleCell>>, readonly: bool, p: Parsers, j: nat,
                    cells: map<Pos, Cell>, cell: Cell, styles: map<string, Style>, r: Pass)
    requires j < |row| && Grows(styles, r.styles)
    requires CellOk(cell, row[j], StyleAt(matrix, i, j), readonly, p, styles)
    requires forall q: Pos :: q in r.cells <==> q in cells[Pos(i, j) := cell] || (q.r == i && j + 1 <= q.c < |row|)
    requires forall q: Pos | q in cells[Pos(i, j) := cell] && !(q.r == i && j + 1 <= q.c < |row|) ::
               r.cells[q] == cells[Pos(i, j) := cell][q]
    requires forall k | j + 1 <= k < |row| :: CellOk(r.cells[Pos(i, k)], row[k], StyleAt(matrix, i, k), readonly, p, r.styles)
    ensures forall q: Pos :: q in r.cells <==> q in cells || (q.r == i && j <= q.c < |row|)
    ensures forall q: Pos | q in cells && !(q.r == i && j <= q.c < |row|) :: r.cells[q] == cells[q]
    ensures forall k | j <= k < |row| :: CellOk(r.cells[Pos(i, k)], row[k], StyleAt(matrix, i, k), readonly, p, r.styles)
  {
    RowPassKeys(i, j, |row|, cells, cell, r.cells);
    CellOkGrows(cell, row[j], StyleAt(matrix, i, j), readonly, p, styles, r.styles);
    assert r.cells[Pos(i, j)] == cell;
  }

  /** The keys and untouched entries after writing column `j` and then the columns after it. */
  lemma RowPassKeys(i: int, j: nat, n: nat, cells: map<Pos, Cell>, cell: Cell, r: map<Pos, Cell>)
    requires j < n
    requires forall q: Pos :: q in r <==> q in cells[Pos(i, j) := cell] || (q.r == i && j + 1 <= q.c < n)
    requires forall q: Pos | q in cells[Pos(i, j) := cell] && !(q.r == i && j + 1 <= q.c < n) :: r[q] == cells[Pos(i, j) := cell][q]
    ensures forall q: Pos :: q in r <==> q in cells || (q.r == i && j <= q.c < n)
    ensures forall q: Pos | q in cells && !(q.r == i && j <= q.c < n) :: r[q] == cells[q]
    ensures Pos(i, j) in r && r[Pos(i, j)] == cell
  {
  }

  /** Rows `data[i..]`, in row order. */
  function GridPass(data: seq<seq<Value>>, matrix: seq<seq<StyleCell>>, readonly: bool, p: Parsers, i: nat, acc: Pass): (r: Pass)
    requires i <= |data| && TableOk(acc.styles, acc.next)
    ensures TableOk(r.styles, r.next) && r.next >= acc.next && Grows(acc.styles, r.styles)
    ensures forall q: Pos :: q in r.cells <==> q in acc.cells || (i <= q.r && InGrid(q, data))
    ensures forall q: Pos | q in acc.cells && !(i <= q.r && InGrid(q, data)) :: r.cells[q] == acc.cells[q]
    ensures forall q: Pos | i <= q.r && InGrid(q, data) :: CellOk(r.cells[q], data[q.r][q.c], StyleAt(matrix, q.r, q.c), readonly, p, r.styles)
    decreases |data| - i
  {
    if i == |data| then acc
    else
      var a := RowPass(data[i], i, matrix, readonly, p, 0, acc);
      var r := GridPass(data, matrix, readonly, p, i + 1, a);
      GridPassStep(data, matrix, readonly, p, i, acc.cells, a, r);
      r
  }

  /** The pass over row `i`, followed by the pass over the later rows, covers the grid from row `i`. */
  lemma GridPassStep(data: seq<seq<Value>>, matrix: seq<seq<StyleCell>>, readonly: bool, p: Parsers, i: nat,
                     cells: map<Pos, Cell>, a: Pass, r: Pass)
    requires i < |data| && Grows(a.styles, r.styles)
    requires forall q: Pos :: q in a.cells <==> q in cells || (q.r == i && 0 <= q.c < |data[i]|)
    requires forall q: Pos | q in cells && !(q.r == i && 0 <= q.c < |data[i]|) :: a.cells[q] == cells[q]
    requires forall k | 0 <= k < |data[i]| :: CellOk(a.cells[Pos(i, k)], data[i][k], StyleAt(matrix, i, k), readonly, p, a.styles)
    requires forall q: Pos :: q in r.cells <==> q in a.cells || (i + 1 <= q.r && InGrid(q, data))
    requires forall q: Pos | q in a.cells && !(i + 1 <= q.r && InGrid(q, data)) :: r.cells[q] == a.cells[q]
    requires forall q: Pos | i + 1 <= q.r && InGrid(q, data) ::
               CellOk(r.cells[q], data[q.r][q.c], StyleAt(matrix, q.r, q.c), readonly, p, r.styles)
    ensures forall q: Pos :: q in r.cells <==> q in cells || (i <= q.r && InGrid(q, data))
    ensures forall q: Pos | q in cells && !(i <= q.r && InGrid(q, data)) :: r.cells[q] == cells[q]
    ensures forall q: Pos | i <= q.r && InGrid(q, data) ::
              CellOk(r.cells[q], data[q.r][q.c], StyleAt(matrix, q.r, q.c), readonly, p, r.styles)
  {
    forall q: Pos | q.r == i && InGrid(q, data)
      ensures CellOk(r.cells[q], data[q.r][q.c], StyleAt(matrix, q.r, q.c), readonly, p, r.styles)
    {
      assert q == Pos(i, q.c);
      CellOkGrows(a.cells[q], data[q.r][q.c], StyleAt(matrix, q.r, q.c), readonly, p, a.styles, r.styles);
    }
  }

  // ------------------------------------------------------ merged cells

  /** A merge range as the reader gives it: top-left `s` and bottom-right `e`, inclusive. */
  datatype Range = Range(s: Pos, e: Pos)

  /** `q` lies in the range and is not its top-left anchor. */
  predicate NonAnchor(rg: Range, q: Pos) {
    rg.s.r <= q.r <= rg.e.r && rg.s.c <= q.c <= rg.e.c && q != rg.s
  }

  /** `q` is a non-anchor cell of some range. */
  predicate Covered(ranges: seq<Range>, q: Pos) {
    exists k | 0 <= k < |ranges| :: NonAnchor(ranges[k], q)
  }

  /** The non-anchor positions of a range. */
  function NonAnchors(rg: Range): (r: set<Pos>)
    ensures forall q :: q in r <==> NonAnchor(rg, q)
  {
    set row: int, col: int | rg.s.r <= row <= rg.e.r && rg.s.c <= col <= rg.e.c && Pos(row, col) != rg.s :: Pos(row, col)
  }

  /**
   * A non-anchor cell after cleanup: value `""`, no rich text or formula; an
   * existing cell keeps its `s`, a truthy `t` and a truthy `custom`; a
   * missing one is created as `{ v: "" }`.
   */
  function Cleared(c: Option<Cell>): (r: Cell)
    ensures r.v == Str("") && r.p.None? && r.f.None?
    ensures c.None? ==> r == PlainCell(Str(""))
    ensures c.Some? ==> r.s == c.value.s
    ensures c.Some? && c.value.t.Some? && c.value.t.value != 0 ==> r.t == c.value.t
    ensures c.Some? && Truthy(c.value.custom) ==> r.custom == c.value.custom
    ensures !Truthy(r.custom) ==> r.custom == Undefined
  {
    match c
    case None => PlainCell(Str(""))
    case Some(cell) =>
      Cell(Str(""), if cell.t.Some? && cell.t.value != 0 then cell.t else None, None, cell.s, None,
           if Truthy(cell.custom) then cell.custom else Undefined)
  }

  /** Clearing a cleared cell changes nothing, so overlapping ranges clear a cell once. */
  lemma ClearedIdempotent(c: Option<Cell>)
    ensures Cleared(Some(Cleared(c))) == Cleared(c)
  {
  }

  function Lookup(cells: map<Pos, Cell>, q: Pos): Option<Cell> {
    if q in cells then Some(cells[q]) else None
  }

  /** One range of `cleanMergedCellData`. */
  function CleanRange(cells: map<Pos, Cell>, rg: Range): (r: map<Pos, Cell>)
    ensures forall q: Pos :: q in r <==> q in cells || NonAnchor(rg, q)
    ensures forall q: Pos | NonAnchor(rg, q) :: r[q] == Cleared(Lookup(cells, q))
    ensures forall q: Pos | q in cells && !NonAnchor(rg, q) :: r[q] == cells[q]
  {
    var na := NonAnchors(rg);
    map q | q in cells.Keys + na :: if q in na then Cleared(Lookup(cells, q)) else cells[q]
  }

  /**
   * `cleanMergedCellData`, range by range in order. The result does not
   * depend on the order: every non-anchor cell of some range is cleared
   * once, every other cell is untouched and no other cell appears.
   */
  function CleanMerged(cells: map<Pos, Cell>, ranges: seq<Range>): (r: map<Pos, Cell>)
    ensures forall q: Pos :: q in r <==> q in cells || Covered(ranges, q)
    ensures forall q: Pos | Covered(ranges, q) :: r[q] == Cleared(Lookup(cells, q))
    ensures forall q: Pos | q in cells && !Covered(ranges, q) :: r[q] == cells[q]
    decreases |ranges|
  {
    if ranges == [] then cells
    else
      var first := CleanRange(cells, ranges[0]);
      var r := CleanMerged(first, ranges[1..]);
      CleanMergedStep(cells, ranges, first, r);
      r
  }

  /** A cell is covered by a list of ranges when it is covered by the first or by the rest. */
  lemma CoveredCons(ranges: seq<Range>)
    requires ranges != []
    ensures forall q: Pos :: Covered(ranges, q) <==> NonAnchor(ranges[0], q) || Covered(ranges[1..], q)
  {
    forall q: Pos ensures Covered(ranges, q) <==> NonAnchor(ranges[0], q) || Covered(ranges[1..], q) {
      if Covered(ranges[1..], q) {
        var k :| 0 <= k < |ranges[1..]| && NonAnchor(ranges[1..][k], q);
        assert NonAnchor(ranges[k + 1], q);
      }
      if Covered(ranges, q) && !NonAnchor(ranges[0], q) {
        var k :| 0 <= k < |ranges| && NonAnchor(ranges[k], q);
        assert NonAnchor(ranges[1..][k - 1], q);
      }
    }
  }

  /** Cleaning the first range and then the rest cleans every covered cell exactly as cleaning all of them once. */
  lemma CleanMergedStep(cells: map<Pos, Cell>, ranges: seq<Range>, first: map<Pos, Cell>, r: map<Pos, Cell>)
    requires ranges != []
    requires forall q: Pos :: q in first <==> q in cells || NonAnchor(ranges[0], q)
    requires forall q: Pos | NonAnchor(ranges[0], q) :: first[q] == Cleared(Lookup(cells, q))
    requires forall q: Pos | q in cells && !NonAnchor(ranges[0], q) :: first[q] == cells[q]
    requires forall q: Pos :: q in r <==> q in first || Covered(ranges[1..], q)
    requires forall q: Pos | Covered(ranges[1..], q) :: r[q] == Cleared(Lookup(first, q))
    requires forall q: Pos | q in first && !Covered(ranges[1..], q) :: r[q] == first[q]
    ensures forall q: Pos :: q in r <==> q in cells || Covered(ranges, q)
    ensures forall q: Pos | Covered(ranges, q) :: r[q] == Cleared(Lookup(cells, q))
    ensures forall q: Pos | q in cells && !Covered(ranges, q) :: r[q] == cells[q]
  {
    CoveredCons(ranges);
    forall q: Pos | Covered(ranges, q) ensures r[q] == Cleared(Lookup(cells, q)) {
      if NonAnchor(ranges[0], q) && Covered(ranges[1..], q) {
        ClearedIdempotent(Lookup(cells, q));
      }
    }
  }

  /** The `mergeData` entry of a range. */
  function MergeEntry(rg: Range): (m: MergeRange)
    ensures m.startRow == rg.s.r && m.endRow == rg.e.r && m.startColumn == rg.s.c && m.endColumn == rg.e.c
  {
    MergeRange(rg.s.r, rg.e.r, rg.s.c, rg.e.c)
  }

  // ------------------------------------------------------ column widths

  /** A column's properties; numbers are 0 when absent. */
  datatype ColProps = ColProps(width: real, wpx: real, wch: real, excelWidth: real, hidden: bool)

  const DefaultWidth: real := 73.0
  const MinColumnWidth: real := 20.0

  /** Some width field is set. */
  predicate HasWidth(p: ColProps) {
    p.width != 0.0 || p.wpx != 0.0 || p.wch != 0.0 || p.excelWidth != 0.0
  }

  /** Pixel width by precedence: `wpx`, then `wch` at 7.5 px, then `excelWidth` at 7 px, then `width`, else 73. */
  function WidthOf(p: ColProps): (w: real)
    ensures p.wpx != 0.0 ==> w == p.wpx
    ensures p.wpx == 0.0 && p.wch != 0.0 ==> w == Round(p.wch * 7.5) as real
    ensures p.wpx == 0.0 && p.wch == 0.0 && p.excelWidth != 0.0 ==> w == Round(p.excelWidth * 7.0) as real
    ensures p.wpx == 0.0 && p.wch == 0.0 && p.excelWidth == 0.0 && p.width != 0.0 ==> w == p.width
    ensures !HasWidth(p) ==> w == DefaultWidth
  {
    if p.wpx != 0.0 then p.wpx
    else if p.wch != 0.0 then Round(p.wch * 7.5) as real
    else if p.excelWidth != 0.0 then Round(p.excelWidth * 7.0) as real
    else if p.width != 0.0 then p.width
    else DefaultWidth
  }

  /**
   * The widths handed to the row-height estimate, one slot per column
   * property. `forEach` skips a missing entry, so its slot stays unset
   * (written 0, which the estimate treats like an unset slot).
   */
  function ColumnWidths(props: seq<Option<ColProps>>): (r: seq<real>)
    ensures |r| == |props|
    ensures forall k | 0 <= k < |props| && props[k].Some? :: r[k] == WidthOf(props[k].value)
    ensures forall k | 0 <= k < |props| && props[k].None? :: r[k] == 0.0
  {
    seq(|props|, k requires 0 <= k < |props| => if props[k].Some? then WidthOf(props[k].value) else 0.0)
  }

  /**
   * The width the row-height estimate uses for column `k`: the property's
   * pixel width when there is a property with a non-zero width, else the
   * estimate's own default of 150 (not the 73 of a present property).
   */
  lemma EstimateWidths(props: seq<Option<ColProps>>, k: int)
    ensures var w := RowHeight.ColumnWidth(ColumnWidths(props), k);
      (0 <= k < |props| && props[k].Some? && WidthOf(props[k].value) != 0.0 ==> w == WidthOf(props[k].value))
      && (!(0 <= k < |props| && props[k].Some?) ==> w == 150.0)
      && (0 <= k < |props| && props[k].Some? && !HasWidth(props[k].value) ==> w == DefaultWidth)
  {
  }

  /** A column gets a `columnData` entry when it has a width field or is hidden. */
  predicate EmitsColumn(p: Option<ColProps>) {
    p.Some? && (HasWidth(p.value) || p.value.hidden)
  }

  /** `columnData`: width at least 20, `hd` 1 exactly for hidden columns. */
  function ColumnData(props: seq<Option<ColProps>>): (r: map<int, ColInfo>)
    ensures forall k :: k in r <==> 0 <= k < |props| && EmitsColumn(props[k])
    ensures forall k | 0 <= k < |props| && EmitsColumn(props[k]) :: r[k].w >= MinColumnWidth && (r[k].hd == 1 <==> props[k].value.hidden) && (r[k].hd == 0 <==> !props[k].value.hidden)
    ensures forall k | 0 <= k < |props| && EmitsColumn(props[k]) :: r[k].w == MaxReal(WidthOf(props[k].value), MinColumnWidth)
  {
    map k | 0 <= k < |props| && EmitsColumn(props[k]) ::
      ColInfo(MaxReal(WidthOf(props[k].value), MinColumnWidth), if props[k].value.hidden then 1 else 0)
  }

  // ------------------------------------------------------ default sizes

  /** A row property with a height field. */
  predicate HasHeight(p: Option<RowProps>) {
    p.Some? && (p.value.height != 0.0 || p.value.hpt != 0.0 || p.value.hpx != 0.0)
  }

  /** Index of the first row property from `from` on that has a height field, or `|props|`. */
  function FirstWithHeight(props: seq<Option<RowProps>>, from: nat): (k: nat)
    requires from <= |props|
    ensures from <= k <= |props|
    ensures k < |props| ==> HasHeight(props[k])
    ensures forall j | from <= j < k :: !HasHeight(props[j])
    decreases |props| - from
  {
    if from == |props| || HasHeight(props[from]) then from else FirstWithHeight(props, from + 1)
  }

  /** Index of the first column property from `from` on that has a width field, or `|props|`. */
  function FirstWithWidth(props: seq<Option<ColProps>>, from: nat): (k: nat)
    requires from <= |props|
    ensures from <= k <= |props|
    ensures k < |props| ==> props[k].Some? && HasWidth(props[k].value)
    ensures forall j | from <= j < k :: !(props[j].Some? && HasWidth(props[j].value))
    decreases |props| - from
  {
    if from == |props| || (props[from].Some? && HasWidth(props[from].value)) then from else FirstWithWidth(props, from + 1)
  }

  /** The floor `Math.max(20, …)` puts under an explicit default row height. */
  const MinDefaultRowHeight: real := 20.0

  /**
   * `defaultRowHeight`: the first row property with a height gives its
   * explicit height (at least 20), else 23; any CJK string cell raises it to
   * at least 25.
   */
  function DefaultRowHeight(props: seq<Option<RowProps>>, data: seq<seq<Value>>): (h: real)
    ensures h >= MinDefaultRowHeight
    ensures HasChineseContent(data) ==> h >= 25.0
    ensures var k := FirstWithHeight(props, 0);
      k < |props| ==> h == (if HasChineseContent(data) then MaxReal(MaxReal(20.0, ExplicitHeight(props[k].value)), 25.0)
                            else MaxReal(20.0, ExplicitHeight(props[k].value)))
    ensures (forall j | 0 <= j < |props| :: !HasHeight(props[j])) ==> h == (if HasChineseContent(data) then 25.0 else 23.0)
  {
    var k := FirstWithHeight(props, 0);
    var h := if k < |props| then MaxReal(MinDefaultRowHeight, ExplicitHeight(props[k].value)) else 23.0;
    if HasChineseContent(data) then MaxReal(h, 25.0) else h
  }

  /** `defaultColumnWidth`: the width of the first column property with a width field, else 73 (no lower bound). */
  function DefaultColumnWidth(props: seq<Option<ColProps>>): (w: real)
    ensures var k := FirstWithWidth(props, 0); k < |props| ==> w == WidthOf(props[k].value)
    ensures (forall j | 0 <= j < |props| :: !(props[j].Some? && HasWidth(props[j].value))) ==> w == DefaultWidth
  {
    var k := FirstWithWidth(props, 0);
    if k < |props| then WidthOf(props[k].value) else DefaultWidth
  }

  /** The longest row of the matrix (0 for none). */
  function LongestRow(data: seq<seq<Value>>): (n: nat)
    ensures forall i | 0 <= i < |data| :: |data[i]| <= n
    ensures n == 0 || exists i | 0 <= i < |data| :: |data[i]| == n
  {
    if data == [] then 0
    else
      var rest := LongestRow(data[1..]);
      assert forall i | 1 <= i < |data| :: data[i] == data[1..][i - 1];
      if |data[0]| >= rest then |data[0]|
      else
        assert exists i | 0 <= i < |data| :: |data[i]| == rest by {
          var i :| 0 <= i < |data[1..]| && |data[1..][i]| == rest;
          assert |data[i + 1]| == rest;
        }
        rest
  }

  // ------------------------------------------------------ sheets

  /** The styled payload of one sheet. */
  datatype Payload = Payload(
    data: seq<seq<Value>>,
    matrix: seq<seq<StyleCell>>,
    rowProps: seq<Option<RowProps>>,
    colProps: seq<Option<ColProps>>,
    merges: seq<Range>,
    freeze: Option<Freeze>,
    hidden: bool)

  /** A sheet entry: the old format (just the value matrix) or a styled payload. */
  datatype SheetInfo = PlainRows(rows: seq<seq<Value>>) | WithStyles(payload: Payload)

  /** The old format is a payload with nothing but data. */
  function PayloadOf(info: SheetInfo): (pl: Payload)
    ensures info.PlainRows? ==> pl.data == info.rows && pl.matrix == [] && pl.rowProps == [] && pl.colProps == [] && pl.merges == [] && pl.freeze.None? && !pl.hidden
    ensures info.WithStyles? ==> pl == info.payload
  {
    match info
    case PlainRows(rows) => Payload(rows, [], [], [], [], None, false)
    case WithStyles(pl) => pl
  }

  /** The id of the sheet at position `index`: `sheet_<now>_<index>`. */
  function SheetId(now: nat, index: nat): string {
    "sheet_" + NatToString(now) + "_" + NatToString(index)
  }

  /** Sheets at different positions get different ids. */
  lemma SheetIdInjective(now: nat, a: nat, b: nat)
    requires SheetId(now, a) == SheetId(now, b)
    ensures a == b
  {
    var prefix := "sheet_" + NatToString(now) + "_";
    assert SheetId(now, a) == prefix + NatToString(a);
    assert SheetId(now, b) == prefix + NatToString(b);
    assert SheetId(now, a)[|prefix|..] == NatToString(a);
    assert SheetId(now, b)[|prefix|..] == NatToString(b);
    NatToStringInjective(a, b);
  }

  /** A sheet's name: its key, or `工作表<index + 1>` for an empty key. */
  function SheetName(name: string, index: nat): (r: string)
    ensures name != [] ==> r == name
    ensures name == [] ==> r == "\U{5DE5}\U{4F5C}\U{8868}" + NatToString(index + 1)
  {
    if name != [] then name else "\U{5DE5}\U{4F5C}\U{8868}" + NatToString(index + 1)
  }

  /** The content-derived row entries: one visible row per data row, `h == ah`. */
  function CalculatedRows(data: seq<seq<Value>>, widths: seq<real>): (r: map<int, RowInfo>)
    ensures forall i :: i in r <==> 0 <= i < |data|
    ensures forall i | 0 <= i < |data| :: r[i].hd == 0 && r[i].h == r[i].ah == RowHeightWithColumns(data[i], DefaultConfig, widths)
  {
    map i | 0 <= i < |data| :: RowInfo(RowHeightWithColumns(data[i], DefaultConfig, widths), 0, RowHeightWithColumns(data[i], DefaultConfig, widths))
  }

  /** `rowData`: the calculated rows, merged with the explicit row properties when there are any. */
  function RowData(props: seq<Option<RowProps>>, data: seq<seq<Value>>, widths: seq<real>): (r: map<int, RowInfo>)
    ensures forall i | 0 <= i < |data| :: i in r
    ensures forall i | 0 <= i < |props| && HasExplicit(props[i]) :: i in r && r[i] == MergedEntry(props[i].value, i, data)
    ensures forall i | 0 <= i < |data| && !(0 <= i < |props| && HasExplicit(props[i])) ::
      r[i].hd == 0 && r[i].h == r[i].ah == RowHeightWithColumns(data[i], DefaultConfig, widths)
  {
    var calculated := CalculatedRows(data, widths);
    if |props| > 0 then MergeRowHeights(props, calculated, data) else calculated
  }

  /** The layout keys of a built sheet. */
  function LayoutOf(pl: Payload, readonly: bool): SheetLayout {
    SheetLayout(
      if pl.hidden then 1 else 0,
      DefaultColumnWidth(pl.colProps),
      DefaultRowHeight(pl.rowProps, pl.data),
      pl.freeze.GetOr(NoFreeze),
      seq(|pl.merges|, k requires 0 <= k < |pl.merges| => MergeEntry(pl.merges[k])),
      RowData(pl.rowProps, pl.data, ColumnWidths(pl.colProps)),
      ColumnData(pl.colProps),
      readonly)
  }

  /**
   * The cells of a built sheet against the final style table: every value
   * of the matrix and every non-anchor cell of a range has a cell and no
   * other cell exists; cells outside ranges are as the cell pass built them;
   * non-anchor cells are empty and keep the style their value had.
   */
  ghost predicate CellsOk(cells: map<Pos, Cell>, pl: Payload, readonly: bool, p: Parsers, styles: map<string, Style>) {
    && (forall q: Pos :: q in cells <==> InGrid(q, pl.data) || Covered(pl.merges, q))
    && (forall q: Pos | InGrid(q, pl.data) && !Covered(pl.merges, q) ::
          CellOk(cells[q], pl.data[q.r][q.c], StyleAt(pl.matrix, q.r, q.c), readonly, p, styles))
    && (forall q: Pos | Covered(pl.merges, q) ::
          && cells[q].v == Str("") && cells[q].p.None? && cells[q].f.None?
          && Resolves(cells[q].s, if InGrid(q, pl.data) then ResolvedStyle(StyleAt(pl.matrix, q.r, q.c), readonly, p) else None, styles))
  }

  /** Everything a built sheet satisfies, against the final style table. */
  ghost predicate SheetOk(ws: Worksheet, name: string, info: SheetInfo, index: nat, now: nat, readonly: bool, p: Parsers, styles: map<string, Style>) {
    var pl := PayloadOf(info);
    && ws.id == SheetId(now, index) && ws.name == SheetName(name, index)
    && ws.rowCount == Some(Max(30, |pl.data|)) && ws.columnCount == Max(26, LongestRow(pl.data))
    && CellsOk(ws.cellData, pl, readonly, p, styles)
    && ws.layout == Some(LayoutOf(pl, readonly))
  }

  lemma CellsOkGrows(cells: map<Pos, Cell>, pl: Payload, readonly: bool, p: Parsers, small: map<string, Style>, big: map<string, Style>)
    requires CellsOk(cells, pl, readonly, p, small) && Grows(small, big)
    ensures CellsOk(cells, pl, readonly, p, big)
  {
    forall q: Pos | InGrid(q, pl.data) && !Covered(pl.merges, q)
      ensures CellOk(cells[q], pl.data[q.r][q.c], StyleAt(pl.matrix, q.r, q.c), readonly, p, big)
    {
      ResolvesGrows(cells[q].s, ResolvedStyle(StyleAt(pl.matrix, q.r, q.c), readonly, p), small, big);
    }
    forall q: Pos | Covered(pl.merges, q)
      ensures Resolves(cells[q].s, if InGrid(q, pl.data) then ResolvedStyle(StyleAt(pl.matrix, q.r, q.c), readonly, p) else None, big)
    {
      ResolvesGrows(cells[q].s, if InGrid(q, pl.data) then ResolvedStyle(StyleAt(pl.matrix, q.r, q.c), readonly, p) else None, small, big);
    }
  }

  /** Cleaning the merge ranges out of the cell pass's result gives the cells `CellsOk` describes. */
  lemma CleanupKeepsCells(cells: map<Pos, Cell>, pl: Payload, readonly: bool, p: Parsers, styles: map<string, Style>)
    requires forall q: Pos :: q in cells <==> InGrid(q, pl.data)
    requires forall q: Pos | InGrid(q, pl.data) :: CellOk(cells[q], pl.data[q.r][q.c], StyleAt(pl.matrix, q.r, q.c), readonly, p, styles)
    ensures CellsOk(CleanMerged(cells, pl.merges), pl, readonly, p, styles)
  {
    var r := CleanMerged(cells, pl.merges);
    forall q: Pos | Covered(pl.merges, q)
      ensures Resolves(r[q].s, if InGrid(q, pl.data) then ResolvedStyle(StyleAt(pl.matrix, q.r, q.c), readonly, p) else None, styles)
    {
      if InGrid(q, pl.data) {
        assert CellOk(cells[q], pl.data[q.r][q.c], StyleAt(pl.matrix, q.r, q.c), readonly, p, styles);
        assert r[q] == Cleared(Some(cells[q]));
      } else {
        assert r[q] == Cleared(None);
      }
    }
  }

  /** The cell map of a sheet: the cell pass, then the merge cleanup when there are ranges. */
  function SheetCells(pl: Payload, readonly: bool, p: Parsers, styles: map<string, Style>, next: nat): (r: (map<Pos, Cell>, map<string, Style>, nat))
    requires TableOk(styles, next)
    ensures TableOk(r.1, r.2) && r.2 >= next && Grows(styles, r.1)
    ensures CellsOk(r.0, pl, readonly, p, r.1)
  {
    var pass := GridPass(pl.data, pl.matrix, readonly, p, 0, Pass(map[], styles, next));
    CleanupKeepsCells(pass.cells, pl, readonly, p, pass.styles);
    var cells := if |pl.merges| > 0 then CleanMerged(pass.cells, pl.merges) else pass.cells;
    assert cells == CleanMerged(pass.cells, pl.merges);
    (cells, pass.styles, pass.next)
  }

  /** One sheet of `transformExcelToUniverWorkbook`. */
  method BuildSheet(name: string, info: SheetInfo, index: nat, now: nat, readonly: bool, p: Parsers, styles: map<string, Style>, next: nat)
    returns (ws: Worksheet, styles': map<string, Style>, next': nat)
    requires TableOk(styles, next)
    ensures TableOk(styles', next') && next' >= next && Grows(styles, styles')
    ensures SheetOk(ws, name, info, index, now, readonly, p, styles')
  {
    var pl := PayloadOf(info);
    var c := SheetCells(pl, readonly, p, styles, next);
    ws := Worksheet(SheetId(now, index), SheetName(name, index), Some(Max(30, |pl.data|)), Max(26, LongestRow(pl.data)),
                    c.0, Some(LayoutOf(pl, readonly)));
    styles', next' := c.1, c.2;
  }

  /**
   * A cell of a built sheet that has an `s` names an entry of the style
   * table; in readonly mode that entry is locked and visible.
   */
  lemma StyledCellResolves(cells: map<Pos, Cell>, pl: Payload, readonly: bool, p: Parsers, styles: map<string, Style>, q: Pos)
    requires CellsOk(cells, pl, readonly, p, styles) && q in cells && cells[q].s.Some?
    ensures cells[q].s.value.StyleId? && cells[q].s.value.id in styles
    ensures readonly ==> styles[cells[q].s.value.id].protection == Some(Protection(true, false))
  {
    if !Covered(pl.merges, q) {
      assert CellOk(cells[q], pl.data[q.r][q.c], StyleAt(pl.matrix, q.r, q.c), readonly, p, styles);
    }
  }

  // ------------------------------------------------------ the workbook

  const DefinedNamesResource: Resource := Resource("SHEET_DEFINED_NAME_PLUGIN", "")

  /** The sheet ids in input order. */
  function SheetOrder(now: nat, n: nat): (r: seq<string>)
    ensures |r| == n && forall j | 0 <= j < n :: r[j] == SheetId(now, j)
    ensures forall a, b | 0 <= a < b < n :: r[a] != r[b]
  {
    var r := seq(n, j requires 0 <= j < n => SheetId(now, j));
    assert forall a, b | 0 <= a < b < n :: r[a] != r[b] by {
      forall a, b | 0 <= a < b < n ensures r[a] != r[b] {
        if r[a] == r[b] { SheetIdInjective(now, a, b); }
      }
    }
    r
  }

  /** The sheet map: each built sheet under its id. */
  function SheetMap(order: seq<string>, sheets: seq<Worksheet>): (m: map<string, Worksheet>)
    requires |order| == |sheets|
    requires forall a, b | 0 <= a < b < |order| :: order[a] != order[b]
    ensures forall id :: id in m <==> id in order
    ensures forall j | 0 <= j < |order| :: m[order[j]] == sheets[j]
  {
    if order == [] then map[]
    else
      var prev := SheetMap(order[..|order| - 1], sheets[..|sheets| - 1]);
      var m := prev[order[|order| - 1] := sheets[|sheets| - 1]];
      SheetMapStep(order, sheets, order[..|order| - 1], sheets[..|sheets| - 1], prev, m);
      m
  }

  /** Adding the last sheet under the last id to the map of the others gives the map of all. */
  lemma SheetMapStep(order: seq<string>, sheets: seq<Worksheet>, init: seq<string>, initSheets: seq<Worksheet>,
                     prev: map<string, Worksheet>, m: map<string, Worksheet>)
    requires |order| == |sheets| > 0 && init == order[..|order| - 1] && initSheets == sheets[..|sheets| - 1]
    requires forall a, b | 0 <= a < b < |order| :: order[a] != order[b]
    requires forall id :: id in prev <==> id in init
    requires forall j | 0 <= j < |init| :: prev[init[j]] == initSheets[j]
    requires m == prev[order[|order| - 1] := sheets[|sheets| - 1]]
    ensures forall id :: id in m <==> id in order
    ensures forall j | 0 <= j < |order| :: m[order[j]] == sheets[j]
  {
    var last := |order| - 1;
    assert order == init + [order[last]];
    forall j | 0 <= j < |order| ensures m[order[j]] == sheets[j] {
      if j < last {
        assert order[j] != order[last];
        assert init[j] == order[j] && initSheets[j] == sheets[j];
      }
    }
  }

  /**
   * The `forEach` over the sheets: sheet `j` is built from entry `j` and
   * satisfies `SheetOk` against the final, shared style table.
   */
  method BuildSheets(input: seq<(string, SheetInfo)>, readonly: bool, now: nat, p: Parsers)
    returns (built: seq<Worksheet>, styles: map<string, Style>)
    ensures |built| == |input| && Grows(DefaultStylesMap(), styles)
    ensures forall j | 0 <= j < |input| :: SheetOk(built[j], input[j].0, input[j].1, j, now, readonly, p, styles)
  {
    styles := DefaultStylesMap();
    var next: nat := 0;
    built := [];
    assert TableOk(styles, next) by {
      forall m: nat ensures StyleKey(m) !in styles { StyleKeysFresh(m, m); }
    }
    for k := 0 to |input|
      invariant TableOk(styles, next) && |built| == k && Grows(DefaultStylesMap(), styles)
      invariant forall j | 0 <= j < k :: SheetOk(built[j], input[j].0, input[j].1, j, now, readonly, p, styles)
    {
      var ws, styles', next' := BuildSheet(input[k].0, input[k].1, k, now, readonly, p, styles, next);
      SheetsOkGrow(built, input, now, readonly, p, styles, styles', ws);
      GrowsTransitive(DefaultStylesMap(), styles, styles');
      built, styles, next := built + [ws], styles', next';
    }
  }

  lemma GrowsTransitive(a: map<string, Style>, b: map<string, Style>, c: map<string, Style>)
    requires Grows(a, b) && Grows(b, c)
    ensures Grows(a, c)
  {
  }

  /** The sheets built so far stay `SheetOk` against a grown table, and the next one joins them. */
  lemma SheetsOkGrow(built: seq<Worksheet>, input: seq<(string, SheetInfo)>, now: nat, readonly: bool, p: Parsers,
                     small: map<string, Style>, big: map<string, Style>, ws: Worksheet)
    requires |built| < |input| && Grows(small, big)
    requires forall j | 0 <= j < |built| :: SheetOk(built[j], input[j].0, input[j].1, j, now, readonly, p, small)
    requires SheetOk(ws, input[|built|].0, input[|built|].1, |built|, now, readonly, p, big)
    ensures forall j | 0 <= j < |built| + 1 :: SheetOk((built + [ws])[j], input[j].0, input[j].1, j, now, readonly, p, big)
  {
    forall j | 0 <= j < |built| + 1
      ensures SheetOk((built + [ws])[j], input[j].0, input[j].1, j, now, readonly, p, big)
    {
      if j < |built| {
        assert (built + [ws])[j] == built[j];
        CellsOkGrows(built[j].cellData, PayloadOf(input[j].1), readonly, p, small, big);
      }
    }
  }

  /** Lifts `StyledCellResolves` to every sheet of the sheet map. */
  lemma StyledSheetsResolve(input: seq<(string, SheetInfo)>, readonly: bool, now: nat, p: Parsers,
                            built: seq<Worksheet>, styles: map<string, Style>, order: seq<string>, sheets: map<string, Worksheet>)
    requires |built| == |input| == |order|
    requires forall j | 0 <= j < |input| :: SheetOk(built[j], input[j].0, input[j].1, j, now, readonly, p, styles)
    requires forall id :: id in sheets <==> id in order
    requires forall j | 0 <= j < |order| :: sheets[order[j]] == built[j]
    ensures forall id, q: Pos | id in sheets && q in sheets[id].cellData && sheets[id].cellData[q].s.Some? ::
      && sheets[id].cellData[q].s.value.StyleId? && sheets[id].cellData[q].s.value.id in styles
      && (readonly ==> styles[sheets[id].cellData[q].s.value.id].protection == Some(Protection(true, false)))
  {
    forall id, q: Pos | id in sheets && q in sheets[id].cellData && sheets[id].cellData[q].s.Some?
      ensures && sheets[id].cellData[q].s.value.StyleId? && sheets[id].cellData[q].s.value.id in styles
              && (readonly ==> styles[sheets[id].cellData[q].s.value.id].protection == Some(Protection(true, false)))
    {
      var j :| 0 <= j < |order| && order[j] == id;
      assert SheetOk(built[j], input[j].0, input[j].1, j, now, readonly, p, styles);
      StyledCellResolves(sheets[id].cellData, PayloadOf(input[j].1), readonly, p, styles, q);
    }
  }

  /**
   * `transformExcelToUniverWorkbook`: one sheet per entry, in entry order,
   * under distinct ids `sheet_<now>_<index>`; one style table shared by all
   * sheets, starting from the default style; every sheet is the built sheet
   * of its entry against that final table.
   */
  method TransformExcelToWorkbook(input: seq<(string, SheetInfo)>, fileName: string, readonly: bool, now: nat, p: Parsers)
    returns (wb: Workbook)
    ensures |wb.sheetOrder| == |input|
    ensures forall j | 0 <= j < |input| :: wb.sheetOrder[j] == SheetId(now, j)
    ensures forall a, b | 0 <= a < b < |wb.sheetOrder| :: wb.sheetOrder[a] != wb.sheetOrder[b]
    ensures forall id :: id in wb.sheets <==> id in wb.sheetOrder
    ensures forall j | 0 <= j < |input| ::
      SheetOk(wb.sheets[wb.sheetOrder[j]], input[j].0, input[j].1, j, now, readonly, p, wb.styles)
    ensures forall id, q: Pos | id in wb.sheets && q in wb.sheets[id].cellData && wb.sheets[id].cellData[q].s.Some? ::
      && wb.sheets[id].cellData[q].s.value.StyleId?
      && wb.sheets[id].cellData[q].s.value.id in wb.styles
      && (readonly ==> wb.styles[wb.sheets[id].cellData[q].s.value.id].protection == Some(Protection(true, false)))
    ensures DefaultStyleId() in wb.styles && wb.styles[DefaultStyleId()] == DefaultCellStyle()
    ensures wb.resources == [DefinedNamesResource]
    ensures wb.name == (if fileName != [] then fileName else "\U{5DE5}\U{4F5C}\U{7C3F}")
    ensures wb.id == "workbook_" + NatToString(now)
  {
    var built, styles := BuildSheets(input, readonly, now, p);
    var order := SheetOrder(now, |input|);
    var sheets := SheetMap(order, built);
    StyledSheetsResolve(input, readonly, now, p, built, styles, order, sheets);
    wb := Workbook("workbook_" + NatToString(now), if fileName != [] then fileName else "\U{5DE5}\U{4F5C}\U{7C3F}",
                   Some("0.5.0"), Some("zh-CN"), styles, order, sheets, [DefinedNamesResource]);
  }
}
