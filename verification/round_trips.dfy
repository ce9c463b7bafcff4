/**
 * What a value read by the importers looks like once the exporters write it
 * back out: border names, sub- and superscript, cell values, formulas,
 * colours and column widths.
 */
module RoundTrips {
  import opened Wrappers
  import opened JsText
  import opened JsNumber
  import opened Model
  import Colors
  import StyleConverter
  import GridBuilder
  import SheetExport

  // ------------------------------------------------------- border styles

  /** The border names the importer maps to an ordinal of their own. */
  predicate KnownBorderName(name: string) {
    name in {"thin", "hair", "dotted", "dashed", "dashDot", "dashDotDot", "double", "medium", "slantDashDot", "thick"}
  }

  /**
   * A border name survives import and export exactly when the importer knows
   * it; every other name comes back as `thin`.
   */
  lemma BorderNameRoundTrip(name: string)
    ensures SheetExport.BorderStyleName(StyleConverter.BorderOrdinal(Str(name))) == name <==> KnownBorderName(name)
    ensures !KnownBorderName(name) ==> SheetExport.BorderStyleName(StyleConverter.BorderOrdinal(Str(name))) == "thin"
  {
  }

  /** With the ordinals as the converter writes them, `medium`, `thick` and `dashed` come back as other styles. */
  lemma BorderNamesAsWritten()
    ensures SheetExport.BorderStyleName(StyleConverter.BorderOrdinalAsWritten(Str("medium"))) == "hair"
    ensures SheetExport.BorderStyleName(StyleConverter.BorderOrdinalAsWritten(Str("thick"))) == "dotted"
    ensures SheetExport.BorderStyleName(StyleConverter.BorderOrdinalAsWritten(Str("dashed"))) == "medium"
    ensures SheetExport.BorderStyleName(StyleConverter.BorderOrdinalAsWritten(Str("hair"))) == "thin"
  {
  }

  // ------------------------------------------------- sub- and superscript

  /** The rich-text font the exporter writes for a font imported with the editor's superscript code. */
  function ExportedRunFont(f: StyleConverter.Font): Option<SheetExport.RichFont> {
    SheetExport.RunFont(StyleConverter.CorrectedFontPart(f))
  }

  /**
   * With the corrected superscript code, an imported `superscript` or
   * `subscript` font is exported with the same vertical alignment, and
   * nothing else gains one.
   */
  lemma VertAlignRoundTrip(f: StyleConverter.Font)
    ensures f.vertAlign == Str("superscript") ==>
      ExportedRunFont(f).Some? && ExportedRunFont(f).value.vertAlign == Some("superscript")
    ensures f.vertAlign == Str("subscript") ==>
      ExportedRunFont(f).Some? && ExportedRunFont(f).value.vertAlign == Some("subscript")
    ensures ExportedRunFont(f).Some? && f.vertAlign != Str("superscript") && f.vertAlign != Str("subscript") ==>
      ExportedRunFont(f).value.vertAlign.None?
  {
  }

  /** With the code the converter writes for `superscript` (1), the exporter writes no font at all. */
  lemma SuperscriptLostAsWritten()
    ensures StyleConverter.VertAlignCodeAsWritten(Str("superscript")) == Some(1)
    ensures SheetExport.RunFont(EmptyStyle.(va := StyleConverter.VertAlignCodeAsWritten(Str("superscript")))) == None
    ensures SheetExport.RunFont(EmptyStyle.(va := StyleConverter.VertAlignCode(Str("superscript")))).Some?
  {
  }

  /** A superscript font, as the converter imports it, is never exported as superscript. */
  lemma SuperscriptImportLost(f: StyleConverter.Font)
    requires f.vertAlign == Str("superscript")
    ensures var e := SheetExport.RunFont(StyleConverter.FontPart(f));
            e.None? || e.value.vertAlign != Some("superscript")
  {
  }

  // ---------------------------------------------------------- cell values

  /** A cell holding the classification of `v`, with no rich text, formula or style. */
  function ClassifiedCell(v: Value): Cell {
    var c := GridBuilder.Classify(v);
    Cell(c.v, Some(c.t), None, None, None, Undefined)
  }

  /**
   * The value the exporter writes for a classified cell is the value the
   * importer read: numbers as numbers, booleans as booleans, text (and
   * leading-zero digits) as the same text, numeric text as its number.
   */
  lemma ClassifiedValueRoundTrip(v: Value)
    ensures v.Number? ==> SheetExport.CellValue(ClassifiedCell(v)) == SheetExport.XNum(Finite(v.n))
    ensures v.Bool? ==> SheetExport.CellValue(ClassifiedCell(v)) == SheetExport.XBool(v.b)
    ensures IsNullish(v) ==> SheetExport.CellValue(ClassifiedCell(v)) == SheetExport.XText([])
    ensures v.Str? && GridBuilder.Classify(v).t in {GridBuilder.StringType, GridBuilder.ForceStringType} ==>
      SheetExport.CellValue(ClassifiedCell(v)) == SheetExport.XText(v.s)
    ensures v.Str? && GridBuilder.Classify(v).t == GridBuilder.NumberType ==>
      SheetExport.CellValue(ClassifiedCell(v)) == SheetExport.XNum(ToNumber(v.s))
    ensures v.Str? && GridBuilder.Classify(v).t == GridBuilder.BooleanType ==>
      SheetExport.CellValue(ClassifiedCell(v)) == SheetExport.XBool(ToLower(v.s) == "true")
  {
    if v.Str? {
      ClassifiedTextRoundTrip(v.s);
    } else {
      ClassifiedScalarRoundTrip(v);
    }
  }

  /** The text case: what the exporter writes for classified text, by the type it was given. */
  lemma ClassifiedTextRoundTrip(s: string)
    ensures GridBuilder.Classify(Str(s)).t in {GridBuilder.StringType, GridBuilder.ForceStringType} ==>
      SheetExport.CellValue(ClassifiedCell(Str(s))) == SheetExport.XText(s)
    ensures GridBuilder.Classify(Str(s)).t == GridBuilder.NumberType ==>
      SheetExport.CellValue(ClassifiedCell(Str(s))) == SheetExport.XNum(ToNumber(s))
    ensures GridBuilder.Classify(Str(s)).t == GridBuilder.BooleanType ==>
      SheetExport.CellValue(ClassifiedCell(Str(s))) == SheetExport.XBool(ToLower(s) == "true")
  {
    var t := GridBuilder.Classify(Str(s)).t;
    if t == GridBuilder.NumberType {
      NumericTextExported(s);
    } else if t == GridBuilder.BooleanType {
      BooleanTextExported(s);
    } else if t in {GridBuilder.StringType, GridBuilder.ForceStringType} {
      PlainTextExported(s);
    }
  }

  lemma PlainTextExported(s: string)
    requires GridBuilder.Classify(Str(s)).t in {GridBuilder.StringType, GridBuilder.ForceStringType}
    ensures SheetExport.CellValue(ClassifiedCell(Str(s))) == SheetExport.XText(s)
  {
  }

  lemma NumericTextExported(s: string)
    requires GridBuilder.Classify(Str(s)).t == GridBuilder.NumberType
    ensures SheetExport.CellValue(ClassifiedCell(Str(s))) == SheetExport.XNum(ToNumber(s))
  {
    var c := GridBuilder.Classify(Str(s));
    assert c.v == Number(ToNumber(s).value);
  }

  lemma BooleanTextExported(s: string)
    requires GridBuilder.Classify(Str(s)).t == GridBuilder.BooleanType
    ensures SheetExport.CellValue(ClassifiedCell(Str(s))) == SheetExport.XBool(ToLower(s) == "true")
  {
  }

  /** The non-text cases: numbers, booleans and nullish values. */
  lemma ClassifiedScalarRoundTrip(v: Value)
    requires !v.Str?
    ensures v.Number? ==> SheetExport.CellValue(ClassifiedCell(v)) == SheetExport.XNum(Finite(v.n))
    ensures v.Bool? ==> SheetExport.CellValue(ClassifiedCell(v)) == SheetExport.XBool(v.b)
    ensures IsNullish(v) ==> SheetExport.CellValue(ClassifiedCell(v)) == SheetExport.XText([])
  {
  }

  /** Leading-zero digits such as `"0012"` are written back as text with the text number format `@`. */
  lemma LeadingZeroRoundTrip(styles: map<string, Style>)
    ensures SheetExport.ProcessCell(ClassifiedCell(Str("0012")), styles).value == SheetExport.XText("0012")
    ensures SheetExport.ProcessCell(ClassifiedCell(Str("0012")), styles).numFmt == Some("@")
  {
    GridBuilder.LeadingZeroKept();
  }

  // ------------------------------------------------------------- formulas

  /**
   * A trimmed formula the importer stored on a cell is written back without
   * its leading `=`, whether or not the workbook's text had one.
   */
  lemma FormulaRoundTrip(f: string, cell: Cell, styles: map<string, Style>)
    requires Trim(f) == f
    requires f != [] && f != "="
    requires cell.p.None? && cell.f == Some(GridBuilder.NormalizeFormula(f))
    ensures SheetExport.ProcessCell(cell, styles).value ==
      SheetExport.XFormula(if StartsWith(f, "=") then f[1..] else f, cell.v)
  {
    NormalizedFormulaCleans(f);
  }

  /** The importer's normalised formula is non-empty and cleans back to the text without `=`, which is non-empty too. */
  lemma NormalizedFormulaCleans(f: string)
    requires Trim(f) == f
    requires f != [] && f != "="
    ensures GridBuilder.NormalizeFormula(f) != []
    ensures SheetExport.CleanFormula(GridBuilder.NormalizeFormula(f)) == (if StartsWith(f, "=") then f[1..] else f)
    ensures SheetExport.CleanFormula(GridBuilder.NormalizeFormula(f)) != []
  {
    SheetExport.CleanNormalizedFormula(f);
    if StartsWith(f, "=") {
      assert |f| > 1;
    }
  }

  // -------------------------------------------------------------- colours

  /** The ARGB text the exporter writes for a colour reference the importers produce. */
  function ExportedArgb(hex: string): SheetExport.XColor {
    SheetExport.ExcelColor(Rgb(hex))
  }

  /** An imported `#rrggbb` colour is exported as the opaque ARGB `FF` followed by the same digits in upper case. */
  lemma HexColorExport(hex: string)
    requires Colors.IsHexColor(hex)
    ensures ExportedArgb(hex) == SheetExport.Argb("FF" + ToUpper(hex[1..]))
    ensures |ExportedArgb(hex).argb| == 8
  {
    RemoveLeading(hex, '#');
  }

  /**
   * An Excel colour given as ARGB or RGB digits is exported with the same
   * colour digits, upper-cased, and an opaque alpha.
   */
  lemma ExcelRgbRoundTrip(rgb: string)
    requires |rgb| == 6 || |rgb| == 8
    requires forall i | 0 <= i < |rgb| :: IsHexDigit(rgb[i])
    ensures var c := Colors.ProcessExcelColor(Colors.ColorObject(Str(rgb), Undefined, Undefined, Undefined), "#000000");
            ExportedArgb(c) == SheetExport.Argb("FF" + ToUpper(rgb[|rgb| - 6..]))
  {
    var c := Colors.ProcessExcelColor(Colors.ColorObject(Str(rgb), Undefined, Undefined, Undefined), "#000000");
    assert c == "#" + rgb[|rgb| - 6..];
    RemoveLeading(c, '#');
    assert c[1..] == rgb[|rgb| - 6..];
  }

  // -------------------------------------------------------- column widths

  /**
   * A column width given in characters (`wch`) comes back in characters to
   * within one fifteenth, once the pixel width is above the minimum; hidden
   * columns stay hidden.
   */
  lemma ColumnWidthRoundTrip(props: seq<Option<GridBuilder.ColProps>>, k: int)
    requires 0 <= k < |props| && GridBuilder.EmitsColumn(props[k])
    ensures k in GridBuilder.ColumnData(props)
    ensures SheetExport.ColumnOut(GridBuilder.ColumnData(props)[k]).hidden == props[k].value.hidden
    ensures var p := props[k].value;
            p.wpx == 0.0 && p.wch != 0.0 && Round(p.wch * 7.5) as real >= GridBuilder.MinColumnWidth ==>
              -1.0 / 15.0 < SheetExport.ColumnOut(GridBuilder.ColumnData(props)[k]).width - p.wch <= 1.0 / 15.0
  {
    var p := props[k].value;
    var info := GridBuilder.ColumnData(props)[k];
    if p.wpx == 0.0 && p.wch != 0.0 && Round(p.wch * 7.5) as real >= GridBuilder.MinColumnWidth {
      var w := Round(p.wch * 7.5) as real;
      assert info.w == w;
      assert -0.5 < w - p.wch * 7.5 <= 0.5;
      assert w / 7.5 - p.wch == (w - p.wch * 7.5) / 7.5;
    }
  }
}
