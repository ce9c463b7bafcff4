/**
 * `convertExcelStyleToUniver`: a SheetJS cell style (font, fill, alignment,
 * border, number format, protection, and the side fields holding rich text)
 * becomes an editor style record, or `null` when nothing was set.
 *
 * Each group of keys is computed on its own; the groups touch disjoint keys,
 * so the record is their overlay. The rich-text parsers are parameters.
 */
module StyleConverter {
  import opened Wrappers
  import opened JsNumber
  import opened Model
  import opened Colors
  import opened DefaultStyles
  import opened TextProcessor

  /** `font`; `color` is `None` when falsy. */
  datatype Font = Font(
    sz: Value,
    name: Value,
    bold: Value,
    italic: Value,
    underline: Value,
    strike: Value,
    color: Option<ExcelColor>,
    vertAlign: Value)

  /** `fill`; `fgColor` is `None` when falsy. */
  datatype Fill = Fill(patternType: Value, fgColor: Option<ExcelColor>)

  datatype Alignment = Alignment(
    horizontal: Value,
    vertical: Value,
    wrapText: Value,
    textRotation: Value,
    indent: Value)

  /** One side of `border`; a missing colour is `NotAnObject`. */
  datatype BorderSideIn = BorderSideIn(style: Value, color: ExcelColor)

  /** `border`; a side is `None` when falsy. */
  datatype BorderIn = BorderIn(
    top: Option<BorderSideIn>,
    bottom: Option<BorderSideIn>,
    left: Option<BorderSideIn>,
    right: Option<BorderSideIn>)

  datatype ProtectionIn = ProtectionIn(locked: Value, hidden: Value)

  /**
   * A SheetJS style with the reader's side fields. Every `Option` is `None`
   * when the key is falsy; strings are `""` when falsy.
   */
  datatype ExcelStyle = ExcelStyle(
    richText: string,
    htmlContent: string,
    font: Option<Font>,
    fill: Option<Fill>,
    fgColor: Option<ExcelColor>,
    bgColor: Option<ExcelColor>,
    alignment: Option<Alignment>,
    border: Option<BorderIn>,
    numFmt: string,
    numberFormat: string,
    protection: Option<ProtectionIn>)

  /** The parsers the rich-text translators call. */
  datatype Parsers = Parsers(xml: string -> XmlParse, html: string -> HtmlParse)

  // ------------------------------------------------------------ rich text

  /** `_richText` wins when set; `_htmlContent` is used only without it and only when it yields runs. */
  function RichTextPart(s: ExcelStyle, p: Parsers): (r: Option<RichText>)
    ensures s.richText == [] && s.htmlContent == [] ==> r.None?
    ensures s.richText != [] ==> (r.Some? <==> ProcessExcelRichText(s.richText, p.xml).Some?)
    ensures s.richText != [] && r.Some? ==> r.value == XmlRich(ProcessExcelRichText(s.richText, p.xml).value)
    ensures s.richText == [] && r.Some? ==> r.value.HtmlRich? && |r.value.runs| > 0
  {
    if s.richText != [] then
      match ProcessExcelRichText(s.richText, p.xml)
      case Some(b) => Some(XmlRich(b))
      case None => None
    else if s.htmlContent != [] then
      match ConvertHtmlToRichText(s.htmlContent, p.html)
      case Some(h) => if |h.runs| > 0 then Some(h) else None
      case None => None
    else None
  }

  // ----------------------------------------------------------------- font

  /** The superscript/subscript code, with the editor's baseline codes (superscript 3, subscript 2). */
  function VertAlignCode(v: Value): (r: Option<int>)
    ensures r == Some(3) <==> v == Str("superscript")
    ensures r == Some(2) <==> v == Str("subscript")
    ensures r.None? <==> v != Str("superscript") && v != Str("subscript")
  {
    if v == Str("superscript") then Some(3)
    else if v == Str("subscript") then Some(2)
    else None
  }

  /** The code as the converter writes it: superscript gets 1, the editor's code for normal text. */
  function VertAlignCodeAsWritten(v: Value): (r: Option<int>)
    ensures r == Some(1) <==> v == Str("superscript")
    ensures r == Some(2) <==> v == Str("subscript")
    ensures r.None? <==> v != Str("superscript") && v != Str("subscript")
  {
    if v == Str("superscript") then Some(1)
    else if v == Str("subscript") then Some(2)
    else None
  }

  /** The keys a font sets: each only when its source key is truthy; `va` as the converter writes it. */
  function FontPart(f: Font): (r: Style)
    ensures r.fs.Some? <==> Truthy(f.sz)
    ensures r.fs.Some? ==> r.fs.value == NumberOf(f.sz)
    ensures r.ff.Some? <==> Truthy(f.name)
    ensures r.ff.Some? ==> r.ff.value == ValueText(f.name)
    ensures (r.bl == Some(1) <==> Truthy(f.bold)) && (r.bl.None? <==> !Truthy(f.bold))
    ensures (r.it == Some(1) <==> Truthy(f.italic)) && (r.it.None? <==> !Truthy(f.italic))
    ensures (r.ul == Some(Decoration(1)) <==> Truthy(f.underline)) && (r.ul.None? <==> !Truthy(f.underline))
    ensures (r.st == Some(Decoration(1)) <==> Truthy(f.strike)) && (r.st.None? <==> !Truthy(f.strike))
    ensures r.cl.Some? <==> f.color.Some?
    ensures r.cl.Some? ==> r.cl.value == Rgb(ProcessExcelColor(f.color.value, "#000000"))
    ensures r.va == VertAlignCodeAsWritten(f.vertAlign)
    ensures r.bg.None? && r.ht.None? && r.vt.None? && r.tb.None? && r.tr.None? && r.pd.None?
    ensures r.bd.None? && r.n.None? && r.protection.None? && r.richText.None?
  {
    EmptyStyle.(
      fs := if Truthy(f.sz) then Some(NumberOf(f.sz)) else None,
      ff := if Truthy(f.name) then Some(ValueText(f.name)) else None,
      bl := Flag(f.bold), it := Flag(f.italic),
      ul := DecorationFlag(f.underline), st := DecorationFlag(f.strike),
      cl := FontColor(f.color),
      va := VertAlignCodeAsWritten(f.vertAlign))
  }

  /**
   * The font part with the editor's superscript code (3) in place of the
   * converter's (1): only `va` differs, and only for a superscript font.
   */
  function CorrectedFontPart(f: Font): (r: Style)
    ensures r.va == VertAlignCode(f.vertAlign)
    ensures r.(va := None) == FontPart(f).(va := None)
    ensures f.vertAlign != Str("superscript") ==> r == FontPart(f)
  {
    FontPart(f).(va := VertAlignCode(f.vertAlign))
  }

  /** `1` for a truthy flag, unset otherwise. */
  function Flag(v: Value): (r: Option<int>)
    ensures r == Some(1) <==> Truthy(v)
    ensures r.None? <==> !Truthy(v)
  {
    if Truthy(v) then Some(1) else None
  }

  /** A shown decoration for a truthy flag, unset otherwise. */
  function DecorationFlag(v: Value): (r: Option<Decoration>)
    ensures r == Some(Decoration(1)) <==> Truthy(v)
    ensures r.None? <==> !Truthy(v)
  {
    if Truthy(v) then Some(Decoration(1)) else None
  }

  /** A font colour resolved against black, when the font has one. */
  function FontColor(c: Option<ExcelColor>): (r: Option<ColorRef>)
    ensures r.Some? <==> c.Some?
    ensures r.Some? ==> r.value == Rgb(ProcessExcelColor(c.value, "#000000"))
  {
    if c.Some? then Some(Rgb(ProcessExcelColor(c.value, "#000000"))) else None
  }

  // ----------------------------------------------------------------- fill

  /** A resolved background colour, dropped when it is white (or empty). */
  function NonWhite(c: string): (r: Option<ColorRef>)
    ensures r.Some? <==> c != [] && c != "#FFFFFF"
    ensures r.Some? ==> r.value == Rgb(c)
  {
    if c != [] && c != "#FFFFFF" then Some(Rgb(c)) else None
  }

  /** The background the `fill` record gives. */
  function FillBackground(f: Fill): (r: Option<ColorRef>)
    ensures f.patternType == Str("lightGray") ==> r == Some(Rgb("#F0F0F0"))
    ensures f.patternType == Str("darkGray") ==> r == Some(Rgb("#D0D0D0"))
    ensures (f.patternType == Str("solid") || !Truthy(f.patternType)) ==>
      r == (if f.fgColor.Some? then NonWhite(ProcessExcelColor(f.fgColor.value, "#FFFFFF")) else None)
    ensures f.patternType !in {Str("solid"), Str("lightGray"), Str("darkGray")} && Truthy(f.patternType) ==> r.None?
  {
    if f.patternType == Str("solid") || !Truthy(f.patternType) then
      match f.fgColor
      case Some(c) => NonWhite(ProcessExcelColor(c, "#FFFFFF"))
      case None => None
    else if f.patternType == Str("lightGray") then Some(Rgb("#F0F0F0"))
    else if f.patternType == Str("darkGray") then Some(Rgb("#D0D0D0"))
    else None
  }

  /** `bg`: the fill first; only when it gives nothing, the legacy `fgColor`, else the legacy `bgColor`. */
  function Background(s: ExcelStyle): (r: Option<ColorRef>)
    ensures r.Some? ==> r.value.ColorObj? && r.value.rgb != "#FFFFFF" && r.value.theme.None?
    ensures s.fill.Some? && FillBackground(s.fill.value).Some? ==> r == FillBackground(s.fill.value)
    ensures (s.fill.None? || FillBackground(s.fill.value).None?) ==>
      r == (if s.fgColor.Some? then NonWhite(ProcessExcelColor(s.fgColor.value, "#FFFFFF"))
            else if s.bgColor.Some? then NonWhite(ProcessExcelColor(s.bgColor.value, "#FFFFFF"))
            else None)
  {
    var fromFill := if s.fill.Some? then FillBackground(s.fill.value) else None;
    if fromFill.Some? then fromFill
    else if s.fgColor.Some? then NonWhite(ProcessExcelColor(s.fgColor.value, "#FFFFFF"))
    else if s.bgColor.Some? then NonWhite(ProcessExcelColor(s.bgColor.value, "#FFFFFF"))
    else None
  }

  // ------------------------------------------------------------ alignment

  /** left/center/right/justify/distributed → 1..5; anything else sets nothing. */
  function HorizontalCode(v: Value): (r: Option<int>)
    ensures r.Some? ==> 1 <= r.value <= 5
    ensures r == Some(1) <==> v == Str("left")
    ensures r == Some(2) <==> v == Str("center")
    ensures r == Some(3) <==> v == Str("right")
    ensures r == Some(4) <==> v == Str("justify")
    ensures r == Some(5) <==> v == Str("distributed")
  {
    if v == Str("left") then Some(1)
    else if v == Str("center") then Some(2)
    else if v == Str("right") then Some(3)
    else if v == Str("justify") then Some(4)
    else if v == Str("distributed") then Some(5)
    else None
  }

  /** top/(middle or center)/bottom/justify/distributed → 1..5; anything else sets nothing. */
  function VerticalCode(v: Value): (r: Option<int>)
    ensures r.Some? ==> 1 <= r.value <= 5
    ensures r == Some(1) <==> v == Str("top")
    ensures r == Some(2) <==> v == Str("middle") || v == Str("center")
    ensures r == Some(3) <==> v == Str("bottom")
    ensures r == Some(4) <==> v == Str("justify")
    ensures r == Some(5) <==> v == Str("distributed")
  {
    if v == Str("top") then Some(1)
    else if v == Str("middle") || v == Str("center") then Some(2)
    else if v == Str("bottom") then Some(3)
    else if v == Str("justify") then Some(4)
    else if v == Str("distributed") then Some(5)
    else None
  }

  /** `indent * 8`, in JavaScript number arithmetic. */
  function TimesEight(n: Num): (r: Num)
    ensures n.Finite? ==> r == Finite(n.value * 8.0)
    ensures n.NaN? <==> r.NaN?
  {
    match n
    case Finite(x) => Finite(x * 8.0)
    case other => other
  }

  /** The keys an alignment sets. */
  function AlignmentPart(a: Alignment): (r: Style)
    ensures r.ht == HorizontalCode(a.horizontal) && r.vt == VerticalCode(a.vertical)
    ensures r.tb == (if Truthy(a.wrapText) then Some(1) else None)
    ensures r.tr == (if Truthy(a.textRotation) then Some(Rotation(a.textRotation, 0)) else None)
    ensures r.pd.Some? <==> Truthy(a.indent)
    ensures r.pd.Some? ==> r.pd.value == Padding(None, None, Some(TimesEight(NumberOf(a.indent))), None)
    ensures r.ff.None? && r.fs.None? && r.bl.None? && r.it.None? && r.ul.None? && r.st.None?
    ensures r.cl.None? && r.va.None? && r.bg.None? && r.bd.None? && r.n.None?
    ensures r.protection.None? && r.richText.None?
  {
    EmptyStyle.(
      ht := HorizontalCode(a.horizontal),
      vt := VerticalCode(a.vertical),
      tb := if Truthy(a.wrapText) then Some(1) else None,
      tr := if Truthy(a.textRotation) then Some(Rotation(a.textRotation, 0)) else None,
      pd := if Truthy(a.indent) then Some(Padding(None, None, Some(TimesEight(NumberOf(a.indent))), None)) else None)
  }

  // --------------------------------------------------------------- border

  /**
   * The border ordinal with the editor's numbering (the one the exporter's
   * table reads back): thin 1, hair 2, dotted 3, dashed 4, dashDot 5,
   * dashDotDot 6, double 7, medium 8, slantDashDot 12, thick 13; any other
   * name gives thin.
   */
  function BorderOrdinal(style: Value): (r: int)
    ensures 1 <= r <= 13
    ensures style == Str("thin") || style == Str("hair") || style == Str("dotted") || style == Str("dashed") ||
            style == Str("dashDot") || style == Str("dashDotDot") || style == Str("double") ||
            style == Str("medium") || style == Str("slantDashDot") || style == Str("thick") || r == 1
  {
    match style
    case Str(s) =>
      if s == "thin" then 1
      else if s == "hair" then 2
      else if s == "dotted" then 3
      else if s == "dashed" then 4
      else if s == "dashDot" then 5
      else if s == "dashDotDot" then 6
      else if s == "double" then 7
      else if s == "medium" then 8
      else if s == "slantDashDot" then 12
      else if s == "thick" then 13
      else 1
    case _ => 1
  }

  /** The ordinals as the converter writes them. */
  function BorderOrdinalAsWritten(style: Value): (r: int)
    ensures style == Str("medium") <==> r == 2
    ensures style == Str("thick") <==> r == 3
    ensures style == Str("dotted") <==> r == 4
    ensures style == Str("double") <==> r == 6
    ensures style == Str("dashed") <==> r == 8
    ensures style == Str("dashDot") <==> r == 9
    ensures style == Str("dashDotDot") <==> r == 10
    ensures style == Str("slantDashDot") <==> r == 11
    ensures (style !in {Str("medium"), Str("thick"), Str("dotted"), Str("double"), Str("dashed"),
                        Str("dashDot"), Str("dashDotDot"), Str("slantDashDot")}) <==> r == 1
  {
    match style
    case Str(s) =>
      if s == "thin" then 1
      else if s == "medium" then 2
      else if s == "thick" then 3
      else if s == "dashed" then 8
      else if s == "dotted" then 4
      else if s == "double" then 6
      else if s == "hair" then 1
      else if s == "dashDot" then 9
      else if s == "dashDotDot" then 10
      else if s == "slantDashDot" then 11
      else 1
    case _ => 1
  }

  /** `convertBorderSide`: a side without a style is `null`; otherwise its ordinal as written and its colour (black by default). */
  function ConvertSide(side: Option<BorderSideIn>): (r: SideSlot)
    ensures side.None? <==> r.NoSide?
    ensures side.Some? && !Truthy(side.value.style) <==> r.NullSide?
    ensures r.Side? ==> r.side == BorderSide(BorderOrdinalAsWritten(side.value.style), Rgb(ProcessExcelColor(side.value.color, "#000000")))
  {
    match side
    case None => NoSide
    case Some(x) =>
      if !Truthy(x.style) then NullSide
      else Side(BorderSide(BorderOrdinalAsWritten(x.style), Rgb(ProcessExcelColor(x.color, "#000000"))))
  }

  /** `bd`: set only when some side key is present. */
  function BorderPart(b: BorderIn): (r: Option<Borders>)
    ensures r.None? <==> b.top.None? && b.bottom.None? && b.left.None? && b.right.None?
    ensures r.Some? ==> r.value == Borders(ConvertSide(b.top), ConvertSide(b.bottom), ConvertSide(b.left), ConvertSide(b.right))
  {
    var bd := Borders(ConvertSide(b.top), ConvertSide(b.bottom), ConvertSide(b.left), ConvertSide(b.right));
    if bd == Borders(NoSide, NoSide, NoSide, NoSide) then None else Some(bd)
  }

  // ---------------------------------------------- number format, protection

  /** `n.pattern`: `numFmt` when set, else `_numberFormat`. */
  function NumberFormat(s: ExcelStyle): (r: Option<string>)
    ensures r.None? <==> s.numFmt == [] && s.numberFormat == []
    ensures s.numFmt != [] ==> r == Some(s.numFmt)
    ensures s.numFmt == [] && s.numberFormat != [] ==> r == Some(s.numberFormat)
  {
    if s.numFmt != [] then Some(s.numFmt)
    else if s.numberFormat != [] then Some(s.numberFormat)
    else None
  }

  /** Read-only locks every styled cell; otherwise only an explicit protection is copied, each flag true iff it is `true`. */
  function ProtectionPart(s: ExcelStyle, readonly: bool): (r: Option<Protection>)
    ensures readonly ==> r == Some(Protection(true, false))
    ensures !readonly ==> (r.Some? <==> s.protection.Some?)
    ensures !readonly && r.Some? ==>
      (r.value.locked <==> s.protection.value.locked == Bool(true)) &&
      (r.value.hidden <==> s.protection.value.hidden == Bool(true))
  {
    if readonly then Some(Protection(true, false))
    else match s.protection
      case Some(q) => Some(Protection(q.locked == Bool(true), q.hidden == Bool(true)))
      case None => None
  }

  // ------------------------------------------------------------ the whole

  /** The record the converter builds, before the empty check. */
  function Attributes(s: ExcelStyle, readonly: bool, p: Parsers): (r: Style)
    ensures r.bg == Background(s) && r.bd == (if s.border.Some? then BorderPart(s.border.value) else None)
    ensures r.n == NumberFormat(s) && r.protection == ProtectionPart(s, readonly)
    ensures r.richText == RichTextPart(s, p)
    ensures s.font.Some? ==> r.fs == FontPart(s.font.value).fs && r.cl == FontPart(s.font.value).cl
    ensures s.font.None? ==> r.fs.None? && r.ff.None? && r.bl.None? && r.cl.None? && r.va.None?
    ensures s.alignment.Some? ==> r.ht == AlignmentPart(s.alignment.value).ht && r.vt == AlignmentPart(s.alignment.value).vt
    ensures s.alignment.None? ==> r.ht.None? && r.vt.None? && r.tb.None? && r.tr.None? && r.pd.None?
  {
    var font := if s.font.Some? then FontPart(s.font.value) else EmptyStyle;
    var align := if s.alignment.Some? then AlignmentPart(s.alignment.value) else EmptyStyle;
    var rest := EmptyStyle.(
      bg := Background(s),
      bd := if s.border.Some? then BorderPart(s.border.value) else None,
      n := NumberFormat(s),
      protection := ProtectionPart(s, readonly),
      richText := RichTextPart(s, p));
    Overlay(font, Overlay(align, rest))
  }

  /** `convertExcelStyleToUniver`: `null` for a missing style or when no key was set. */
  function ConvertExcelStyle(style: Option<ExcelStyle>, readonly: bool, p: Parsers): (r: Option<Style>)
    ensures style.None? ==> r.None?
    ensures r.Some? ==> r.value != EmptyStyle && r.value == Attributes(style.value, readonly, p)
    ensures style.Some? && readonly ==> r.Some? && r.value.protection == Some(Protection(true, false))
  {
    match style
    case None => None
    case Some(s) =>
      var a := Attributes(s, readonly, p);
      if a == EmptyStyle then None else Some(a)
  }

  /** Some key of the style sets an attribute (independent of how the record is assembled). */
  predicate SetsSomething(s: ExcelStyle, readonly: bool, p: Parsers) {
    || readonly
    || s.protection.Some?
    || RichTextPart(s, p).Some?
    || (s.font.Some? && var f := s.font.value;
          Truthy(f.sz) || Truthy(f.name) || Truthy(f.bold) || Truthy(f.italic) || Truthy(f.underline) ||
          Truthy(f.strike) || f.color.Some? || f.vertAlign == Str("superscript") || f.vertAlign == Str("subscript"))
    || Background(s).Some?
    || (s.alignment.Some? && var a := s.alignment.value;
          HorizontalCode(a.horizontal).Some? || VerticalCode(a.vertical).Some? ||
          Truthy(a.wrapText) || Truthy(a.textRotation) || Truthy(a.indent))
    || (s.border.Some? && !(s.border.value.top.None? && s.border.value.bottom.None? &&
                            s.border.value.left.None? && s.border.value.right.None?))
    || s.numFmt != [] || s.numberFormat != []
  }

  /** A present style converts to `null` exactly when none of its keys sets anything. */
  lemma NullIffNothingSet(s: ExcelStyle, readonly: bool, p: Parsers)
    ensures ConvertExcelStyle(Some(s), readonly, p).None? <==> !SetsSomething(s, readonly, p)
  {
    var a := Attributes(s, readonly, p);
    if s.font.Some? {
      var f := FontPart(s.font.value);
      assert a.ff == f.ff && a.bl == f.bl && a.it == f.it && a.ul == f.ul && a.st == f.st && a.va == f.va;
    }
    if s.alignment.Some? {
      var al := AlignmentPart(s.alignment.value);
      assert a.tb == al.tb && a.tr == al.tr && a.pd == al.pd;
    }
  }
}
