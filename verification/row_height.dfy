/**
 * The row-height estimator: how many lines a cell's text needs in a column,
 * the height a row of cells asks for, and how explicit row heights from the
 * workbook are merged with the estimated ones.
 */
module RowHeight {
  import opened Wrappers
  import opened JsText
  import opened JsNumber
  import opened Model

  datatype Config = Config(
    baseHeight: real,
    minHeight: real,
    maxHeight: real,
    chineseMultiplier: real,
    multiLineMultiplier: real,
    longTextMultiplier: real,
    longTextThreshold: real)

  /** Base 23, between 20 and 300, CJK ×1.2, long text above 25 characters. */
  const DefaultConfig: Config := Config(23.0, 20.0, 300.0, 1.2, 2.2, 1.8, 25.0)

  const HoleColumnWidth: real := 150.0
  const DefaultFontSize: real := 12.0

  /** Estimated width of a text: CJK characters at 1.1 × font size, the rest at 0.6 ×. */
  function TextWidth(text: string, fontSize: real): (w: real)
    requires fontSize >= 0.0
    ensures w >= 0.0
  {
    var cjk := CountCjk(text);
    cjk as real * (fontSize * 1.1) + (|text| - cjk) as real * (fontSize * 0.6)
  }

  /** The width left for text after 10 pixels of padding, never below 50. */
  function UsableWidth(columnWidth: real): (u: real)
    ensures u >= 50.0 && u >= columnWidth - 10.0
  {
    MaxReal(50.0, columnWidth - 10.0)
  }

  /** `estimateTextLines` with the default font size. */
  function EstimateLines(text: string, columnWidth: real): (r: int)
    ensures text == [] ==> r == 1
    ensures r >= 1
    ensures text != [] ==> r >= |SplitLines(text)|
    ensures text != [] ==> r >= Ceil(TextWidth(text, DefaultFontSize) / UsableWidth(columnWidth))
  {
    if text == [] then 1
    else
      var estimated := Ceil(TextWidth(text, DefaultFontSize) / UsableWidth(columnWidth));
      var explicit := |SplitLines(text)|;
      Max(1, Max(estimated, explicit))
  }

  lemma CeilMonotone(x: real, y: real)
    requires x <= y
    ensures Ceil(x) <= Ceil(y)
  {
  }

  /** A wider column never needs more lines. */
  lemma EstimateLinesMonotone(text: string, narrow: real, wide: real)
    requires narrow <= wide
    ensures EstimateLines(text, wide) <= EstimateLines(text, narrow)
  {
    if text != [] {
      var w := TextWidth(text, DefaultFontSize);
      var un := UsableWidth(narrow);
      var uw := UsableWidth(wide);
      assert un <= uw;
      assert w / uw <= w / un by {
        DivideByLarger(w, un, uw);
      }
      CeilMonotone(w / uw, w / un);
    }
  }

  lemma DivideByLarger(w: real, a: real, b: real)
    requires w >= 0.0 && 0.0 < a <= b
    ensures w / b <= w / a
  {
    assert w / b * b == w;
    assert w / a * a == w;
    if w / b > w / a {
      assert false;
    }
  }

  /** What a row's estimate looks at in one cell: nothing for a falsy value, else its text. */
  predicate HasContent(v: Value) {
    Truthy(v)
  }

  /** The width of column `i`: the given one when present and non-zero, else 150. */
  function ColumnWidth(widths: seq<real>, i: int): (w: real)
    ensures 0 <= i < |widths| && widths[i] != 0.0 ==> w == widths[i]
    ensures !(0 <= i < |widths| && widths[i] != 0.0) ==> w == HoleColumnWidth
  {
    if 0 <= i < |widths| && widths[i] != 0.0 then widths[i] else HoleColumnWidth
  }

  /** The largest line estimate over the content cells of `row[from..]` (1 when there is none). */
  function MaxEstimatedLines(row: seq<Value>, widths: seq<real>, from: nat): (r: int)
    requires from <= |row|
    ensures r >= 1
    ensures forall i | from <= i < |row| && HasContent(row[i]) :: r >= EstimateLines(ValueText(row[i]), ColumnWidth(widths, i))
    ensures r == 1 || exists i | from <= i < |row| && HasContent(row[i]) :: r == EstimateLines(ValueText(row[i]), ColumnWidth(widths, i))
    decreases |row| - from
  {
    if from == |row| then 1
    else
      var rest := MaxEstimatedLines(row, widths, from + 1);
      if HasContent(row[from]) then Max(rest, EstimateLines(ValueText(row[from]), ColumnWidth(widths, from)))
      else rest
  }

  /** Some content cell of the row contains a U+4E00..U+9FFF character. */
  predicate AnyCjk(row: seq<Value>) {
    exists i | 0 <= i < |row| :: HasContent(row[i]) && HasCjk(ValueText(row[i]))
  }

  /** Clamped into [min, max] after rounding; the lower bound wins if the two cross. */
  function ClampHeight(h: real, c: Config): (r: real)
    ensures r >= c.minHeight
    ensures c.minHeight <= c.maxHeight ==> r <= c.maxHeight
    ensures c.minHeight <= Round(h) as real <= c.maxHeight ==> r == Round(h) as real
  {
    MaxReal(c.minHeight, MinReal(c.maxHeight, Round(h) as real))
  }

  /** The estimate of `calculateRowHeightWithColumns` from the row's largest line count and its CJK flag. */
  function LinesHeight(lines: int, cjk: bool, c: Config): (h: real)
    ensures h >= c.baseHeight
    ensures lines > 1 ==> h >= c.baseHeight * lines as real * 1.1
    ensures cjk ==> h >= c.baseHeight * c.chineseMultiplier
    ensures lines <= 1 && !cjk ==> h == c.baseHeight
  {
    var h1 := if lines > 1 then MaxReal(c.baseHeight, c.baseHeight * lines as real * 1.1) else c.baseHeight;
    if cjk then MaxReal(h1, c.baseHeight * c.chineseMultiplier) else h1
  }

  /** `calculateRowHeightWithColumns`: an empty row gets the base height; any other the clamped estimate. */
  function RowHeightWithColumns(row: seq<Value>, c: Config, widths: seq<real>): (r: real)
    ensures row == [] ==> r == c.baseHeight
    ensures row != [] ==> r >= c.minHeight
    ensures row != [] && c.minHeight <= c.maxHeight ==> r <= c.maxHeight
    ensures row != [] ==> r == ClampHeight(LinesHeight(MaxEstimatedLines(row, widths, 0), AnyCjk(row), c), c)
  {
    if row == [] then c.baseHeight
    else ClampHeight(LinesHeight(MaxEstimatedLines(row, widths, 0), AnyCjk(row), c), c)
  }

  /** With the default configuration, a row of one-line, CJK-free cells gets height 23. */
  lemma SingleLineRowDefaultHeight(row: seq<Value>, widths: seq<real>)
    requires row != []
    requires forall i | 0 <= i < |row| && HasContent(row[i]) :: EstimateLines(ValueText(row[i]), ColumnWidth(widths, i)) == 1
    requires !AnyCjk(row)
    ensures RowHeightWithColumns(row, DefaultConfig, widths) == 23.0
  {
    var lines := MaxEstimatedLines(row, widths, 0);
    assert lines == 1;
    assert Round(23.0) == 23;
  }

  // ------------------------------------------------------ calculateRowHeight

  /** The longest text among the content cells (0 when there is none). */
  function MaxTextLength(row: seq<Value>): (r: nat)
    ensures forall i | 0 <= i < |row| && HasContent(row[i]) :: r >= |ValueText(row[i])|
    ensures r == 0 || exists i | 0 <= i < |row| && HasContent(row[i]) :: r == |ValueText(row[i])|
  {
    if |row| == 0 then 0
    else
      var rest := MaxTextLength(row[1..]);
      assert forall i | 1 <= i < |row| :: row[1..][i - 1] == row[i];
      if HasContent(row[0]) && |ValueText(row[0])| > rest then |ValueText(row[0])| else rest
  }

  /** The largest number of `\r?\n`-separated lines among the content cells (at least 1). */
  function MaxLineCount(row: seq<Value>): (r: nat)
    ensures r >= 1
    ensures forall i | 0 <= i < |row| && HasContent(row[i]) :: r >= |SplitLines(ValueText(row[i]))|
    ensures r == 1 || exists i | 0 <= i < |row| && HasContent(row[i]) :: r == |SplitLines(ValueText(row[i]))|
  {
    if |row| == 0 then 1
    else
      var rest := MaxLineCount(row[1..]);
      assert forall i | 1 <= i < |row| :: row[1..][i - 1] == row[i];
      if HasContent(row[0]) && |SplitLines(ValueText(row[0]))| > rest then |SplitLines(ValueText(row[0]))| else rest
  }

  /** Some content cell holds a line feed or a carriage return. */
  predicate AnyMultiLine(row: seq<Value>) {
    exists i | 0 <= i < |row| :: HasContent(row[i]) && ('\n' in ValueText(row[i]) || '\r' in ValueText(row[i]))
  }

  /** The multi-line or long-text estimate of `calculateRowHeight`. */
  function ContentHeight(multi: bool, lines: nat, len: nat, c: Config): (h: real)
    ensures h >= c.baseHeight
    ensures multi ==> h >= c.baseHeight * lines as real
    ensures !multi && len as real > c.longTextThreshold ==>
      h >= c.baseHeight * MinReal(3.0, 1.0 + len as real / 100.0)
    ensures !multi && len as real > c.longTextThreshold && len > 100 ==> h >= c.baseHeight * 2.5
    ensures !multi && len as real > c.longTextThreshold && len > 200 ==> h >= c.baseHeight * 3.5
    ensures !multi && len as real <= c.longTextThreshold ==> h == c.baseHeight
  {
    if multi then MaxReal(c.baseHeight, c.baseHeight * lines as real)
    else if len as real > c.longTextThreshold then
      var a := MaxReal(c.baseHeight, c.baseHeight * MinReal(3.0, 1.0 + len as real / 100.0));
      var b := if len > 100 then MaxReal(a, c.baseHeight * 2.5) else a;
      if len > 200 then MaxReal(b, c.baseHeight * 3.5) else b
    else c.baseHeight
  }

  /** The CJK adjustment of `calculateRowHeight`. */
  function CjkHeight(h1: real, cjk: bool, len: nat, c: Config): (h: real)
    ensures h >= h1
    ensures cjk ==> h >= c.baseHeight * c.chineseMultiplier
    ensures cjk && len > 20 ==> h >= c.baseHeight * 1.5
    ensures !cjk ==> h == h1
  {
    if cjk then
      var h2 := MaxReal(h1, c.baseHeight * c.chineseMultiplier);
      if len > 20 then MaxReal(h2, c.baseHeight * 1.5) else h2
    else h1
  }

  /** What `calculateRowHeight` gathers from a row's content cells. */
  datatype RowSummary = RowSummary(multiLine: bool, maxLines: nat, maxLength: nat, cjk: bool)

  function Summarize(row: seq<Value>): (s: RowSummary)
    ensures s.multiLine == AnyMultiLine(row) && s.cjk == AnyCjk(row)
    ensures s.maxLines == MaxLineCount(row) && s.maxLength == MaxTextLength(row)
  {
    RowSummary(AnyMultiLine(row), MaxLineCount(row), MaxTextLength(row), AnyCjk(row))
  }

  /** The height before clamping in `calculateRowHeight`. */
  function HeightBeforeClamp(s: RowSummary, c: Config): (h: real)
    ensures h >= c.baseHeight
    ensures s.multiLine ==> h >= c.baseHeight * s.maxLines as real
    ensures s.cjk ==> h >= c.baseHeight * c.chineseMultiplier
    ensures s.cjk && s.maxLength > 20 ==> h >= c.baseHeight * 1.5
    ensures !s.multiLine && s.maxLength as real > c.longTextThreshold && s.maxLength > 200 ==> h >= c.baseHeight * 3.5
    ensures !s.multiLine && s.maxLength as real <= c.longTextThreshold && !s.cjk ==> h == c.baseHeight
  {
    var h1 := ContentHeight(s.multiLine, s.maxLines, s.maxLength, c);
    var h := CjkHeight(h1, s.cjk, s.maxLength, c);
    ContentFloorsKept(s, c, h1, h);
    h
  }

  /** The floors of the content estimate survive the CJK adjustment. */
  lemma ContentFloorsKept(s: RowSummary, c: Config, h1: real, h: real)
    requires h1 == ContentHeight(s.multiLine, s.maxLines, s.maxLength, c) && h == CjkHeight(h1, s.cjk, s.maxLength, c)
    ensures h >= c.baseHeight
    ensures s.multiLine ==> h >= c.baseHeight * s.maxLines as real
    ensures !s.multiLine && s.maxLength as real > c.longTextThreshold && s.maxLength > 200 ==> h >= c.baseHeight * 3.5
    ensures !s.multiLine && s.maxLength as real <= c.longTextThreshold && !s.cjk ==> h == c.baseHeight
  {
  }

  /** `calculateRowHeight`: an empty row gets the base height; any other the clamped estimate. */
  function CalculateRowHeight(row: seq<Value>, c: Config): (r: real)
    ensures row == [] ==> r == c.baseHeight
    ensures row != [] ==> r >= c.minHeight
    ensures row != [] && c.minHeight <= c.maxHeight ==> r <= c.maxHeight
    ensures row != [] ==> r == ClampHeight(HeightBeforeClamp(Summarize(row), c), c)
  {
    if row == [] then c.baseHeight else ClampHeight(HeightBeforeClamp(Summarize(row), c), c)
  }

  /** With a positive base, CJK text longer than 20 characters lifts the row strictly above its base height before clamping. */
  lemma LongCjkRaisesHeight(row: seq<Value>, c: Config)
    requires c.baseHeight > 0.0 && AnyCjk(row) && MaxTextLength(row) > 20
    ensures HeightBeforeClamp(Summarize(row), c) > c.baseHeight
  {
  }

  // ---------------------------------------------------------- merging

  /** A row's properties from the workbook; numbers are 0 when absent. */
  datatype RowProps = RowProps(height: real, hpt: real, hpx: real, hidden: bool)

  /** The properties say something about the row. */
  predicate HasExplicit(p: Option<RowProps>) {
    p.Some? && (p.value.height != 0.0 || p.value.hpt != 0.0 || p.value.hpx != 0.0 || p.value.hidden)
  }

  /** The explicit height: `hpx` if set, else `hpt` points in pixels, else `height`, else the base 23. */
  function ExplicitHeight(p: RowProps): (h: real)
    ensures p.hpx != 0.0 ==> h == p.hpx
    ensures p.hpx == 0.0 && p.hpt != 0.0 ==> h == Round(p.hpt * 1.33) as real
    ensures p.hpx == 0.0 && p.hpt == 0.0 && p.height != 0.0 ==> h == p.height
    ensures p.hpx == 0.0 && p.hpt == 0.0 && p.height == 0.0 ==> h == DefaultConfig.baseHeight
  {
    if p.hpt != 0.0 && p.hpx == 0.0 then Round(p.hpt * 1.33) as real
    else if p.hpx != 0.0 then p.hpx
    else if p.height != 0.0 then p.height
    else DefaultConfig.baseHeight
  }

  /** The merged entry for row `index` with explicit properties `p`. */
  function MergedEntry(p: RowProps, index: nat, data: seq<seq<Value>>): (e: RowInfo)
    ensures e.h == e.ah && (e.hd == 1 <==> p.hidden) && (e.hd == 0 <==> !p.hidden)
    ensures e.h >= ExplicitHeight(p)
    ensures index < |data| ==> e.h == MaxReal(ExplicitHeight(p), CalculateRowHeight(data[index], DefaultConfig))
    ensures index >= |data| ==> e.h == ExplicitHeight(p)
  {
    var h := if index < |data| then MaxReal(ExplicitHeight(p), CalculateRowHeight(data[index], DefaultConfig))
             else ExplicitHeight(p);
    RowInfo(h, if p.hidden then 1 else 0, h)
  }

  /** The `forEach` over the row properties from `index` on, updating `acc`. */
  function MergeFrom(props: seq<Option<RowProps>>, index: nat, acc: map<int, RowInfo>, data: seq<seq<Value>>): (r: map<int, RowInfo>)
    requires index <= |props|
    ensures forall k | index <= k < |props| && HasExplicit(props[k]) :: k in r && r[k] == MergedEntry(props[k].value, k, data)
    ensures forall k | k in acc && !(index <= k < |props| && HasExplicit(props[k])) :: k in r && r[k] == acc[k]
    ensures forall k | k in r :: k in acc || (index <= k < |props| && HasExplicit(props[k]))
    decreases |props| - index
  {
    if index == |props| then acc
    else
      var acc' := if HasExplicit(props[index]) then acc[index := MergedEntry(props[index].value, index, data)] else acc;
      MergeFrom(props, index + 1, acc', data)
  }

  /**
   * `mergeRowHeights`: rows with explicit properties get the larger of their
   * explicit and content heights; every other calculated row is kept.
   */
  function MergeRowHeights(props: seq<Option<RowProps>>, calculated: map<int, RowInfo>, data: seq<seq<Value>>): (r: map<int, RowInfo>)
    ensures forall k | 0 <= k < |props| && HasExplicit(props[k]) :: k in r && r[k] == MergedEntry(props[k].value, k, data)
    ensures forall k | k in calculated && !(0 <= k < |props| && HasExplicit(props[k])) :: k in r && r[k] == calculated[k]
    ensures r.Keys == calculated.Keys + set k | 0 <= k < |props| && HasExplicit(props[k])
  {
    MergeFrom(props, 0, calculated, data)
  }

  /** `calculateAllRowHeights`: one visible entry per row, with `h == ah` the row's calculated height. */
  function CalculateAllRowHeights(data: seq<seq<Value>>, c: Config): (r: map<int, RowInfo>)
    ensures forall i :: i in r <==> 0 <= i < |data|
    ensures forall i | 0 <= i < |data| :: r[i].hd == 0 && r[i].h == r[i].ah == CalculateRowHeight(data[i], c)
  {
    map i | 0 <= i < |data| :: RowInfo(CalculateRowHeight(data[i], c), 0, CalculateRowHeight(data[i], c))
  }

  /** `hasChineseContent`: some non-empty string cell contains a U+4E00..U+9FFF character. */
  function HasChineseContent(data: seq<seq<Value>>): (r: bool)
    ensures r <==> exists i, j | 0 <= i < |data| && 0 <= j < |data[i]| :: data[i][j].Str? && HasCjk(data[i][j].s)
  {
    if |data| == 0 then false
    else
      assert forall i | 1 <= i < |data| :: data[1..][i - 1] == data[i];
      RowHasCjk(data[0]) || HasChineseContent(data[1..])
  }

  function RowHasCjk(row: seq<Value>): (r: bool)
    ensures r <==> exists j | 0 <= j < |row| :: row[j].Str? && HasCjk(row[j].s)
  {
    if |row| == 0 then false
    else
      assert forall j | 1 <= j < |row| :: row[1..][j - 1] == row[j];
      (row[0].Str? && HasCjk(row[0].s)) || RowHasCjk(row[1..])
  }
}
