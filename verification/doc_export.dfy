/**
 * The document exporter (utils-export-docx.ts): a document model turned
 * into the paragraphs, runs and page settings a `.docx` writer consumes.
 * Paragraph text is the stream between consecutive `'\r'` markers, styled
 * pieces come from the runs that overlap the paragraph, and sizes are
 * converted to twentieths of a point.
 */
module DocExport {
  import opened Wrappers
  import opened JsText
  import opened JsNumber
  import opened Model
  import opened Sorting
  import DocImport

  // ------------------------------------------------------------ output records

  /** A `.docx` text run: its text and the options that were set. */
  datatype DocxRun = DocxRun(
    text: string,
    font: Option<string>,
    size: Option<Num>,
    color: Option<string>,
    bold: bool,
    italics: bool,
    underline: bool,
    strike: bool,
    superScript: bool,
    subScript: bool,
    shading: Option<string>)

  datatype Alignment = AlignLeft | AlignCenter | AlignRight | AlignJustified

  /** A heading level: the title, or heading 1..6. */
  datatype Heading = TitleHeading | HeadingN(level: int)

  /** Alignment, heading, spacing (twips; line in 240ths) and indentation (twips). */
  datatype ParaFormat = ParaFormat(
    alignment: Option<Alignment>,
    heading: Option<Heading>,
    before: real,
    after: real,
    line: Option<real>,
    indentLeft: real,
    indentRight: real,
    firstLine: real)

  /** A paragraph; `format` is absent for the bare paragraphs built from text alone. */
  datatype DocxParagraph = DocxParagraph(runs: seq<DocxRun>, format: Option<ParaFormat>)

  /** Page size and margins in twips. */
  datatype DocxPage = DocxPage(width: real, height: real, top: real, bottom: real, left: real, right: real)

  datatype DocxDocument = DocxDocument(page: DocxPage, paragraphs: seq<DocxParagraph>)

  function PlainRun(text: string): (r: DocxRun)
    ensures r.text == text
  {
    DocxRun(text, None, None, None, false, false, false, false, false, false, None)
  }

  /** `new Paragraph({ children: [new TextRun('')] })`. */
  const BlankParagraph: DocxParagraph := DocxParagraph([PlainRun("")], None)

  /** The text of a run sequence, in order; `JoinedAppend` states how it grows by one run. */
  function Joined(rs: seq<DocxRun>): (r: string)
    ensures |rs| == 1 ==> r == rs[0].text
    decreases |rs|
  {
    if |rs| == 0 then [] else Joined(rs[..|rs| - 1]) + rs[|rs| - 1].text
  }

  function ParagraphText(p: DocxParagraph): string {
    Joined(p.runs)
  }

  function StartOf(p: Paragraph): int {
    p.startIndex
  }

  function StOf(r: TextRun): int {
    r.st
  }

  // ------------------------------------------------------------ run styles

  /**
   * `convertColor` followed by the caller's truthiness check: the colour
   * text without its first `#`, upper-cased; `None` when the colour is
   * falsy, has no `rgb`, or is nothing but `#` (the empty result is falsy).
   */
  function DocxColor(c: ColorRef): (r: Option<string>)
    ensures c.ColorString? ==> (r.Some? <==> c.text != [] && c.text != "#")
    ensures c.ColorObj? ==> (r.Some? <==> c.rgb != [] && c.rgb != "#")
    ensures r.Some? ==> r.value != []
    ensures c.ColorString? && |c.text| > 1 && c.text[0] == '#' ==> r == Some(ToUpper(c.text[1..]))
    ensures c.ColorObj? && |c.rgb| > 1 && c.rgb[0] == '#' ==> r == Some(ToUpper(c.rgb[1..]))
  {
    var t := match c case ColorString(t) => t case ColorObj(rgb, _) => rgb;
    var u := ToUpper(RemoveFirst(t, '#'));
    HashDropped(t);
    if u == [] then None else Some(u)
  }

  /** Removing the first `#` leaves nothing exactly for `""` and `"#"`, and drops a leading `#`. */
  lemma HashDropped(t: string)
    ensures RemoveFirst(t, '#') == [] <==> t == [] || t == "#"
    ensures t != [] && t[0] == '#' ==> RemoveFirst(t, '#') == t[1..]
  {
    RemoveLeading(t, '#');
    if |t| == 1 && '#' in t {
      assert t[0] == '#';
    }
  }

  /** An optional colour field converted, absent when missing or when the conversion gives nothing. */
  function ColorField(o: Option<ColorRef>): (r: Option<string>)
    ensures o.None? ==> r.None?
    ensures o.Some? ==> r == DocxColor(o.value)
  {
    match o
    case None => None
    case Some(c) => DocxColor(c)
  }

  /** Word sizes are half-points. */
  function HalfPoints(n: Num): Num {
    match n
    case Finite(x) => Finite(x * 2.0)
    case _ => n
  }

  predicate NumTruthy(n: Num) {
    n.PosInf? || n.NegInf? || (n.Finite? && n.value != 0.0)
  }

  /** The options of a styled run. */
  function StyledRun(text: string, ts: Style): (r: DocxRun)
    ensures r.text == text
    ensures r.font.Some? <==> ts.ff.Some? && ts.ff.value != []
    ensures r.bold <==> ts.bl == Some(1)
    ensures r.italics <==> ts.it == Some(1)
    ensures r.underline <==> ts.ul.Some?
    ensures r.strike <==> ts.st.Some? && ts.st.value.s != 0
    ensures r.superScript <==> ts.va == Some(1) || ts.va == Some(3)
    ensures r.subScript <==> ts.va == Some(2)
    ensures ts.fs.Some? && ts.fs.value.Finite? && ts.fs.value.value != 0.0 ==> r.size == Some(Finite(2.0 * ts.fs.value.value))
    ensures ts.fs.None? || ts.fs.value == Finite(0.0) || ts.fs.value == NaN ==> r.size.None?
    ensures r.color == ColorField(ts.cl) && r.shading == ColorField(ts.bg)
  {
    DocxRun(text,
            if ts.ff.Some? && ts.ff.value != [] then ts.ff else None,
            if ts.fs.Some? && NumTruthy(ts.fs.value) then Some(HalfPoints(ts.fs.value)) else None,
            ColorField(ts.cl),
            ts.bl == Some(1),
            ts.it == Some(1),
            ts.ul.Some?,
            ts.st.Some? && ts.st.value.s != 0,
            ts.va == Some(1) || ts.va == Some(3),
            ts.va == Some(2),
            ColorField(ts.bg))
  }

  /** The marks the HTML importer sets for an inline tag come out as the matching run option. */
  lemma TagMarksExported(tag: string, text: string)
    ensures tag in {"strong", "b"} ==> StyledRun(text, DocImport.TagMarks(tag, EmptyStyle)).bold
    ensures tag in {"em", "i"} ==> StyledRun(text, DocImport.TagMarks(tag, EmptyStyle)).italics
    ensures tag == "u" ==> StyledRun(text, DocImport.TagMarks(tag, EmptyStyle)).underline
    ensures tag in {"s", "strike", "del"} ==> StyledRun(text, DocImport.TagMarks(tag, EmptyStyle)).strike
    ensures tag == "sup" ==> StyledRun(text, DocImport.TagMarks(tag, EmptyStyle)).superScript
    ensures tag == "sub" ==> StyledRun(text, DocImport.TagMarks(tag, EmptyStyle)).subScript
    ensures StyledRun(text, DocImport.TagMarks(tag, EmptyStyle)).font.None?
  {
  }

  // ------------------------------------------------------------ text runs

  /** The pieces produced so far and the end of the text they cover. */
  datatype Cursor = Cursor(out: seq<DocxRun>, lastEnd: int)

  /**
   * One run of `convertTextRuns`: the unstyled gap before it, then its
   * clipped text. `advance` says whether an empty clipped run still moves
   * the cursor past the gap it emitted; the source does not.
   */
  function RunStep(para: string, run: TextRun, base: int, c: Cursor, advance: bool): Cursor {
    var start := Clamp(run.st - base, 0, |para|);
    var end := Clamp(run.ed - base, 0, |para|);
    var out := WithGap(para, c, start);
    var text := Substring(para, start, end);
    if text == [] then Cursor(out, if advance && start > c.lastEnd then start else c.lastEnd)
    else Cursor(out + [StyledRun(text, run.ts)], end)
  }

  /** The pieces with the unstyled text from the cursor up to `start`, when there is any. */
  function WithGap(para: string, c: Cursor, start: int): seq<DocxRun> {
    if start > c.lastEnd then c.out + [PlainRun(Substring(para, c.lastEnd, start))] else c.out
  }

  /** The gap brings the pieces up to `start`. */
  lemma GapCovers(para: string, c: Cursor, start: int)
    requires Covers(para, c) && c.lastEnd <= start <= |para|
    ensures Joined(WithGap(para, c, start)) == para[..start]
  {
    if start > c.lastEnd {
      JoinedAppend(c.out, PlainRun(para[c.lastEnd..start]));
      assert para[..c.lastEnd] + para[c.lastEnd..start] == para[..start];
    }
  }

  function Steps(para: string, runs: seq<TextRun>, base: int, c: Cursor, advance: bool): Cursor
    decreases |runs|
  {
    if |runs| == 0 then c else Steps(para, runs[1..], base, RunStep(para, runs[0], base, c, advance), advance)
  }

  /** The unstyled tail, and the whole text as one piece when nothing was produced. */
  function Finish(para: string, c: Cursor): (r: seq<DocxRun>)
    ensures |r| >= 1
  {
    var out := if c.lastEnd < |para| then c.out + [PlainRun(SubstringFrom(para, c.lastEnd))] else c.out;
    if |out| > 0 then out else [PlainRun(para)]
  }

  function ConvertRuns(para: string, runs: seq<TextRun>, base: int, advance: bool): seq<DocxRun> {
    if |runs| == 0 then [PlainRun(para)]
    else Finish(para, Steps(para, SortBy(runs, StOf), base, Cursor([], 0), advance))
  }

  /** `convertTextRuns` as written. */
  function TextRunsAsWritten(para: string, runs: seq<TextRun>, base: int): (r: seq<DocxRun>)
    ensures |r| >= 1
  {
    ConvertRuns(para, runs, base, false)
  }

  /** `convertTextRuns` with the cursor moved past every gap it emitted. */
  function TextRuns(para: string, runs: seq<TextRun>, base: int): (r: seq<DocxRun>)
    ensures |r| >= 1
  {
    ConvertRuns(para, runs, base, true)
  }

  /** Runs in order, each with `st <= ed`, none overlapping a later one. */
  predicate Chained(runs: seq<TextRun>) {
    (forall k | 0 <= k < |runs| :: runs[k].st <= runs[k].ed)
    && (forall j, k | 0 <= j < k < |runs| :: runs[j].ed <= runs[k].st)
  }

  lemma JoinedAppend(rs: seq<DocxRun>, x: DocxRun)
    ensures Joined(rs + [x]) == Joined(rs) + x.text
  {
    assert (rs + [x])[..|rs|] == rs;
  }

  /** The cursor invariant: the pieces spell out the text up to `lastEnd`. */
  predicate Covers(para: string, c: Cursor) {
    0 <= c.lastEnd <= |para| && Joined(c.out) == para[..c.lastEnd]
  }

  /** One step of the corrected conversion keeps the invariant and does not go back. */
  lemma StepCovers(para: string, run: TextRun, base: int, c: Cursor)
    requires Covers(para, c)
    requires run.st <= run.ed
    requires Clamp(run.st - base, 0, |para|) >= c.lastEnd
    ensures var d := RunStep(para, run, base, c, true);
      Covers(para, d) && d.lastEnd >= c.lastEnd
      && d.lastEnd <= Clamp(run.ed - base, 0, |para|)
  {
    var start := Clamp(run.st - base, 0, |para|);
    var end := Clamp(run.ed - base, 0, |para|);
    var out := WithGap(para, c, start);
    GapCovers(para, c, start);
    var text := Substring(para, start, end);
    assert text == para[start..end];
    if text != [] {
      AppendCovers(para, out, start, end, StyledRun(text, run.ts));
    }
  }

  /** Pieces spelling the text up to `start`, followed by a piece holding `[start, end)`, spell it up to `end`. */
  lemma AppendCovers(para: string, out: seq<DocxRun>, start: int, end: int, x: DocxRun)
    requires 0 <= start <= end <= |para|
    requires Joined(out) == para[..start] && x.text == para[start..end]
    ensures Joined(out + [x]) == para[..end]
  {
    JoinedAppend(out, x);
    assert para[..start] + para[start..end] == para[..end];
  }

  /** The corrected fold over chained runs keeps the invariant to the end. */
  lemma {:induction false} StepsCover(para: string, runs: seq<TextRun>, base: int, c: Cursor)
    requires Covers(para, c)
    requires Chained(runs)
    requires forall k | 0 <= k < |runs| :: Clamp(runs[k].st - base, 0, |para|) >= c.lastEnd
    ensures Covers(para, Steps(para, runs, base, c, true))
    decreases |runs|
  {
    if |runs| > 0 {
      var d := RunStep(para, runs[0], base, c, true);
      StepCovers(para, runs[0], base, c);
      forall k | 0 <= k < |runs[1..]|
        ensures Clamp(runs[1..][k].st - base, 0, |para|) >= d.lastEnd
      {
        assert runs[0].ed <= runs[k + 1].st;
      }
      StepsCover(para, runs[1..], base, d);
    }
  }

  /** Chained runs are sorted by start. */
  lemma ChainedSorted(runs: seq<TextRun>)
    requires Chained(runs)
    ensures SortedBy(runs, StOf)
  {
    forall j, k | 0 <= j < k < |runs| ensures StOf(runs[j]) <= StOf(runs[k]) {
      assert runs[j].st <= runs[j].ed <= runs[k].st;
    }
  }

  /** With chained runs the corrected pieces spell out the paragraph text exactly. */
  lemma TextRunsSpellParagraph(para: string, runs: seq<TextRun>, base: int)
    requires Chained(runs)
    ensures Joined(TextRuns(para, runs, base)) == para
  {
    if |runs| > 0 {
      ChainedSorted(runs);
      assert Joined([]) == para[..0];
      StepsCover(para, runs, base, Cursor([], 0));
      var c := Steps(para, runs, base, Cursor([], 0), true);
      if c.lastEnd < |para| {
        JoinedAppend(c.out, PlainRun(para[c.lastEnd..]));
        assert para[..c.lastEnd] + para[c.lastEnd..] == para;
      } else {
        assert para[..c.lastEnd] == para;
      }
    }
  }

  /** Every run keeps some text after clipping. */
  predicate ClipsNonEmpty(para: string, runs: seq<TextRun>, base: int) {
    forall k | 0 <= k < |runs| :: Clamp(runs[k].st - base, 0, |para|) < Clamp(runs[k].ed - base, 0, |para|)
  }

  /** When no run clips to nothing, the source's fold and the corrected one agree. */
  lemma {:induction false} StepsAgree(para: string, runs: seq<TextRun>, base: int, c: Cursor)
    requires ClipsNonEmpty(para, runs, base)
    ensures Steps(para, runs, base, c, false) == Steps(para, runs, base, c, true)
    decreases |runs|
  {
    if |runs| > 0 {
      var start := Clamp(runs[0].st - base, 0, |para|);
      var end := Clamp(runs[0].ed - base, 0, |para|);
      assert Substring(para, start, end) == para[start..end];
      assert RunStep(para, runs[0], base, c, false) == RunStep(para, runs[0], base, c, true);
      StepsAgree(para, runs[1..], base, RunStep(para, runs[0], base, c, true));
    }
  }

  /** The source's conversion does spell the paragraph when the runs are chained and none clips to nothing. */
  lemma TextRunsAsWrittenSpell(para: string, runs: seq<TextRun>, base: int)
    requires Chained(runs) && ClipsNonEmpty(para, runs, base)
    ensures Joined(TextRunsAsWritten(para, runs, base)) == para
  {
    if |runs| > 0 {
      ChainedSorted(runs);
      StepsAgree(para, runs, base, Cursor([], 0));
    }
    TextRunsSpellParagraph(para, runs, base);
  }

  /** A bold style for the examples below. */
  const Bold: Style := EmptyStyle.(bl := Some(1))

  /** A bold run over `[0, 2)` and one over `[3, 4)`. */
  const GapRuns: seq<TextRun> := [TextRun(0, 2, Bold), TextRun(3, 4, Bold)]

  /** The source's fold over `"abc"` and the runs above: `"ab"` styled, then the gap `"c"`, cursor still at 2. */
  lemma GapSteps()
    ensures Steps("abc", GapRuns, 0, Cursor([], 0), false) == Cursor([StyledRun("ab", Bold), PlainRun("c")], 2)
  {
    var runs := GapRuns;
    var c1 := RunStep("abc", runs[0], 0, Cursor([], 0), false);
    assert "abc"[0..2] == "ab";
    assert c1 == Cursor([StyledRun("ab", Bold)], 2);
    var c2 := RunStep("abc", runs[1], 0, c1, false);
    assert "abc"[2..3] == "c";
    assert "abc"[3..3] == [];
    assert c2 == Cursor([StyledRun("ab", Bold), PlainRun("c")], 2);
    assert runs[1..][1..] == [];
    assert Steps("abc", runs[1..][1..], 0, c2, false) == c2;
    assert Steps("abc", runs[1..], 0, c1, false) == c2;
  }

  /**
   * The gap before a run that clips to nothing is emitted twice: in `"abc"`
   * a bold run over `[0, 2)` and one over `[3, 4)` (past the text, as when
   * a trailing `'\n'` was stripped) give `"ab"`, `"c"`, `"c"`.
   */
  lemma GapDuplicated()
    ensures var r := TextRunsAsWritten("abc", GapRuns, 0);
      |r| == 3 && r[0].text == "ab" && r[1].text == "c" && r[2].text == "c" && Joined(r) == "abcc"
  {
    GapPieces();
    SpellsThree(StyledRun("ab", Bold), PlainRun("c"), PlainRun("c"));
  }

  lemma SpellsThree(a: DocxRun, b: DocxRun, c: DocxRun)
    requires a.text == "ab" && b.text == "c" && c.text == "c"
    ensures Joined([a, b, c]) == "abcc"
  {
    JoinedThree(a, b, c);
  }

  lemma JoinedThree(a: DocxRun, b: DocxRun, c: DocxRun)
    ensures Joined([a, b, c]) == a.text + b.text + c.text
  {
    assert [a, b, c][..2] == [a, b];
    assert [a, b][..1] == [a];
  }

  lemma GapPieces()
    ensures TextRunsAsWritten("abc", GapRuns, 0) == [StyledRun("ab", Bold), PlainRun("c"), PlainRun("c")]
  {
    assert SortedBy(GapRuns, StOf);
    GapSteps();
    assert "abc"[2..] == "c";
  }

  /** The corrected conversion of the same runs spells `"abc"`. */
  lemma GapCorrected()
    ensures Joined(TextRuns("abc", GapRuns, 0)) == "abc"
  {
    TextRunsSpellParagraph("abc", GapRuns, 0);
  }

  // ------------------------------------------------------------ paragraphs

  /** `getParagraphAlignment`: 1 left, 2 centre, 3 right, 4 justified; 0 and absent give none. */
  function AlignmentOf(h: Option<int>): (r: Option<Alignment>)
    ensures r == Some(AlignLeft) <==> h == Some(1)
    ensures r == Some(AlignCenter) <==> h == Some(2)
    ensures r == Some(AlignRight) <==> h == Some(3)
    ensures r == Some(AlignJustified) <==> h == Some(4)
  {
    match h
    case None => None
    case Some(v) =>
      if v == 1 then Some(AlignLeft)
      else if v == 2 then Some(AlignCenter)
      else if v == 3 then Some(AlignRight)
      else if v == 4 then Some(AlignJustified)
      else None
  }

  /** `getParagraphHeading`: 1 is the title, 2..7 are headings 1..6. */
  function HeadingOf(n: Option<int>): (r: Option<Heading>)
    ensures r == Some(TitleHeading) <==> n == Some(1)
    ensures r.Some? && r.value.HeadingN? <==> n.Some? && 2 <= n.value <= 7
    ensures r.Some? && r.value.HeadingN? ==> 1 <= r.value.level <= 6 && n == Some(r.value.level + 1)
  {
    match n
    case None => None
    case Some(v) =>
      if v == 1 then Some(TitleHeading)
      else if 2 <= v <= 7 then Some(HeadingN(v - 1))
      else None
  }

  /** An `<hN>` element imported as a paragraph exports as heading N. */
  lemma HeadingRoundTrip(tag: string, level: int)
    requires 1 <= level <= 6 && tag == ['h', DigitChar(level as nat)]
    ensures var ps := DocImport.HeadingStyle(tag);
      ps.Some? && HeadingOf(ps.value.namedStyleType) == Some(HeadingN(level))
  {
    assert DigitChar(1) == '1' && DigitChar(2) == '2' && DigitChar(3) == '3';
    assert DigitChar(4) == '4' && DigitChar(5) == '5' && DigitChar(6) == '6';
  }

  /** A truthy measure times `factor`, else 0. */
  function Scaled(o: Option<real>, factor: real): (r: real)
    ensures o.Some? && o.value != 0.0 ==> r == o.value * factor
    ensures !(o.Some? && o.value != 0.0) ==> r == 0.0
  {
    if o.Some? && o.value != 0.0 then o.value * factor else 0.0
  }

  /** The paragraph options built from a paragraph style (`style || {}`). */
  function FormatOf(ps: Option<ParagraphStyle>): (r: ParaFormat)
    ensures ps.None? ==> r == ParaFormat(None, None, 0.0, 0.0, None, 0.0, 0.0, 0.0)
    ensures ps.Some? ==> r.alignment == AlignmentOf(ps.value.horizontalAlign) && r.heading == HeadingOf(ps.value.namedStyleType)
    ensures ps.Some? ==> r.before == Scaled(ps.value.spaceAbove, 20.0) && r.after == Scaled(ps.value.spaceBelow, 20.0)
    ensures ps.Some? ==> (r.line.Some? <==> ps.value.lineSpacing.Some? && ps.value.lineSpacing.value != 0.0)
    ensures ps.Some? && r.line.Some? ==> r.line.value == ps.value.lineSpacing.value * 240.0
    ensures ps.Some? ==> r.indentLeft == Scaled(ps.value.indentStart, 20.0) && r.indentRight == Scaled(ps.value.indentEnd, 20.0)
                         && r.firstLine == Scaled(ps.value.indentFirstLine, 20.0)
  {
    match ps
    case None => ParaFormat(None, None, 0.0, 0.0, None, 0.0, 0.0, 0.0)
    case Some(s) =>
      ParaFormat(AlignmentOf(s.horizontalAlign), HeadingOf(s.namedStyleType),
                 Scaled(s.spaceAbove, 20.0), Scaled(s.spaceBelow, 20.0),
                 if s.lineSpacing.Some? && s.lineSpacing.value != 0.0 then Some(s.lineSpacing.value * 240.0) else None,
                 Scaled(s.indentStart, 20.0), Scaled(s.indentEnd, 20.0), Scaled(s.indentFirstLine, 20.0))
  }

  /** A paragraph's range of the stream: from after the previous marker up to its own. */
  datatype Range = Range(start: int, end: int, style: Option<ParagraphStyle>)

  /** The ranges of the paragraphs in order: each ends at its own marker, carries its style, and starts just after the previous range's end. */
  function RangesOf(sorted: seq<Paragraph>): (r: seq<Range>)
    ensures |r| == |sorted|
    ensures |r| > 0 ==> r[0].start == 0
    ensures forall k | 0 < k < |r| :: r[k].start == r[k - 1].end + 1
    ensures forall k | 0 <= k < |r| :: r[k].end == sorted[k].startIndex && r[k].style == sorted[k].paragraphStyle
  {
    seq(|sorted|, k requires 0 <= k < |sorted| =>
      Range(if k == 0 then 0 else sorted[k - 1].startIndex + 1, sorted[k].startIndex, sorted[k].paragraphStyle))
  }

  /** One trailing `"\r\n"` and then one trailing `"\n"` removed. */
  function StripLineEnd(s: string): (r: string)
    ensures |r| <= |s| && r == s[..|r|]
    ensures '\n' !in s ==> r == s
  {
    assert EndsWith(s, "\r\n") ==> s[|s| - 1] == s[|s| - 2..][1] == '\n';
    var t := if EndsWith(s, "\r\n") then s[..|s| - 2] else s;
    assert EndsWith(t, "\n") ==> t[|t| - 1] == t[|t| - 1..][0] == '\n';
    if EndsWith(t, "\n") then t[..|t| - 1] else t
  }

  function RangeText(ds: string, range: Range): string {
    StripLineEnd(Substring(ds, range.start, range.end))
  }

  /** The runs that overlap `[start, end)`, in order. */
  function Overlapping(runs: seq<TextRun>, start: int, end: int): (r: seq<TextRun>)
    ensures |r| <= |runs|
    ensures forall x | x in r :: x in runs && x.ed > start && x.st < end
    ensures forall x | x in runs && x.ed > start && x.st < end :: x in r
    decreases |runs|
  {
    if |runs| == 0 then []
    else
      var rest := Overlapping(runs[1..], start, end);
      assert runs == [runs[0]] + runs[1..];
      if runs[0].ed > start && runs[0].st < end then [runs[0]] + rest else rest
  }

  lemma ChainedTail(runs: seq<TextRun>)
    requires |runs| > 0 && Chained(runs)
    ensures Chained(runs[1..])
    ensures forall x | x in runs[1..] :: runs[0].ed <= x.st
  {
    forall j, k | 0 <= j < k < |runs[1..]| ensures runs[1..][j].ed <= runs[1..][k].st {
      assert runs[j + 1].ed <= runs[k + 1].st;
    }
    forall x | x in runs[1..] ensures runs[0].ed <= x.st {
      var k :| 0 <= k < |runs[1..]| && runs[1..][k] == x;
      assert runs[k + 1] == x;
    }
  }

  lemma ChainedCons(a: TextRun, rest: seq<TextRun>)
    requires a.st <= a.ed && Chained(rest)
    requires forall x | x in rest :: a.ed <= x.st
    ensures Chained([a] + rest)
  {
    var r := [a] + rest;
    forall j, k | 0 <= j < k < |r| ensures r[j].ed <= r[k].st {
      if j == 0 {
        assert r[k] in rest;
      } else {
        assert r[j] == rest[j - 1] && r[k] == rest[k - 1];
      }
    }
  }

  /** A sub-sequence of chained runs is chained. */
  lemma {:induction false} OverlappingChained(runs: seq<TextRun>, start: int, end: int)
    requires Chained(runs)
    ensures Chained(Overlapping(runs, start, end))
    decreases |runs|
  {
    if |runs| > 0 {
      ChainedTail(runs);
      OverlappingChained(runs[1..], start, end);
      var rest := Overlapping(runs[1..], start, end);
      if runs[0].ed > start && runs[0].st < end {
        ChainedCons(runs[0], rest);
      }
    }
  }

  /** A paragraph with its styled pieces, written by the source's loop, and options. */
  function ParagraphOf(ds: string, runs: seq<TextRun>, range: Range): (r: DocxParagraph)
    ensures r.format == Some(FormatOf(range.style))
    ensures Overlapping(runs, range.start, range.end) == [] ==> r.runs == [PlainRun(RangeText(ds, range))]
    ensures Overlapping(runs, range.start, range.end) != [] ==>
      r.runs == TextRunsAsWritten(RangeText(ds, range), Overlapping(runs, range.start, range.end), range.start)
  {
    var text := RangeText(ds, range);
    var rs := Overlapping(runs, range.start, range.end);
    DocxParagraph(if |rs| > 0 then TextRunsAsWritten(text, rs, range.start) else [PlainRun(text)], Some(FormatOf(range.style)))
  }

  /** The same paragraph written with the corrected loop; it differs only in its pieces. */
  function CorrectedParagraphOf(ds: string, runs: seq<TextRun>, range: Range): (r: DocxParagraph)
    ensures r.format == ParagraphOf(ds, runs, range).format
    ensures Overlapping(runs, range.start, range.end) == [] ==> r == ParagraphOf(ds, runs, range)
  {
    var text := RangeText(ds, range);
    var rs := Overlapping(runs, range.start, range.end);
    DocxParagraph(if |rs| > 0 then TextRuns(text, rs, range.start) else [PlainRun(text)], Some(FormatOf(range.style)))
  }

  /** No run overlapping the range clips to nothing inside its text (the premise under which both loops agree). */
  predicate ClipsWithin(ds: string, runs: seq<TextRun>, range: Range) {
    ClipsNonEmpty(RangeText(ds, range), Overlapping(runs, range.start, range.end), range.start)
  }

  /** A paragraph before the last: blank when its text is empty. */
  function InnerParagraph(ds: string, runs: seq<TextRun>, range: Range): (r: DocxParagraph)
    ensures RangeText(ds, range) == [] <==> r == BlankParagraph
  {
    if RangeText(ds, range) == [] then BlankParagraph else ParagraphOf(ds, runs, range)
  }

  /** One paragraph per range, blank when empty, except that an empty last range is dropped. */
  function EmitRanges(ds: string, runs: seq<TextRun>, ranges: seq<Range>): (r: seq<DocxParagraph>)
    requires |ranges| > 0
    ensures |ranges| - 1 <= |r| <= |ranges|
    ensures |r| == |ranges| <==> RangeText(ds, ranges[|ranges| - 1]) != []
    ensures forall k | 0 <= k < |ranges| - 1 :: r[k] == InnerParagraph(ds, runs, ranges[k])
    ensures |r| == |ranges| ==> r[|ranges| - 1] == ParagraphOf(ds, runs, ranges[|ranges| - 1])
  {
    var n := |ranges|;
    var inner := seq(n - 1, k requires 0 <= k < n - 1 => InnerParagraph(ds, runs, ranges[k]));
    if RangeText(ds, ranges[n - 1]) == [] then inner
    else
      var last := ParagraphOf(ds, runs, ranges[n - 1]);
      assert (inner + [last])[n - 1] == last;
      inner + [last]
  }

  /** `convertParagraphs`: the ranges between markers in marker order, or the trimmed stream when there is no marker. */
  function ConvertParagraphs(ds: string, runs: seq<TextRun>, paras: seq<Paragraph>): (r: seq<DocxParagraph>)
    ensures |paras| == 0 ==> |r| <= 1 && (|r| == 1 <==> !AllSpace(DocImport.ReplaceCrLf(ds)))
    ensures |paras| > 0 ==> |paras| - 1 <= |r| <= |paras|
    ensures |paras| > 0 ==> r == EmitRanges(ds, runs, RangesOf(SortBy(paras, StartOf)))
  {
    if |paras| == 0 then
      var text := Trim(DocImport.ReplaceCrLf(ds));
      if text != [] then [DocxParagraph([PlainRun(text)], None)] else []
    else
      EmitRanges(ds, runs, RangesOf(SortBy(paras, StartOf)))
  }

  /** With the corrected loop, a paragraph built from chained runs spells out its range's text. */
  lemma CorrectedParagraphSpells(ds: string, runs: seq<TextRun>, range: Range)
    requires Chained(runs)
    ensures ParagraphText(CorrectedParagraphOf(ds, runs, range)) == RangeText(ds, range)
  {
    var rs := Overlapping(runs, range.start, range.end);
    if |rs| > 0 {
      OverlappingChained(runs, range.start, range.end);
      TextRunsSpellParagraph(RangeText(ds, range), rs, range.start);
    }
  }

  /**
   * The source's paragraph spells out its range's text when its runs are
   * chained and none clips to nothing; `GapDuplicated` shows the other case.
   */
  lemma ParagraphOfSpells(ds: string, runs: seq<TextRun>, range: Range)
    requires Chained(runs) && ClipsWithin(ds, runs, range)
    ensures ParagraphText(ParagraphOf(ds, runs, range)) == RangeText(ds, range)
  {
    var rs := Overlapping(runs, range.start, range.end);
    if |rs| > 0 {
      OverlappingChained(runs, range.start, range.end);
      TextRunsAsWrittenSpell(RangeText(ds, range), rs, range.start);
    }
  }

  /** Every emitted paragraph whose runs clip to something spells out its range's text. */
  lemma EmittedSpell(ds: string, runs: seq<TextRun>, ranges: seq<Range>, k: nat)
    requires Chained(runs)
    requires |ranges| > 0 && k < |EmitRanges(ds, runs, ranges)|
    requires ClipsWithin(ds, runs, ranges[k])
    ensures ParagraphText(EmitRanges(ds, runs, ranges)[k]) == RangeText(ds, ranges[k])
  {
    var r := EmitRanges(ds, runs, ranges);
    if k < |ranges| - 1 && RangeText(ds, ranges[k]) == [] {
      assert r[k] == BlankParagraph;
      assert ParagraphText(BlankParagraph) == "";
    } else {
      ParagraphOfSpells(ds, runs, ranges[k]);
    }
  }

  /**
   * Every exported paragraph of a body with chained runs spells out its
   * range's text, when none of its runs clips to nothing.
   */
  lemma ParagraphsSpellText(ds: string, runs: seq<TextRun>, paras: seq<Paragraph>, k: nat)
    requires Chained(runs)
    requires |paras| > 0 && k < |ConvertParagraphs(ds, runs, paras)|
    requires ClipsWithin(ds, runs, RangesOf(SortBy(paras, StartOf))[k])
    ensures ParagraphText(ConvertParagraphs(ds, runs, paras)[k]) == RangeText(ds, RangesOf(SortBy(paras, StartOf))[k])
  {
    EmittedSpell(ds, runs, RangesOf(SortBy(paras, StartOf)), k);
  }

  // ------------------------------------------------------------ document

  /** `documentStyle?.x || default`, times 20. */
  function Twips(o: Option<real>, default: real): (r: real)
    ensures o.Some? && o.value != 0.0 ==> r == o.value * 20.0
    ensures !(o.Some? && o.value != 0.0) ==> r == default * 20.0
  {
    (if o.Some? && o.value != 0.0 then o.value else default) * 20.0
  }

  /** Page size (A4 in twips when absent) and margins (72/72/90/90 points when absent). */
  function PageOf(style: Option<DocumentStyle>): (r: DocxPage)
    ensures style.None? ==> r == DocxPage(11906.0, 16838.0, 1440.0, 1440.0, 1800.0, 1800.0)
    ensures style.Some? ==>
      r.top == Twips(style.value.marginTop, 72.0) && r.bottom == Twips(style.value.marginBottom, 72.0)
      && r.left == Twips(style.value.marginLeft, 90.0) && r.right == Twips(style.value.marginRight, 90.0)
    ensures style.Some? && style.value.pageSize.Some? && style.value.pageSize.value.width != 0.0 ==>
      r.width == style.value.pageSize.value.width * 20.0
    ensures style.Some? && style.value.pageSize.Some? && style.value.pageSize.value.height != 0.0 ==>
      r.height == style.value.pageSize.value.height * 20.0
  {
    match style
    case None => DocxPage(11906.0, 16838.0, 1440.0, 1440.0, 1800.0, 1800.0)
    case Some(s) =>
      var w := if s.pageSize.Some? && s.pageSize.value.width != 0.0 then s.pageSize.value.width * 20.0 else 11906.0;
      var h := if s.pageSize.Some? && s.pageSize.value.height != 0.0 then s.pageSize.value.height * 20.0 else 16838.0;
      DocxPage(w, h, Twips(s.marginTop, 72.0), Twips(s.marginBottom, 72.0), Twips(s.marginLeft, 90.0), Twips(s.marginRight, 90.0))
  }

  /** The importer's default document keeps the exporter's default margins. */
  lemma DefaultMarginsAgree()
    ensures var p := PageOf(Some(DocImport.DefaultDocumentStyle));
      var q := PageOf(None);
      p.top == q.top && p.bottom == q.bottom && p.left == q.left && p.right == q.right
      && p.width == 11900.0 && p.height == 16840.0
  {
  }

  /** "Document data incomplete". */
  const IncompleteText: string := "\U{6587}\U{6863}\U{6570}\U{636E}\U{4E0D}\U{5B8C}\U{6574}"

  /** `convertUniverDocToDocx`: refused without a body or stream; never without a paragraph. */
  function ConvertDoc(doc: PartialDoc): (r: Read<DocxDocument>)
    ensures r.Failed? <==> doc.body.None? || doc.body.value.dataStream == []
    ensures r.Failed? ==> r.message == IncompleteText
    ensures r.Loaded? ==> |r.value.paragraphs| >= 1 && r.value.page == PageOf(doc.documentStyle)
    ensures r.Loaded? ==>
      var b := doc.body.value;
      var ps := ConvertParagraphs(b.dataStream, b.textRuns.GetOr([]), b.paragraphs.GetOr([]));
      r.value.paragraphs == (if |ps| > 0 then ps else [BlankParagraph])
  {
    match doc.body
    case None => Failed(IncompleteText)
    case Some(b) =>
      if b.dataStream == [] then Failed(IncompleteText)
      else
        var ps := ConvertParagraphs(b.dataStream, b.textRuns.GetOr([]), b.paragraphs.GetOr([]));
        Loaded(DocxDocument(PageOf(doc.documentStyle), if |ps| > 0 then ps else [BlankParagraph]))
  }

  /** Increasing markers are already sorted. */
  lemma IncreasingSorted(paras: seq<Paragraph>)
    requires DocImport.Increasing(paras)
    ensures SortBy(paras, StartOf) == paras
  {
    assert SortedBy(paras, StartOf);
  }

  /** The ranges of a lines body hold exactly its lines. */
  lemma LinesRanges(segs: seq<string>, j: nat)
    requires j < |segs|
    requires forall i | 0 <= i < |segs| :: '\r' !in segs[i] && '\n' !in segs[i]
    ensures var b := DocImport.LinesBody(segs);
      |RangesOf(b.paragraphs)| == |segs| && RangeText(b.dataStream, RangesOf(b.paragraphs)[j]) == segs[j]
  {
    DocImport.LinesBodyLines(segs, j);
    DocImport.LinesBodyWellFormed(segs);
  }

  /**
   * Plain text imported and exported again comes back line by line: every
   * line is one paragraph with exactly that text, except a last empty line,
   * which is dropped.
   */
  lemma TextLinesRoundTrip(segs: seq<string>, k: nat)
    requires |segs| >= 1
    requires forall j | 0 <= j < |segs| :: '\r' !in segs[j] && '\n' !in segs[j]
    requires k < |segs|
    ensures var b := DocImport.LinesBody(segs);
      var ps := ConvertParagraphs(b.dataStream, b.textRuns, b.paragraphs);
      (|ps| == |segs| <==> segs[|segs| - 1] != [])
      && (k < |ps| ==> ParagraphText(ps[k]) == segs[k])
  {
    var b := DocImport.LinesBody(segs);
    var ranges := RangesOf(b.paragraphs);
    assert ConvertParagraphs(b.dataStream, b.textRuns, b.paragraphs) == EmitRanges(b.dataStream, b.textRuns, ranges) by {
      DocImport.LinesBodyWellFormed(segs);
      IncreasingSorted(b.paragraphs);
    }
    assert |ranges| == |segs| && RangeText(b.dataStream, ranges[k]) == segs[k] by {
      LinesRanges(segs, k);
    }
    assert RangeText(b.dataStream, ranges[|segs| - 1]) == segs[|segs| - 1] by {
      LinesRanges(segs, |segs| - 1);
    }
    assert Chained(b.textRuns) by {
      assert b.textRuns == [];
    }
    EmittedCount(b.dataStream, b.textRuns, RangesOf(b.paragraphs), segs);
    EmittedLine(b.dataStream, b.textRuns, RangesOf(b.paragraphs), segs, k);
  }

  /** Ranges whose last one holds the last line emit every line exactly when that line is non-empty. */
  lemma EmittedCount(ds: string, runs: seq<TextRun>, ranges: seq<Range>, segs: seq<string>)
    requires |segs| >= 1 && |ranges| == |segs|
    requires RangeText(ds, ranges[|segs| - 1]) == segs[|segs| - 1]
    ensures |EmitRanges(ds, runs, ranges)| == |segs| <==> segs[|segs| - 1] != []
  {
  }

  /** A range holding a line is emitted, when it is emitted at all, as that line. */
  lemma EmittedLine(ds: string, runs: seq<TextRun>, ranges: seq<Range>, segs: seq<string>, k: nat)
    requires Chained(runs) && |ranges| == |segs| && k < |segs| && ClipsWithin(ds, runs, ranges[k])
    requires RangeText(ds, ranges[k]) == segs[k]
    ensures k < |EmitRanges(ds, runs, ranges)| ==> ParagraphText(EmitRanges(ds, runs, ranges)[k]) == segs[k]
  {
    if k < |EmitRanges(ds, runs, ranges)| {
      EmittedSpell(ds, runs, ranges, k);
    }
  }

  /** A plain-text document exports with its lines as paragraph texts and the importer's margins. */
  lemma TextDocExport(text: string, id: string, k: nat)
    requires Trim(text) != []
    requires k < |DocImport.Segments(text)| - 1
    ensures var r := ConvertDoc(DocImport.AsPartial(DocImport.TextDoc(text, id)));
      r.Loaded? && r.value.page == PageOf(Some(DocImport.DefaultDocumentStyle))
      && ParagraphText(r.value.paragraphs[k]) == DocImport.Segments(text)[k]
  {
    var segs := DocImport.Segments(text);
    var b := DocImport.LinesBody(segs);
    TextLinesRoundTrip(segs, k);
    assert b.dataStream != [] by {
      DocImport.LinesBodyWellFormed(segs);
    }
  }
}
