/**
 * The word-processor model builder: plain text, an HTML node tree or a
 * partial JSON document turned into a document body (`dataStream`,
 * paragraph markers, text runs, one section break), and the file-name
 * dispatch in front of them (utils-data-docs.ts).
 *
 * Every body produced here is well formed: at least one paragraph, each
 * marker indexing a `'\r'` of the stream in increasing order, runs inside
 * the stream, the stream ending with `"\r\n"` and the section break at its
 * length.
 */
module DocImport {
  import opened Wrappers
  import opened JsText
  import opened JsNumber
  import opened Model
  import Colors

  // ------------------------------------------------------------ well-formedness

  /** Every paragraph marker indexes a `'\r'` of the stream. */
  predicate MarkersAtCr(stream: string, paras: seq<Paragraph>) {
    forall k | 0 <= k < |paras| ::
      0 <= paras[k].startIndex < |stream| && stream[paras[k].startIndex] == '\r'
  }

  /** Markers are strictly increasing. */
  predicate Increasing(paras: seq<Paragraph>) {
    forall j, k | 0 <= j < k < |paras| :: paras[j].startIndex < paras[k].startIndex
  }

  /** Every run is a non-empty range of the stream with a non-empty style. */
  predicate RunsInside(runs: seq<TextRun>, stream: string) {
    forall k | 0 <= k < |runs| :: 0 <= runs[k].st < runs[k].ed <= |stream| && runs[k].ts != EmptyStyle
  }

  /** The shape every importer guarantees. */
  predicate WellFormedBody(b: DocBody) {
    |b.paragraphs| >= 1
    && MarkersAtCr(b.dataStream, b.paragraphs)
    && Increasing(b.paragraphs)
    && RunsInside(b.textRuns, b.dataStream)
    && EndsWith(b.dataStream, "\r\n")
    && b.sectionBreaks == [|b.dataStream|]
  }

  /** A4 portrait in points with the fixed margins (top/bottom 72, left/right 90). */
  const DefaultDocumentStyle: DocumentStyle :=
    DocumentStyle(Some(PageSize(595.0, 842.0)), Some(72.0), Some(72.0), Some(90.0), Some(90.0))

  /** `createDefaultDocData`: one empty paragraph. */
  function CreateDefaultDocData(id: string): (d: DocData)
    ensures d.id == id && d.documentStyle == DefaultDocumentStyle
    ensures WellFormedBody(d.body)
    ensures |d.body.paragraphs| == 1 && d.body.textRuns == []
    ensures d.body.dataStream == "\r\n"
  {
    DocData(id, DocBody("\r\n", [], [Paragraph(0, None)], [2]), DefaultDocumentStyle)
  }

  /** The id `doc_<now>` the importers give a document that has none. */
  function DocId(now: nat): (r: string)
    ensures r != []
  {
    "doc_" + NatToString(now)
  }

  // ------------------------------------------------------------ plain text

  /** `s.replace(/\r\n/g, "\n")`, scanning left to right. */
  function ReplaceCrLf(s: string): (r: string)
    ensures |r| <= |s|
    ensures '\r' !in s ==> r == s
    decreases |s|
  {
    if |s| == 0 then []
    else if StartsWith(s, "\r\n") then
      assert s[..2][0] == s[0] == '\r';
      "\n" + ReplaceCrLf(s[2..])
    else
      assert s == [s[0]] + s[1..];
      [s[0]] + ReplaceCrLf(s[1..])
  }

  /** Both replacements: `\r\n` to `\n`, then every remaining `\r` to `\n`. */
  function NormalizeNewlines(s: string): (r: string)
    ensures '\r' !in r
    ensures '\r' !in s ==> r == s
  {
    var t := ReplaceCrLf(s);
    var r := ReplaceChar(t, '\r', '\n');
    assert forall i | 0 <= i < |r| :: r[i] != '\r';
    assert '\r' !in s ==> r == t by {
      if '\r' !in s {
        assert forall i | 0 <= i < |t| :: t[i] == s[i];
      }
    }
    r
  }

  /** The lines of the text: the normalised text split on `\n`; none holds a line break. */
  function Segments(text: string): (r: seq<string>)
    ensures |r| >= 1
    ensures forall k | 0 <= k < |r| :: '\r' !in r[k] && '\n' !in r[k]
    ensures Join(r, '\n') == NormalizeNewlines(text)
  {
    var n := NormalizeNewlines(text);
    var r := Split(n, '\n');
    JoinSplit(n, '\n');
    forall k | 0 <= k < |r| ensures '\r' !in r[k] {
      SplitPieceAvoids(n, '\n', '\r', k);
    }
    r
  }

  /** A character absent from `s` is absent from every piece of its split. */
  lemma SplitPieceAvoids(s: string, d: char, c: char, k: nat)
    requires c !in s && c != d && k < |Split(s, d)|
    ensures c !in Split(s, d)[k]
  {
    var parts := Split(s, d);
    JoinSplit(s, d);
    if c in parts[k] {
      JoinHasPart(parts, d, k, c);
      assert false;
    }
  }

  /** A character of one part appears in the joined text. */
  lemma {:induction false} JoinHasPart(parts: seq<string>, d: char, k: nat, c: char)
    requires |parts| >= 1 && k < |parts| && c in parts[k]
    ensures c in Join(parts, d)
    decreases |parts|
  {
    if |parts| > 1 && k > 0 {
      JoinHasPart(parts[1..], d, k - 1, c);
      assert Join(parts, d) == parts[0] + [d] + Join(parts[1..], d);
    }
  }

  /** Each segment followed by `'\r'`, in order. */
  function CrTerminated(segs: seq<string>): (r: string)
    ensures |r| >= |segs|
    decreases |segs|
  {
    if |segs| == 0 then [] else CrTerminated(segs[..|segs| - 1]) + segs[|segs| - 1] + "\r"
  }

  /** The position of the `'\r'` closing segment `k`. */
  function MarkerOf(segs: seq<string>, k: nat): int
    requires k < |segs|
  {
    |CrTerminated(segs[..k + 1])| - 1
  }

  /** One unstyled marker per segment. */
  function TextMarkers(segs: seq<string>): (r: seq<Paragraph>)
    ensures |r| == |segs|
  {
    seq(|segs|, k requires 0 <= k < |segs| => Paragraph(MarkerOf(segs, k), None))
  }

  /**
   * What `transformTextToDocData` builds, in closed form: blank text gives the
   * default document; otherwise every line closed by `'\r'`, a final `'\n'`,
   * one marker per line and the section break at the end.
   */
  function TextDoc(text: string, id: string): DocData {
    if Trim(text) == [] then CreateDefaultDocData(id)
    else
      DocData(id, LinesBody(Segments(text)), DefaultDocumentStyle)
  }

  /** The text of each earlier prefix of lines is a prefix of the whole. */
  lemma {:induction false} CrPrefix(segs: seq<string>, j: nat)
    requires j <= |segs|
    ensures CrTerminated(segs[..j]) <= CrTerminated(segs)
    decreases |segs|
  {
    if j < |segs| {
      var init := segs[..|segs| - 1];
      CrPrefix(init, j);
      assert init[..j] == segs[..j];
    } else {
      assert segs[..j] == segs;
    }
  }

  /** Adding a line lengthens the text by the line and its `'\r'`. */
  lemma CrStep(segs: seq<string>, k: nat)
    requires k < |segs|
    ensures CrTerminated(segs[..k + 1]) == CrTerminated(segs[..k]) + segs[k] + "\r"
  {
    assert segs[..k + 1][..k] == segs[..k];
  }

  /** Marker `k` indexes a `'\r'`, and the line before it is exactly segment `k`. */
  lemma MarkerFacts(segs: seq<string>, k: nat)
    requires k < |segs|
    ensures var s := CrTerminated(segs);
      0 <= |CrTerminated(segs[..k])| <= MarkerOf(segs, k) < |s| && s[MarkerOf(segs, k)] == '\r'
      && s[|CrTerminated(segs[..k])|..MarkerOf(segs, k)] == segs[k]
  {
    CrStep(segs, k);
    CrPrefix(segs, k + 1);
    var p := CrTerminated(segs[..k + 1]);
    var s := CrTerminated(segs);
    assert s[..|p|] == p;
    assert p[|p| - 1] == '\r';
    var a := |CrTerminated(segs[..k])|;
    assert p[a..|p| - 1] == segs[k];
    assert s[a..|p| - 1] == p[a..|p| - 1];
  }

  /** Later lines close later. */
  lemma MarkersIncrease(segs: seq<string>, j: nat, k: nat)
    requires j < k < |segs|
    ensures MarkerOf(segs, j) < MarkerOf(segs, k)
  {
    CrPrefix(segs[..k + 1], j + 1);
    assert segs[..k + 1][..j + 1] == segs[..j + 1];
    CrStep(segs, k);
    CrPrefix(segs[..k], j + 1);
    assert segs[..k][..j + 1] == segs[..j + 1];
  }

  /** The body built from the lines, in closed form. */
  function LinesBody(segs: seq<string>): DocBody {
    var ds := CrTerminated(segs) + "\n";
    DocBody(ds, [], TextMarkers(segs), [|ds|])
  }

  /** The lines body is well formed, and its last marker sits just before the final `'\n'`. */
  lemma LinesBodyWellFormed(segs: seq<string>)
    requires |segs| >= 1
    ensures WellFormedBody(LinesBody(segs))
    ensures var b := LinesBody(segs); b.paragraphs[|b.paragraphs| - 1].startIndex == |b.dataStream| - 2
  {
    var s := CrTerminated(segs);
    var ds := s + "\n";
    var paras := TextMarkers(segs);
    LinesMarkersAtCr(segs, s, ds, paras);
    LinesMarkersIncrease(segs, paras);
    LinesLastMarker(segs, s, ds, paras);
  }

  lemma LinesMarkersAtCr(segs: seq<string>, s: string, ds: string, paras: seq<Paragraph>)
    requires s == CrTerminated(segs) && ds == s + "\n" && paras == TextMarkers(segs)
    ensures MarkersAtCr(ds, paras)
  {
    forall k | 0 <= k < |paras|
      ensures 0 <= paras[k].startIndex < |ds| && ds[paras[k].startIndex] == '\r'
    {
      MarkerFacts(segs, k);
      assert paras[k].startIndex == MarkerOf(segs, k);
      assert ds[MarkerOf(segs, k)] == s[MarkerOf(segs, k)];
    }
  }

  lemma LinesMarkersIncrease(segs: seq<string>, paras: seq<Paragraph>)
    requires paras == TextMarkers(segs)
    ensures Increasing(paras)
  {
    forall j, k | 0 <= j < k < |paras| ensures paras[j].startIndex < paras[k].startIndex {
      MarkersIncrease(segs, j, k);
    }
  }

  lemma LinesLastMarker(segs: seq<string>, s: string, ds: string, paras: seq<Paragraph>)
    requires |segs| >= 1 && s == CrTerminated(segs) && ds == s + "\n" && paras == TextMarkers(segs)
    ensures paras[|paras| - 1].startIndex == |ds| - 2
    ensures EndsWith(ds, "\r\n")
  {
    LastMarkerAtEnd(segs, s);
    assert paras[|segs| - 1].startIndex == MarkerOf(segs, |segs| - 1);
    CrThenNewline(s, ds);
  }

  /** The last line's marker is the last character of the text, a `'\r'`. */
  lemma LastMarkerAtEnd(segs: seq<string>, s: string)
    requires |segs| >= 1 && s == CrTerminated(segs)
    ensures MarkerOf(segs, |segs| - 1) == |s| - 1 && s[|s| - 1] == '\r'
  {
    var last := |segs| - 1;
    assert segs[..last + 1] == segs;
    MarkerFacts(segs, last);
  }

  lemma CrThenNewline(s: string, ds: string)
    requires |s| > 0 && s[|s| - 1] == '\r' && ds == s + "\n"
    ensures EndsWith(ds, "\r\n")
  {
    assert ds[|ds| - 2..] == "\r\n" by {
      assert ds[|ds| - 2] == s[|s| - 1];
    }
  }

  /** Between the previous marker (or the start) and marker `k` lies exactly line `k`. */
  lemma LinesBodyLines(segs: seq<string>, k: nat)
    requires k < |segs|
    ensures var b := LinesBody(segs);
      var start := if k == 0 then 0 else b.paragraphs[k - 1].startIndex + 1;
      0 <= start <= b.paragraphs[k].startIndex < |b.dataStream|
      && b.dataStream[start..b.paragraphs[k].startIndex] == segs[k]
  {
    var s := CrTerminated(segs);
    var b := LinesBody(segs);
    MarkerFacts(segs, k);
    if k > 0 {
      CrStep(segs, k - 1);
      assert segs[..k - 1 + 1] == segs[..k];
      assert b.paragraphs[k - 1].startIndex + 1 == |CrTerminated(segs[..k])|;
    } else {
      assert segs[..0] == [];
    }
    assert b.dataStream == s + "\n";
    assert b.dataStream[..|s|] == s;
    assert b.paragraphs[k].startIndex == MarkerOf(segs, k);
  }

  /** Every imported text document is well formed. */
  lemma TextDocWellFormed(text: string, id: string)
    ensures WellFormedBody(TextDoc(text, id).body)
  {
    if Trim(text) != [] {
      LinesBodyWellFormed(Segments(text));
      assert TextDoc(text, id).body == LinesBody(Segments(text));
    }
  }

  /** Between the previous marker (or the start) and marker `k` of a text document lies exactly line `k` of the text. */
  lemma TextDocLines(text: string, id: string, k: nat)
    requires Trim(text) != [] && k < |Segments(text)|
    ensures var b := TextDoc(text, id).body;
      var start := if k == 0 then 0 else b.paragraphs[k - 1].startIndex + 1;
      0 <= start <= b.paragraphs[k].startIndex < |b.dataStream|
      && b.dataStream[start..b.paragraphs[k].startIndex] == Segments(text)[k]
  {
    LinesBodyLines(Segments(text), k);
    assert TextDoc(text, id).body == LinesBody(Segments(text));
  }

  /**
   * `transformTextToDocData`: the `forEach` over the lines, appending each
   * line, its marker, and `"\r"` (or `"\r\n"` after the last line).
   */
  method TransformTextToDocData(text: string, id: string) returns (d: DocData)
    ensures d == TextDoc(text, id)
    ensures WellFormedBody(d.body)
    ensures Trim(text) == [] ==> d == CreateDefaultDocData(id)
    ensures Trim(text) != [] ==> |d.body.paragraphs| == |Segments(text)| && d.body.textRuns == []
  {
    TextDocWellFormed(text, id);
    if Trim(text) == [] {
      return CreateDefaultDocData(id);
    }
    var body := LayOutLines(Segments(text));
    d := DocData(id, body, DefaultDocumentStyle);
  }

  /** The loop over the lines: the line, its marker at the running index, then `"\r"` or, after the last line, `"\r\n"`. */
  method LayOutLines(segs: seq<string>) returns (body: DocBody)
    requires |segs| >= 1
    ensures body == LinesBody(segs)
  {
    var stream: string := [];
    var paras: seq<Paragraph> := [];
    var index := 0;
    for i := 0 to |segs|
      invariant index == |stream|
      invariant i < |segs| ==> stream == CrTerminated(segs[..i])
      invariant i == |segs| ==> stream == CrTerminated(segs) + "\n"
      invariant |paras| == i
      invariant forall k | 0 <= k < i :: paras[k] == Paragraph(MarkerOf(segs, k), None)
    {
      CrStep(segs, i);
      stream := stream + segs[i];
      index := index + |segs[i]|;
      paras := paras + [Paragraph(index, None)];
      if i < |segs| - 1 {
        stream := stream + "\r";
        index := index + 1;
      } else {
        assert segs[..i + 1] == segs;
        stream := stream + "\r\n";
        index := index + 2;
      }
    }
    assert paras == TextMarkers(segs);
    body := DocBody(stream, [], paras, [index]);
  }

  // ------------------------------------------------------------ colours and sizes

  /**
   * A match of `rgb\((\d+),\s*(\d+),\s*(\d+)\)` anchored at the start of `s`.
   * Greedy digit runs cannot backtrack into a match, so reading each field
   * as long as possible decides the match.
   */
  function RgbTripleAt(s: string): Option<Colors.Channels> {
    if !StartsWith(s, "rgb(") then None
    else
      match Colors.Field(s[4..])
      case None => None
      case Some((red, t1)) =>
        match Colors.NextField(t1)
        case None => None
        case Some((green, t2)) =>
          match Colors.NextField(t2)
          case None => None
          case Some((blue, t3)) => if StartsWith(t3, ")") then Some(Colors.Channels(red, green, blue)) else None
  }

  /** The pattern first matches at position `i` of `s`: it matches there and at no earlier position. */
  predicate FirstTripleAt(s: string, i: int) {
    && 0 <= i <= |s| && RgbTripleAt(s[i..]).Some?
    && forall j | 0 <= j < i :: RgbTripleAt(s[j..]).None?
  }

  /** The leftmost match anywhere in `s` (`String.prototype.match` is not anchored). */
  function RgbTripleSearch(s: string): (r: Option<Colors.Channels>)
    ensures r.None? <==> forall i | 0 <= i <= |s| :: RgbTripleAt(s[i..]).None?
    ensures r.Some? ==> exists i | 0 <= i <= |s| :: RgbTripleAt(s[i..]) == r
    ensures r.Some? ==> exists i | FirstTripleAt(s, i) :: RgbTripleAt(s[i..]) == r
    decreases |s|
  {
    if RgbTripleAt(s).Some? then
      assert s[0..] == s && FirstTripleAt(s, 0);
      RgbTripleAt(s)
    else if |s| == 0 then
      assert forall i | 0 <= i <= |s| :: s[i..] == s;
      None
    else
      var r := RgbTripleSearch(s[1..]);
      assert forall i | 1 <= i <= |s| :: s[i..] == s[1..][i - 1..];
      assert s[0..] == s;
      assert r.Some? ==> exists i | FirstTripleAt(s, i) :: RgbTripleAt(s[i..]) == r by {
        if r.Some? {
          var j :| FirstTripleAt(s[1..], j) && RgbTripleAt(s[1..][j..]) == r;
          assert s[j + 1..] == s[1..][j..];
          forall k | 0 <= k < j + 1 ensures RgbTripleAt(s[k..]).None? {
            if k > 0 {
              assert s[k..] == s[1..][k - 1..];
            }
          }
          assert FirstTripleAt(s, j + 1);
        }
      }
      r
  }

  /** `#` and each channel as lower-case hex padded to two digits. */
  function LowerChannels(c: Colors.Channels): (r: string)
    ensures |r| >= 7 && r[0] == '#'
    ensures forall i | 1 <= i < |r| :: IsLowerHexDigit(r[i])
  {
    "#" + PadStart2(HexString(c.r)) + PadStart2(HexString(c.g)) + PadStart2(HexString(c.b))
  }

  /** `rgbToHex`: the first `rgb(r, g, b)` in the text as `#rrggbb`, else `None`. */
  function RgbToHex(text: string): (r: Option<string>)
    ensures r.None? <==> forall i | 0 <= i <= |text| :: RgbTripleAt(text[i..]).None?
    ensures r.Some? ==> |r.value| >= 7 && r.value[0] == '#'
    ensures r.Some? ==> forall i | 1 <= i < |r.value| :: IsLowerHexDigit(r.value[i])
    ensures r.Some? ==> exists i | FirstTripleAt(text, i) :: r.value == LowerChannels(RgbTripleAt(text[i..]).value)
  {
    match RgbTripleSearch(text)
    case None => None
    case Some(c) => Some(LowerChannels(c))
  }

  /** The browser's serialisation `rgb(r, g, b)` of a colour converts to its seven-character hex, channel by channel. */
  lemma RgbToHexOfCss(r: nat, g: nat, b: nat)
    requires r < 256 && g < 256 && b < 256
    ensures var h := RgbToHex(Colors.RgbCallText(r, g, b));
      h.Some? && |h.value| == 7
      && ParseInt(h.value[1..3], 16) == Finite(r as real)
      && ParseInt(h.value[3..5], 16) == Finite(g as real)
      && ParseInt(h.value[5..7], 16) == Finite(b as real)
  {
    var s := Colors.RgbCallText(r, g, b);
    RgbTripleOfCss(r, g, b);
    assert s[0..] == s;
    LowerChannelsReadBack(r, g, b);
  }

  /** The pattern matches `rgb(r, g, b)` at its first character. */
  lemma RgbTripleOfCss(r: nat, g: nat, b: nat)
    ensures RgbTripleAt(Colors.RgbCallText(r, g, b)) == Some(Colors.Channels(r, g, b))
  {
    var x, y, z := NatToString(r), NatToString(g), NatToString(b);
    var t2 := ", " + z + ")";
    var t1 := ", " + y + t2;
    CssCallSplit(r, g, b);
    Colors.FieldOfDigits(x, t1);
    Colors.TailFields(y, z);
    DigitsValueOfNatToString(r);
    DigitsValueOfNatToString(g);
    DigitsValueOfNatToString(b);
    RgbTripleOfFields(Colors.RgbCallText(r, g, b), t1, t2, ")", r, g, b);
  }

  /** `rgb(r, g, b)` is `rgb(` followed by the first number and the rest of the call. */
  lemma CssCallSplit(r: nat, g: nat, b: nat)
    ensures var s := Colors.RgbCallText(r, g, b);
      StartsWith(s, "rgb(") && s[4..] == NatToString(r) + (", " + NatToString(g) + (", " + NatToString(b) + ")"))
  {
    var s := Colors.RgbCallText(r, g, b);
    var q := NatToString(r) + (", " + NatToString(g) + (", " + NatToString(b) + ")"));
    assert s == "rgb(" + q;
  }

  /** `rgb(`, three fields read in turn and a closing parenthesis make a match. */
  lemma RgbTripleOfFields(s: string, t1: string, t2: string, t3: string, red: nat, green: nat, blue: nat)
    requires StartsWith(s, "rgb(") && Colors.Field(s[4..]) == Some((red, t1))
    requires Colors.NextField(t1) == Some((green, t2)) && Colors.NextField(t2) == Some((blue, t3))
    requires StartsWith(t3, ")")
    ensures RgbTripleAt(s) == Some(Colors.Channels(red, green, blue))
  {
  }

  /** Each two-digit group of the hex text reads back as its channel. */
  lemma LowerChannelsReadBack(r: nat, g: nat, b: nat)
    requires r < 256 && g < 256 && b < 256
    ensures var h := LowerChannels(Colors.Channels(r, g, b));
      |h| == 7
      && ParseInt(h[1..3], 16) == Finite(r as real)
      && ParseInt(h[3..5], 16) == Finite(g as real)
      && ParseInt(h[5..7], 16) == Finite(b as real)
  {
    var h := LowerChannels(Colors.Channels(r, g, b));
    assert h[1..3] == PadStart2(HexString(r));
    assert h[3..5] == PadStart2(HexString(g));
    assert h[5..7] == PadStart2(HexString(b));
    ParseIntHexPair(r);
    ParseIntHexPair(g);
    ParseIntHexPair(b);
  }

  /**
   * A CSS `font-size` in pixels: `parseFloat`, then, when the text mentions
   * `pt`, times 1.33, rounded; `None` when it does not parse.
   */
  function FontSizePx(value: string): (r: Option<Num>)
    ensures r.Some? ==> r.value != NaN && ParseFloat(value) != NaN
    ensures r.Some? && r.value.Finite? ==> r.value.value == r.value.value.Floor as real
    ensures value == [] || ParseFloat(value) == NaN ==> r.None?
  {
    if value == [] then None
    else
      match ParseFloat(value)
      case NaN => None
      case PosInf => Some(PosInf)
      case NegInf => Some(NegInf)
      case Finite(x) => Some(Finite(Round(if Contains(value, "pt") then x * 1.33 else x) as real))
  }

  /** The inline `style` of an HTML element as the browser exposes it; `""` when a property is unset. */
  datatype InlineCss = InlineCss(
    color: string,
    backgroundColor: string,
    background: string,
    fontSize: string,
    fontWeight: string,
    fontStyle: string,
    textDecoration: string)

  /** A colour value converted to `{ rgb: hex }`, when it is an `rgb(...)` text. */
  predicate HexColor(c: Option<ColorRef>) {
    c.Some? && c.value.ColorObj? && c.value.theme.None? && |c.value.rgb| >= 7 && c.value.rgb[0] == '#'
  }

  /** The colour, background and font-size part shared by paragraph and inline elements. */
  function CssColorAndSize(st: Style, css: InlineCss): (r: Style)
    ensures r == st.(cl := r.cl, bg := r.bg, fs := r.fs)
    ensures r.cl != st.cl ==> HexColor(r.cl)
    ensures r.bg != st.bg ==> HexColor(r.bg)
    ensures r.fs != st.fs ==> r.fs == FontSizePx(css.fontSize)
    ensures css.color != [] && RgbToHex(css.color).Some? ==> r.cl == Some(Rgb(RgbToHex(css.color).value))
    ensures css.backgroundColor == [] && css.background == "transparent" ==> r.bg == st.bg
  {
    var a := if css.color != [] && RgbToHex(css.color).Some? then st.(cl := Some(Rgb(RgbToHex(css.color).value))) else st;
    var bgColor := if css.backgroundColor != [] then css.backgroundColor else css.background;
    var b := if bgColor != [] && bgColor != "transparent" && RgbToHex(bgColor).Some? then a.(bg := Some(Rgb(RgbToHex(bgColor).value))) else a;
    match FontSizePx(css.fontSize)
    case Some(size) => b.(fs := Some(size))
    case None => b
  }

  /** The style a paragraph element hands to its children: the parent's, plus its own colours and size. */
  function ParagraphTextStyle(st: Style, css: Option<InlineCss>): (r: Style)
    ensures r == st.(cl := r.cl, bg := r.bg, fs := r.fs)
    ensures css.None? ==> r == st
  {
    match css
    case None => st
    case Some(c) => CssColorAndSize(st, c)
  }

  /** The formatting an inline tag implies by its name. */
  function TagMarks(tag: string, st: Style): (r: Style)
    ensures r == st.(bl := r.bl, it := r.it, ul := r.ul, st := r.st, va := r.va)
    ensures tag in {"strong", "b"} ==> r == st.(bl := Some(1))
    ensures tag in {"em", "i"} ==> r == st.(it := Some(1))
    ensures tag == "u" ==> r == st.(ul := Some(Decoration(1)))
    ensures tag == "s" ==> r == st.(st := Some(Decoration(1)))
    ensures tag == "sup" ==> r == st.(va := Some(3))
    ensures tag == "sub" ==> r == st.(va := Some(2))
    ensures tag !in {"strong", "b", "em", "i", "u", "s", "strike", "del", "sup", "sub"} ==> r == st
  {
    if tag == "strong" || tag == "b" then st.(bl := Some(1))
    else if tag == "em" || tag == "i" then st.(it := Some(1))
    else if tag == "u" then st.(ul := Some(Decoration(1)))
    else if tag == "s" || tag == "strike" || tag == "del" then st.(st := Some(Decoration(1)))
    else if tag == "sup" then st.(va := Some(3))
    else if tag == "sub" then st.(va := Some(2))
    else st
  }

  /** `fontWeight === "bold" || parseInt(fontWeight) >= 700`. */
  predicate IsBoldWeight(value: string) {
    value != [] && (value == "bold" || (ParseIntAuto(value).Finite? && ParseIntAuto(value).value >= 700.0))
  }

  /** Weight, italic and text decoration of an inline element's `style`. */
  function CssFlags(st: Style, css: InlineCss): (r: Style)
    ensures r == st.(bl := r.bl, it := r.it, ul := r.ul, st := r.st)
    ensures r.bl == (if IsBoldWeight(css.fontWeight) then Some(1) else st.bl)
    ensures r.it == (if css.fontStyle == "italic" then Some(1) else st.it)
    ensures r.ul == (if Contains(css.textDecoration, "underline") then Some(Decoration(1)) else st.ul)
    ensures r.st == (if Contains(css.textDecoration, "line-through") then Some(Decoration(1)) else st.st)
  {
    var a := if IsBoldWeight(css.fontWeight) then st.(bl := Some(1)) else st;
    var b := if css.fontStyle == "italic" then a.(it := Some(1)) else a;
    var c := if css.textDecoration != [] && Contains(css.textDecoration, "underline") then b.(ul := Some(Decoration(1))) else b;
    if css.textDecoration != [] && Contains(css.textDecoration, "line-through") then c.(st := Some(Decoration(1))) else c
  }

  /** The style an inline element hands to its children. */
  function InlineTagStyle(tag: string, st: Style, css: Option<InlineCss>): (r: Style)
    ensures r.ff == st.ff && r.ht == st.ht && r.vt == st.vt && r.bd == st.bd && r.richText == st.richText
    ensures css.None? ==> r == TagMarks(tag, st)
    ensures css.Some? ==> r == CssFlags(CssColorAndSize(TagMarks(tag, st), css.value), css.value)
    ensures tag == "sup" ==> r.va == Some(3)
    ensures tag == "sub" ==> r.va == Some(2)
    ensures tag in {"strong", "b"} ==> r.bl == Some(1)
    ensures tag in {"em", "i"} ==> r.it == Some(1)
    ensures tag == "u" ==> r.ul == Some(Decoration(1))
    ensures tag == "s" ==> r.st == Some(Decoration(1))
  {
    var marked := TagMarks(tag, st);
    match css
    case None => marked
    case Some(c) => CssFlags(CssColorAndSize(marked, c), c)
  }

  // ------------------------------------------------------------ HTML tree

  /** A DOM node below `<body>`: text, an element (tag name, inline style if an HTML element, children) or anything else. */
  datatype DomNode =
    | DomText(data: string)
    | DomElement(tagName: string, css: Option<InlineCss>, children: seq<DomNode>)
    | DomOther

  predicate IsParagraphTag(tag: string) {
    tag in {"p", "h1", "h2", "h3", "h4", "h5", "h6", "li"}
  }

  predicate IsInlineTag(tag: string) {
    tag in {"strong", "b", "em", "i", "u", "s", "sup", "sub", "span"}
  }

  /** `h1`..`h6` are named styles 2..7 (the editor's Heading 1..6). */
  function HeadingLevel(tag: string): (r: Option<int>)
    ensures r.Some? <==> tag in {"h1", "h2", "h3", "h4", "h5", "h6"}
    ensures r.Some? ==> 2 <= r.value <= 7
    ensures r.Some? ==> tag == ['h', DigitChar((r.value - 1) as nat)]
  {
    if tag == "h1" then Some(2)
    else if tag == "h2" then Some(3)
    else if tag == "h3" then Some(4)
    else if tag == "h4" then Some(5)
    else if tag == "h5" then Some(6)
    else if tag == "h6" then Some(7)
    else None
  }

  /** The paragraph style a marker carries: only the heading level, and only when there is one. */
  function HeadingStyle(tag: string): (r: Option<ParagraphStyle>)
    ensures r.Some? <==> HeadingLevel(tag).Some?
    ensures r.Some? ==> r.value.namedStyleType == HeadingLevel(tag) && r.value.horizontalAlign.None?
  {
    match HeadingLevel(tag)
    case None => None
    case Some(level) => Some(ParagraphStyle(Some(level), None, None, None, None, None, None, None))
  }

  /** The text a subtree contributes: its text nodes, with a `'\r'` after each paragraph element and for each `br`. */
  function Rendered(n: DomNode): string
    decreases n, 1
  {
    match n
    case DomText(t) => t
    case DomOther => []
    case DomElement(name, _, ch) =>
      var tag := ToLower(name);
      if IsParagraphTag(tag) then RenderedAll(ch) + "\r"
      else if IsInlineTag(tag) then RenderedAll(ch)
      else if tag == "br" then "\r"
      else RenderedAll(ch)
  }

  function RenderedAll(ns: seq<DomNode>): string
    decreases ns, 0
  {
    if |ns| == 0 then [] else Rendered(ns[0]) + RenderedAll(ns[1..])
  }

  /** The walk's accumulators: the stream, the runs, the markers, and the running index. */
  datatype Walker = Walker(stream: string, runs: seq<TextRun>, paras: seq<Paragraph>, index: int)

  /** The invariant of the walk. */
  predicate Sound(w: Walker) {
    w.index == |w.stream| && MarkersAtCr(w.stream, w.paras) && Increasing(w.paras) && RunsInside(w.runs, w.stream)
  }

  /** A text node: its run (when the inherited style is not empty) and its text. */
  function PutText(w: Walker, text: string, style: Style): (r: Walker)
    ensures r.stream == w.stream + text && r.paras == w.paras
    ensures r.index - w.index == |text|
    ensures r.runs == (if text != [] && style != EmptyStyle then w.runs + [TextRun(w.index, w.index + |text|, style)] else w.runs)
    ensures Sound(w) ==> Sound(r)
  {
    if text == [] then w
    else
      var runs := if style != EmptyStyle then w.runs + [TextRun(w.index, w.index + |text|, style)] else w.runs;
      Walker(w.stream + text, runs, w.paras, w.index + |text|)
  }

  /** A marker at the running index, then the `'\r'` it points at. */
  function PutMarker(w: Walker, ps: Option<ParagraphStyle>): (r: Walker)
    ensures r.stream == w.stream + "\r" && r.runs == w.runs && r.paras == w.paras + [Paragraph(w.index, ps)]
    ensures r.index == w.index + 1
    ensures Sound(w) ==> Sound(r)
  {
    Walker(w.stream + "\r", w.runs, w.paras + [Paragraph(w.index, ps)], w.index + 1)
  }

  /** `processNode`. */
  function Walk(n: DomNode, style: Style, w: Walker): (r: Walker)
    ensures r.stream == w.stream + Rendered(n)
    ensures r.index - w.index == |r.stream| - |w.stream|
    ensures w.paras <= r.paras && w.runs <= r.runs
    ensures Sound(w) ==> Sound(r)
    ensures n.DomText? ==> r == PutText(w, n.data, style)
    ensures n.DomOther? ==> r == w
    ensures n.DomElement? ==> r == WalkElement(n, style, w)
    ensures n.DomElement? && IsParagraphTag(ToLower(n.tagName)) ==>
      |r.paras| > |w.paras| && r.paras[|r.paras| - 1] == Paragraph(r.index - 1, HeadingStyle(ToLower(n.tagName)))
    ensures n.DomElement? && ToLower(n.tagName) == "br" ==> r == PutMarker(w, None)
    decreases n, 2
  {
    match n
    case DomText(t) => PutText(w, t, style)
    case DomOther => w
    case DomElement(_, _, _) => WalkElement(n, style, w)
  }

  /**
   * The style an element hands to its children: a paragraph tag adds its own
   * colours and size, an inline tag its marks and inline CSS, and any other
   * tag passes the parent's style on unchanged.
   */
  function ChildStyle(tag: string, style: Style, css: Option<InlineCss>): (r: Style)
    ensures IsParagraphTag(tag) ==> r == ParagraphTextStyle(style, css)
    ensures IsInlineTag(tag) ==> r == InlineTagStyle(tag, style, css)
    ensures !IsParagraphTag(tag) && !IsInlineTag(tag) ==> r == style
  {
    if IsParagraphTag(tag) then ParagraphTextStyle(style, css)
    else if IsInlineTag(tag) then InlineTagStyle(tag, style, css)
    else style
  }

  /**
   * `processNode` on an element: `br` is a bare marker; any other element's
   * children are walked with the style it hands them, and a paragraph tag
   * then closes with its marker.
   */
  function WalkElement(n: DomNode, style: Style, w: Walker): (r: Walker)
    requires n.DomElement?
    ensures r.stream == w.stream + Rendered(n)
    ensures r.index - w.index == |r.stream| - |w.stream|
    ensures w.paras <= r.paras && w.runs <= r.runs
    ensures Sound(w) ==> Sound(r)
    ensures IsParagraphTag(ToLower(n.tagName)) ==>
      |r.paras| > |w.paras| && r.paras[|r.paras| - 1] == Paragraph(r.index - 1, HeadingStyle(ToLower(n.tagName)))
    ensures ToLower(n.tagName) == "br" ==> r == PutMarker(w, None)
    ensures ToLower(n.tagName) != "br" ==>
      var inner := WalkAll(n.children, ChildStyle(ToLower(n.tagName), style, n.css), w);
      r == if IsParagraphTag(ToLower(n.tagName)) then PutMarker(inner, HeadingStyle(ToLower(n.tagName))) else inner
    decreases n, 1
  {
    var tag := ToLower(n.tagName);
    if tag == "br" then PutMarker(w, None)
    else
      var inner := WalkAll(n.children, ChildStyle(tag, style, n.css), w);
      if IsParagraphTag(tag) then
        ConcatAssoc(w.stream, RenderedAll(n.children), "\r");
        PutMarker(inner, HeadingStyle(tag))
      else inner
  }

  function WalkAll(ns: seq<DomNode>, style: Style, w: Walker): (r: Walker)
    ensures r.stream == w.stream + RenderedAll(ns)
    ensures r.index - w.index == |r.stream| - |w.stream|
    ensures w.paras <= r.paras && w.runs <= r.runs
    ensures Sound(w) ==> Sound(r)
    ensures |ns| == 0 ==> r == w
    ensures |ns| > 0 ==> r == WalkAll(ns[1..], style, Walk(ns[0], style, w))
    decreases ns, 0
  {
    if |ns| == 0 then w
    else
      var first := Walk(ns[0], style, w);
      var rest := WalkAll(ns[1..], style, first);
      ConcatAssoc(w.stream, Rendered(ns[0]), RenderedAll(ns[1..]));
      rest
  }

  /** The closing steps: at least one marker, and a stream that ends with `"\r\n"`. */
  function Finish(w: Walker, id: string): (d: DocData)
    requires Sound(w)
    ensures WellFormedBody(d.body)
    ensures d.id == id && d.documentStyle == DefaultDocumentStyle
    ensures d.body.textRuns == w.runs && w.paras <= d.body.paragraphs
    ensures w.stream <= d.body.dataStream && |d.body.dataStream| <= |w.stream| + 3
    ensures d.body.dataStream == ClosedStream(if |w.paras| == 0 then w.stream + "\r" else w.stream)
    ensures |w.paras| > 0 ==> d.body.paragraphs == w.paras
  {
    var w1 := if |w.paras| == 0 then PutMarker(w, None) else w;
    var s := w1.stream;
    var stream := ClosedStream(s);
    var index := if EndsWith(s, "\r") && !EndsWith(s, "\r\n") then w1.index + 1
                 else if !EndsWith(s, "\r\n") then w1.index + 2
                 else w1.index;
    ExtendedStreamKeeps(s, stream, w1.paras, w1.runs);
    DocData(id, DocBody(stream, w1.runs, w1.paras, [index]), DefaultDocumentStyle)
  }

  /** The stream closed with `"\r\n"`: a lone trailing `"\r"` gets its `"\n"`, any other ending gets both. */
  function ClosedStream(s: string): (r: string)
    ensures s <= r && EndsWith(r, "\r\n")
    ensures EndsWith(s, "\r\n") ==> r == s
    ensures EndsWith(s, "\r") && !EndsWith(s, "\r\n") ==> |r| == |s| + 1
    ensures !EndsWith(s, "\r") && !EndsWith(s, "\r\n") ==> |r| == |s| + 2
  {
    if EndsWith(s, "\r") && !EndsWith(s, "\r\n") then
      assert s[|s| - 1] == '\r';
      assert s[..|s| - 1] + "\r\n" == s + "\n";
      s[..|s| - 1] + "\r\n"
    else if !EndsWith(s, "\r\n") then s + "\r\n"
    else s
  }

  /** Markers and runs placed in a stream stay in place when the stream is extended. */
  lemma ExtendedStreamKeeps(s: string, t: string, paras: seq<Paragraph>, runs: seq<TextRun>)
    requires s <= t && MarkersAtCr(s, paras) && RunsInside(runs, s)
    ensures MarkersAtCr(t, paras) && RunsInside(runs, t)
  {
    forall k | 0 <= k < |paras| ensures t[paras[k].startIndex] == '\r' {
      assert t[..|s|] == s;
    }
  }

  /**
   * `convertHtmlToDocData`: the document parser (a parameter) yields the
   * child nodes of `<body>`, if there is one; they are walked with an empty
   * style, then the result is closed.
   */
  function ConvertHtmlToDocData(html: string, parse: string -> Option<seq<DomNode>>, id: string): (d: DocData)
    ensures WellFormedBody(d.body)
    ensures d.id == id && d.documentStyle == DefaultDocumentStyle
    ensures var text := if parse(html).Some? then RenderedAll(parse(html).value) else [];
      text <= d.body.dataStream && |d.body.dataStream| <= |text| + 3
    ensures var text := if parse(html).Some? then RenderedAll(parse(html).value) else [];
      d.body.dataStream == ClosedStream(if |WalkParsed(html, parse).paras| == 0 then text + "\r" else text)
    ensures d.body.textRuns == WalkParsed(html, parse).runs
    ensures parse(html).None? ==> d.body.textRuns == []
    ensures parse(html).Some? ==> RunsSpell(d.body.textRuns, d.body.dataStream, StyledTextsAll(parse(html).value, EmptyStyle))
  {
    var w := WalkParsed(html, parse);
    var d := Finish(w, id);
    ParsedRunsSpell(html, parse, d.body.dataStream);
    d
  }

  /** The runs of the walked body spell its styled texts in any stream that extends the walked one. */
  lemma ParsedRunsSpell(html: string, parse: string -> Option<seq<DomNode>>, t: string)
    requires WalkParsed(html, parse).stream <= t
    ensures parse(html).Some? ==> RunsSpell(WalkParsed(html, parse).runs, t, StyledTextsAll(parse(html).value, EmptyStyle))
  {
    if parse(html).Some? {
      var w := WalkParsed(html, parse);
      var start := Walker([], [], [], 0);
      WalkAllRunsSpell(parse(html).value, EmptyStyle, start);
      assert w.runs[|start.runs|..] == w.runs;
      SpelledExtend(w.runs, w.stream, t, StyledTextsAll(parse(html).value, EmptyStyle));
    }
  }

  /** The walker after the parsed body's nodes, or the empty one when parsing fails. */
  function WalkParsed(html: string, parse: string -> Option<seq<DomNode>>): (w: Walker)
    ensures Sound(w)
    ensures w.stream == if parse(html).Some? then RenderedAll(parse(html).value) else []
  {
    var start := Walker([], [], [], 0);
    match parse(html)
    case None => start
    case Some(body) => WalkAll(body, EmptyStyle, start)
  }

  /**
   * The text nodes that get a run, in document order, each with the style it
   * inherits: the style handed down by every element above it (`br` has no
   * text), kept when the text is not empty and the style is not.
   */
  function StyledTexts(n: DomNode, style: Style): seq<(string, Style)>
    decreases n, 1
  {
    match n
    case DomText(t) => if t != [] && style != EmptyStyle then [(t, style)] else []
    case DomOther => []
    case DomElement(name, css, ch) =>
      if ToLower(name) == "br" then [] else StyledTextsAll(ch, ChildStyle(ToLower(name), style, css))
  }

  function StyledTextsAll(ns: seq<DomNode>, style: Style): seq<(string, Style)>
    decreases ns, 0
  {
    if |ns| == 0 then [] else StyledTexts(ns[0], style) + StyledTextsAll(ns[1..], style)
  }

  /** The run spans exactly text `e.0` in `s` and carries style `e.1`. */
  predicate SpellsText(run: TextRun, s: string, e: (string, Style)) {
    0 <= run.st <= run.ed <= |s| && s[run.st..run.ed] == e.0 && run.ts == e.1
  }

  /** Run `k` spells styled text `k`, for every `k`. */
  predicate RunsSpell(runs: seq<TextRun>, s: string, es: seq<(string, Style)>) {
    |runs| == |es| && forall k | 0 <= k < |runs| :: SpellsText(runs[k], s, es[k])
  }

  /** Spans stay where they are when the stream is extended. */
  lemma SpelledExtend(runs: seq<TextRun>, s: string, t: string, es: seq<(string, Style)>)
    requires RunsSpell(runs, s, es) && s <= t
    ensures RunsSpell(runs, t, es)
  {
    forall k | 0 <= k < |runs|
      ensures SpellsText(runs[k], t, es[k])
    {
      assert SpellsText(runs[k], s, es[k]);
      assert t[runs[k].st..runs[k].ed] == s[runs[k].st..runs[k].ed];
    }
  }

  lemma SpelledConcat(a: seq<TextRun>, b: seq<TextRun>, s: string, ea: seq<(string, Style)>, eb: seq<(string, Style)>)
    requires RunsSpell(a, s, ea) && RunsSpell(b, s, eb)
    ensures RunsSpell(a + b, s, ea + eb)
  {
    forall k | 0 <= k < |a + b|
      ensures SpellsText((a + b)[k], s, (ea + eb)[k])
    {
      if k < |a| {
        assert (a + b)[k] == a[k] && (ea + eb)[k] == ea[k];
        assert SpellsText(a[k], s, ea[k]);
      } else {
        assert (a + b)[k] == b[k - |a|] && (ea + eb)[k] == eb[k - |a|];
        assert SpellsText(b[k - |a|], s, eb[k - |a|]);
      }
    }
  }

  /**
   * The runs a walk adds are one per styled text node, in document order,
   * each spanning exactly that node's text with the style it inherits.
   */
  lemma {:induction false} WalkRunsSpell(n: DomNode, style: Style, w: Walker)
    requires Sound(w)
    ensures var r := Walk(n, style, w);
      RunsSpell(r.runs[|w.runs|..], r.stream, StyledTexts(n, style))
    decreases n, 2
  {
    var r := Walk(n, style, w);
    match n
    case DomText(t) =>
      if t != [] && style != EmptyStyle {
        var run := TextRun(w.index, w.index + |t|, style);
        assert r.runs == w.runs + [run] && r.stream == w.stream + t;
        assert r.runs[|w.runs|..] == [run];
        assert r.stream[run.st..run.ed] == t;
        assert SpellsText(run, r.stream, (t, style));
      } else {
        assert r.runs == w.runs;
      }
    case DomOther =>
      assert r.runs[|w.runs|..] == [];
    case DomElement(_, _, _) =>
      WalkElementRunsSpell(n, style, w);
  }

  lemma {:induction false} WalkElementRunsSpell(n: DomNode, style: Style, w: Walker)
    requires Sound(w) && n.DomElement?
    ensures var r := WalkElement(n, style, w);
      RunsSpell(r.runs[|w.runs|..], r.stream, StyledTexts(n, style))
    decreases n, 1
  {
    var r := WalkElement(n, style, w);
    var tag := ToLower(n.tagName);
    if tag == "br" {
      assert r.runs[|w.runs|..] == [];
    } else {
      var cs := ChildStyle(tag, style, n.css);
      var inner := WalkAll(n.children, cs, w);
      WalkAllRunsSpell(n.children, cs, w);
      assert StyledTexts(n, style) == StyledTextsAll(n.children, cs);
      if IsParagraphTag(tag) {
        assert r == PutMarker(inner, HeadingStyle(tag));
        SpelledExtend(inner.runs[|w.runs|..], inner.stream, r.stream, StyledTextsAll(n.children, cs));
      }
    }
  }

  lemma {:induction false} WalkAllRunsSpell(ns: seq<DomNode>, style: Style, w: Walker)
    requires Sound(w)
    ensures var r := WalkAll(ns, style, w);
      RunsSpell(r.runs[|w.runs|..], r.stream, StyledTextsAll(ns, style))
    decreases ns, 0
  {
    var r := WalkAll(ns, style, w);
    if |ns| == 0 {
      assert r.runs[|w.runs|..] == [];
    } else {
      var first := Walk(ns[0], style, w);
      WalkRunsSpell(ns[0], style, w);
      WalkAllRunsSpell(ns[1..], style, first);
      assert r == WalkAll(ns[1..], style, first);
      var a := first.runs[|w.runs|..];
      var b := r.runs[|first.runs|..];
      assert r.runs[|w.runs|..] == a + b;
      SpelledExtend(a, first.stream, r.stream, StyledTexts(ns[0], style));
      SpelledConcat(a, b, r.stream, StyledTexts(ns[0], style), StyledTextsAll(ns[1..], style));
    }
  }

  /** Every styled text node yields a run covering exactly its own text. */
  lemma TextRunCoversNode(t: string, style: Style, w: Walker)
    requires Sound(w) && t != [] && style != EmptyStyle
    ensures var r := Walk(DomText(t), style, w);
      |r.runs| == |w.runs| + 1
      && var run := r.runs[|r.runs| - 1];
      run.ts == style && r.stream[run.st..run.ed] == t
  {
    PutTextRun(t, style, w);
  }

  lemma PutTextRun(t: string, style: Style, w: Walker)
    requires Sound(w) && t != [] && style != EmptyStyle
    ensures var r := PutText(w, t, style);
      |r.runs| == |w.runs| + 1
      && var run := r.runs[|r.runs| - 1];
      run.ts == style && r.stream[run.st..run.ed] == t
  {
    var r := PutText(w, t, style);
    assert r.stream[|w.stream|..|w.stream| + |t|] == t;
  }

  /** A paragraph element's marker points at the `'\r'` it appends, right after its children's text. */
  lemma ParagraphMarkerAtItsCr(n: DomNode, style: Style, w: Walker)
    requires Sound(w) && n.DomElement? && IsParagraphTag(ToLower(n.tagName))
    ensures var r := Walk(n, style, w);
      var m := r.paras[|r.paras| - 1].startIndex;
      m == |r.stream| - 1 && r.stream[m] == '\r' && r.stream[|w.stream|..m] == RenderedAll(n.children)
  {
    var r := Walk(n, style, w);
    assert Rendered(n) == RenderedAll(n.children) + "\r";
    assert r.stream == w.stream + RenderedAll(n.children) + "\r";
  }

  // ------------------------------------------------------------ JSON

  /** `transformJsonToDocData`: a document with a non-empty stream is completed field by field; otherwise the default. */
  function TransformJsonToDocData(json: PartialDoc, now: nat): (d: DocData)
    ensures d.id == (if json.id != [] then json.id else DocId(now))
    ensures json.body.None? || json.body.value.dataStream == [] ==> d == CreateDefaultDocData(d.id)
    ensures json.body.Some? && json.body.value.dataStream != [] ==>
      var b := json.body.value;
      d.body.dataStream == b.dataStream
      && d.body.textRuns == b.textRuns.GetOr([])
      && d.body.paragraphs == b.paragraphs.GetOr([Paragraph(0, None)])
      && d.body.sectionBreaks == b.sectionBreaks.GetOr([|b.dataStream|])
      && d.documentStyle == json.documentStyle.GetOr(DefaultDocumentStyle)
  {
    var id := if json.id != [] then json.id else DocId(now);
    match json.body
    case Some(b) =>
      if b.dataStream != [] then
        DocData(id, DocBody(b.dataStream, b.textRuns.GetOr([]), b.paragraphs.GetOr([Paragraph(0, None)]),
                            b.sectionBreaks.GetOr([|b.dataStream|])),
                json.documentStyle.GetOr(DefaultDocumentStyle))
      else CreateDefaultDocData(id)
    case None => CreateDefaultDocData(id)
  }

  /** A complete document seen as a partial one, every field present. */
  function AsPartial(d: DocData): PartialDoc {
    PartialDoc(d.id, Some(PartialBody(d.body.dataStream, Some(d.body.textRuns), Some(d.body.paragraphs),
                                      Some(d.body.sectionBreaks))), Some(d.documentStyle))
  }

  /** A document with an id and a stream passes through unchanged. */
  lemma JsonKeepsCompleteDoc(d: DocData, now: nat)
    requires d.id != [] && d.body.dataStream != []
    ensures TransformJsonToDocData(AsPartial(d), now) == d
  {
  }

  /** Completing is idempotent: a completed document completes to itself, whatever the clock says. */
  lemma JsonIdempotent(json: PartialDoc, now: nat, later: nat)
    ensures var d := TransformJsonToDocData(json, now);
      TransformJsonToDocData(AsPartial(d), later) == d
  {
    var d := TransformJsonToDocData(json, now);
    JsonKeepsCompleteDoc(d, later);
  }

  /** Filling in a partial body that only has a well-formed stream yields a well-formed body. */
  lemma JsonFillsWellFormed(json: PartialDoc, now: nat)
    requires json.body.Some? && EndsWith(json.body.value.dataStream, "\r\n")
    requires json.body.value.textRuns.None? && json.body.value.sectionBreaks.None?
    requires json.body.value.paragraphs.None? && json.body.value.dataStream[0] == '\r'
    ensures WellFormedBody(TransformJsonToDocData(json, now).body)
  {
  }

  // ------------------------------------------------------------ dispatch

  /** A document file: its name, its text, and what the `.docx` renderer produced from it. */
  datatype DocFile = DocFile(name: string, text: string, rendered: Read<string>)

  /** The text shown for a `.docx` file that failed to render. */
  function DocxFailureText(message: string): string {
    "\U{5BFC}\U{5165} .docx \U{6587}\U{4EF6}\U{5931}\U{8D25}\n\n\U{9519}\U{8BEF}\U{4FE1}\U{606F}: " + message
  }

  /** The text shown for a file of another type. */
  function UnsupportedText(name: string): string {
    "\U{6682}\U{4E0D}\U{652F}\U{6301} " + name
      + " \U{6587}\U{4EF6}\U{7C7B}\U{578B}\n\n\U{8BF7}\U{4F7F}\U{7528} .txt \U{6216} .docx \U{6587}\U{4EF6}"
  }

  /** Neither message is blank, so each is shown as a real document. */
  lemma MessagesNotBlank(name: string, message: string)
    ensures Trim(UnsupportedText(name)) != [] && Trim(DocxFailureText(message)) != []
  {
    var u := UnsupportedText(name);
    var f := DocxFailureText(message);
    assert !IsSpace(u[0]) && !IsSpace(f[0]);
    assert !AllSpace(u) && !AllSpace(f);
  }

  /**
   * `transformFileToDocData`: `.txt` (any case) is read as text, `.docx` goes
   * through the renderer and the HTML walk (a render failure shows its
   * message), anything else shows a notice.
   */
  method TransformFileToDocData(file: DocFile, now: nat, parse: string -> Option<seq<DomNode>>) returns (d: DocData)
    ensures WellFormedBody(d.body)
    ensures d.id == DocId(now)
    ensures EndsWith(ToLower(file.name), ".txt") ==> d == TextDoc(file.text, DocId(now))
    ensures !EndsWith(ToLower(file.name), ".txt") && EndsWith(ToLower(file.name), ".docx") ==>
      d == match file.rendered
        case Loaded(html) => ConvertHtmlToDocData(html, parse, DocId(now))
        case Failed(m) => TextDoc(DocxFailureText(m), DocId(now))
    ensures !EndsWith(ToLower(file.name), ".txt") && !EndsWith(ToLower(file.name), ".docx") ==>
      d == TextDoc(UnsupportedText(file.name), DocId(now))
  {
    var lower := ToLower(file.name);
    var id := DocId(now);
    if EndsWith(lower, ".txt") {
      d := TransformTextToDocData(file.text, id);
    } else if EndsWith(lower, ".docx") {
      match file.rendered {
        case Loaded(html) =>
          d := ConvertHtmlToDocData(html, parse, id);
        case Failed(m) =>
          d := TransformTextToDocData(DocxFailureText(m), id);
      }
    } else {
      d := TransformTextToDocData(UnsupportedText(file.name), id);
    }
  }
}
