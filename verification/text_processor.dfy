/**
 * The two rich-text translators and the plain-text document builder.
 *
 * The DOM parser is foreign: each translator receives it as a function from
 * the markup string to an abstract parse result. For HTML the result is the
 * container node tree; for SpreadsheetML it is the list of `r` runs with the
 * text of their first `t` and the flags read from their `rPr`.
 */
module TextProcessor {
  import opened Wrappers
  import opened JsText
  import opened JsNumber
  import opened Model

  // ---------------------------------------------------------------- HTML

  /** A DOM node: text, an element (lower-cased tag and `style` attribute, `""` when absent) or anything else. */
  datatype Node =
    | TextNode(content: string)
    | Element(tag: string, styleAttr: string, children: seq<Node>)
    | OtherNode

  /** What the HTML parser gives back: an exception, or the container element (if the document has one). */
  datatype HtmlParse = ParseThrows | Parsed(container: Option<Node>)

  /** The text of a subtree: its text nodes concatenated in document order. */
  function TextOf(n: Node): string
    decreases n, 1
  {
    match n
    case TextNode(c) => c
    case Element(_, _, ch) => TextOfAll(ch)
    case OtherNode => []
  }

  function TextOfAll(ns: seq<Node>): string
    decreases ns, 0
  {
    if |ns| == 0 then [] else TextOf(ns[0]) + TextOfAll(ns[1..])
  }

  /** No `&nbsp;` occurs anywhere in `s`. */
  predicate NoNbsp(s: string)
    decreases |s|
  {
    !StartsWith(s, "&nbsp;") && (|s| == 0 || NoNbsp(s[1..]))
  }

  /** `s.replace(/&nbsp;/g, " ")`, scanning left to right. */
  function ReplaceNbsp(s: string): (r: string)
    ensures |r| <= |s|
    ensures '&' !in s ==> r == s
    decreases |s|
  {
    if |s| == 0 then []
    else if StartsWith(s, "&nbsp;") then
      assert s[..6][0] == s[0];
      " " + ReplaceNbsp(s[6..])
    else
      assert s == [s[0]] + s[1..];
      [s[0]] + ReplaceNbsp(s[1..])
  }

  /** After the replacement no `&nbsp;` is left, not even one formed across a replaced one. */
  lemma {:induction false} ReplaceNbspClean(s: string)
    ensures NoNbsp(ReplaceNbsp(s))
    decreases |s|
  {
    if |s| > 0 {
      if StartsWith(s, "&nbsp;") {
        ReplaceNbspClean(s[6..]);
        var r := ReplaceNbsp(s);
        assert r[1..] == ReplaceNbsp(s[6..]);
        assert |r| >= 6 ==> r[..6][0] == r[0];
      } else {
        ReplaceNbspClean(s[1..]);
        var r := ReplaceNbsp(s);
        assert r == [s[0]] + ReplaceNbsp(s[1..]);
        assert r[1..] == ReplaceNbsp(s[1..]);
        if StartsWith(r, "&nbsp;") {
          assert StartsWith(ReplaceNbsp(s[1..]), "nbsp;") by {
            assert r[1..6] == ReplaceNbsp(s[1..])[..5];
          }
          PrefixSurvivesReplace(s[1..], "nbsp;");
          assert false;
        }
      }
    }
  }

  /** A prefix without `&` or space can only appear in the output where it already was in the input. */
  lemma {:induction false} PrefixSurvivesReplace(t: string, w: string)
    requires '&' !in w && ' ' !in w
    requires StartsWith(ReplaceNbsp(t), w)
    ensures StartsWith(t, w)
    decreases |t|
  {
    if |w| > 0 && |t| > 0 {
      if StartsWith(t, "&nbsp;") {
        ReplacedStartsWithSpace(t);
        assert false;
      } else {
        ReplaceStepPrefix(t, w);
        assert '&' !in w[1..] && ' ' !in w[1..];
        PrefixSurvivesReplace(t[1..], w[1..]);
        PrefixCons(t, w);
      }
    }
  }

  /** Away from `&nbsp;` the first character is copied, so the rest of the prefix comes from the rest of the text. */
  lemma ReplaceStepPrefix(t: string, w: string)
    requires |w| > 0 && |t| > 0 && !StartsWith(t, "&nbsp;")
    requires StartsWith(ReplaceNbsp(t), w)
    ensures t[0] == w[0] && StartsWith(ReplaceNbsp(t[1..]), w[1..])
  {
    assert ReplaceNbsp(t) == [t[0]] + ReplaceNbsp(t[1..]);
    UnconsPrefix(t[0], ReplaceNbsp(t[1..]), w);
  }

  lemma UnconsPrefix(c: char, rest: string, w: string)
    requires |w| > 0 && StartsWith([c] + rest, w)
    ensures c == w[0] && StartsWith(rest, w[1..])
  {
    var s := [c] + rest;
    assert s[..|w|][0] == s[0];
    assert s[..|w|][1..] == rest[..|w| - 1];
  }

  lemma PrefixCons(t: string, w: string)
    requires |w| > 0 && |t| > 0 && t[0] == w[0] && StartsWith(t[1..], w[1..])
    ensures StartsWith(t, w)
  {
    assert t[..|w|] == [t[0]] + t[1..][..|w| - 1];
  }

  lemma ReplacedStartsWithSpace(t: string)
    requires StartsWith(t, "&nbsp;")
    ensures |ReplaceNbsp(t)| > 0 && ReplaceNbsp(t)[0] == ' '
  {
  }

  /** Text without `&nbsp;` passes through unchanged. */
  lemma {:induction false} ReplaceNbspOfClean(s: string)
    requires NoNbsp(s)
    ensures ReplaceNbsp(s) == s
    decreases |s|
  {
    if |s| > 0 {
      ReplaceNbspOfClean(s[1..]);
      assert s == [s[0]] + s[1..];
    }
  }

  /** Cleaning twice is cleaning once. */
  lemma ReplaceNbspIdempotent(s: string)
    ensures ReplaceNbsp(ReplaceNbsp(s)) == ReplaceNbsp(s)
  {
    ReplaceNbspClean(s);
    ReplaceNbspOfClean(ReplaceNbsp(s));
  }

  /** `s.replace(/['"]/g, "")`. */
  function StripQuotes(s: string): (r: string)
    ensures '\'' !in r && '"' !in r
    ensures |r| <= |s|
    ensures '\'' !in s && '"' !in s ==> r == s
  {
    if |s| == 0 then []
    else if s[0] == '\'' || s[0] == '"' then StripQuotes(s[1..])
    else
      assert s == [s[0]] + s[1..];
      [s[0]] + StripQuotes(s[1..])
  }

  /** The style a tag gives by itself (the `switch` on the lower-cased tag name). */
  function TagStyle(tag: string): (r: Style)
    ensures tag in {"b", "strong"} <==> r == EmptyStyle.(bl := Some(1))
    ensures tag in {"i", "em"} <==> r == EmptyStyle.(it := Some(1))
    ensures tag == "u" <==> r == EmptyStyle.(ul := Some(Decoration(1)))
    ensures tag in {"s", "strike", "del"} <==> r == EmptyStyle.(st := Some(Decoration(1)))
    ensures tag !in {"b", "strong", "i", "em", "u", "s", "strike", "del"} <==> r == EmptyStyle
  {
    if tag == "b" || tag == "strong" then EmptyStyle.(bl := Some(1))
    else if tag == "i" || tag == "em" then EmptyStyle.(it := Some(1))
    else if tag == "u" then EmptyStyle.(ul := Some(Decoration(1)))
    else if tag == "s" || tag == "strike" || tag == "del" then EmptyStyle.(st := Some(Decoration(1)))
    else EmptyStyle
  }

  /** `value === "bold" || parseInt(value) >= 600`. */
  predicate IsBoldWeight(value: string) {
    value == "bold" || (ParseIntAuto(value).Finite? && ParseIntAuto(value).value >= 600.0)
  }

  /** The trimmed text before the first `:` of a declaration. */
  function DeclProperty(decl: string): string {
    Trim(Split(decl, ':')[0])
  }

  /** The trimmed text between the first and the second `:` of a declaration, `""` without a `:`. */
  function DeclValue(decl: string): string {
    var parts := Split(decl, ':');
    if |parts| >= 2 then Trim(parts[1]) else []
  }

  /** The properties a declaration can set. */
  predicate KnownProperty(property: string) {
    property in {"font-weight", "font-style", "text-decoration", "color", "font-size", "font-family"}
  }

  /** One `property: value` declaration applied to `st`; unknown properties and empty parts leave it alone. */
  function ApplyDeclaration(st: Style, decl: string): (r: Style)
    ensures r.richText == st.richText && r.bg == st.bg && r.bd == st.bd && r.protection == st.protection
    ensures r.bl != st.bl ==> r.bl == Some(1)
    ensures r.it != st.it ==> r.it == Some(1)
    ensures r.ul != st.ul ==> r.ul == Some(Decoration(1))
    ensures r.st != st.st ==> r.st == Some(Decoration(1))
    ensures DeclProperty(decl) == [] || DeclValue(decl) == [] || !KnownProperty(DeclProperty(decl)) ==> r == st
    ensures DeclValue(decl) != [] && DeclProperty(decl) == "font-weight" ==>
      r == st.(bl := if IsBoldWeight(DeclValue(decl)) then Some(1) else st.bl)
    ensures DeclValue(decl) != [] && DeclProperty(decl) == "font-style" ==>
      r == st.(it := if DeclValue(decl) == "italic" then Some(1) else st.it)
    ensures DeclValue(decl) != [] && DeclProperty(decl) == "text-decoration" ==>
      r == st.(ul := if Contains(DeclValue(decl), "underline") then Some(Decoration(1)) else st.ul,
               st := if Contains(DeclValue(decl), "line-through") then Some(Decoration(1)) else st.st)
    ensures DeclValue(decl) != [] && DeclProperty(decl) == "color" ==> r == st.(cl := Some(Rgb(DeclValue(decl))))
    ensures DeclValue(decl) != [] && DeclProperty(decl) == "font-size" ==>
      var size := ParseIntAuto(DeclValue(decl));
      r == if size.Finite? && size.value != 0.0 then st.(fs := Some(size)) else st
    ensures DeclValue(decl) != [] && DeclProperty(decl) == "font-family" ==>
      r == st.(ff := Some(StripQuotes(DeclValue(decl))))
  {
    var property := DeclProperty(decl);
    var value := DeclValue(decl);
    if property == [] || value == [] then st
    else if property == "font-weight" then
      (if IsBoldWeight(value) then st.(bl := Some(1)) else st)
    else if property == "font-style" then
      (if value == "italic" then st.(it := Some(1)) else st)
    else if property == "text-decoration" then
      var u := if Contains(value, "underline") then st.(ul := Some(Decoration(1))) else st;
      if Contains(value, "line-through") then u.(st := Some(Decoration(1))) else u
    else if property == "color" then st.(cl := Some(Rgb(value)))
    else if property == "font-size" then
      var size := ParseIntAuto(value);
      if size.Finite? && size.value != 0.0 then st.(fs := Some(size)) else st
    else if property == "font-family" then st.(ff := Some(StripQuotes(value)))
    else st
  }

  /** The declarations of a `style` attribute applied in order; a mark once set is never taken away. */
  function ApplyDeclarations(st: Style, decls: seq<string>): (r: Style)
    ensures r.richText == st.richText && r.bg == st.bg && r.bd == st.bd && r.protection == st.protection
    ensures st.bl == Some(1) ==> r.bl == Some(1)
    ensures st.it == Some(1) ==> r.it == Some(1)
    ensures st.ul == Some(Decoration(1)) ==> r.ul == Some(Decoration(1))
    ensures st.st == Some(Decoration(1)) ==> r.st == Some(Decoration(1))
    ensures (forall k | 0 <= k < |decls| :: !KnownProperty(DeclProperty(decls[k]))) ==> r == st
    decreases |decls|
  {
    if |decls| == 0 then st else ApplyDeclarations(ApplyDeclaration(st, decls[0]), decls[1..])
  }

  /** Applying two lists of declarations one after the other is applying their concatenation. */
  lemma {:induction false} ApplyDeclarationsAppend(st: Style, a: seq<string>, b: seq<string>)
    ensures ApplyDeclarations(st, a + b) == ApplyDeclarations(ApplyDeclarations(st, a), b)
    decreases |a|
  {
    if |a| == 0 {
      assert a + b == b;
    } else {
      assert (a + b)[0] == a[0];
      assert (a + b)[1..] == a[1..] + b;
      ApplyDeclarationsAppend(ApplyDeclaration(st, a[0]), a[1..], b);
    }
  }

  /** The style an element contributes: its tag's style, then its inline declarations, whose marks only add to the tag's. */
  function ElementStyle(tag: string, styleAttr: string): (r: Style)
    ensures styleAttr == [] ==> r == TagStyle(tag)
    ensures styleAttr != [] ==> r == ApplyDeclarations(TagStyle(tag), Split(styleAttr, ';'))
    ensures tag in {"b", "strong"} ==> r.bl == Some(1)
    ensures tag in {"i", "em"} ==> r.it == Some(1)
    ensures tag == "u" ==> r.ul == Some(Decoration(1))
    ensures tag in {"s", "strike", "del"} ==> r.st == Some(Decoration(1))
  {
    if styleAttr == [] then TagStyle(tag) else ApplyDeclarations(TagStyle(tag), Split(styleAttr, ';'))
  }

  /** Every run is a non-empty styled range inside `[lo, hi)`. */
  predicate RunsWithin(runs: seq<HtmlRun>, lo: int, hi: int) {
    forall k | 0 <= k < |runs| ::
      lo <= runs[k].startIndex < runs[k].endIndex <= hi && runs[k].style != EmptyStyle
  }

  /**
   * `processNode`: appends the subtree's text to `text` and returns the runs it
   * pushes, children's runs before the element's own.
   */
  function Walk(n: Node, text: string): (r: (string, seq<HtmlRun>))
    ensures r.0 == text + TextOf(n)
    ensures RunsWithin(r.1, |text|, |r.0|)
    ensures n.Element? && ElementStyle(n.tag, n.styleAttr) != EmptyStyle && TextOf(n) != [] ==>
      |r.1| > 0 && r.1[|r.1| - 1] == HtmlRun(ElementStyle(n.tag, n.styleAttr), |text|, |r.0|)
    ensures n.Element? && ElementStyle(n.tag, n.styleAttr) != EmptyStyle && TextOf(n) != [] ==>
      r.1[..|r.1| - 1] == WalkAll(n.children, text).1
    ensures n.Element? && (ElementStyle(n.tag, n.styleAttr) == EmptyStyle || TextOf(n) == []) ==>
      r.1 == WalkAll(n.children, text).1
    ensures !n.Element? ==> r.1 == []
    decreases n, 1
  {
    match n
    case TextNode(c) => (text + c, [])
    case OtherNode => (text, [])
    case Element(tag, attr, ch) =>
      var inner := WalkAll(ch, text);
      var st := ElementStyle(tag, attr);
      if st != EmptyStyle && |text| < |inner.0| then
        var runs := inner.1 + [HtmlRun(st, |text|, |inner.0|)];
        assert runs[..|runs| - 1] == inner.1;
        (inner.0, runs)
      else inner
  }

  function WalkAll(ns: seq<Node>, text: string): (r: (string, seq<HtmlRun>))
    ensures r.0 == text + TextOfAll(ns)
    ensures RunsWithin(r.1, |text|, |r.0|)
    ensures |ns| == 0 ==> r.1 == []
    ensures |ns| > 0 ==> r.1 == Walk(ns[0], text).1 + WalkAll(ns[1..], text + TextOf(ns[0])).1
    decreases ns, 0
  {
    if |ns| == 0 then (text, [])
    else
      var first := Walk(ns[0], text);
      var rest := WalkAll(ns[1..], first.0);
      RunsWithinConcat(first.1, rest.1, |text|, |first.0|, |rest.0|);
      ConcatAssoc(text, TextOf(ns[0]), TextOfAll(ns[1..]));
      (rest.0, first.1 + rest.1)
  }

  /** Runs inside `[lo, mid)` followed by runs inside `[mid, hi)` lie inside `[lo, hi)`. */
  lemma RunsWithinConcat(a: seq<HtmlRun>, b: seq<HtmlRun>, lo: int, mid: int, hi: int)
    requires lo <= mid <= hi && RunsWithin(a, lo, mid) && RunsWithin(b, mid, hi)
    ensures RunsWithin(a + b, lo, hi)
  {
    forall k | 0 <= k < |a + b| ensures lo <= (a + b)[k].startIndex < (a + b)[k].endIndex <= hi && (a + b)[k].style != EmptyStyle {
      if k >= |a| {
        assert (a + b)[k] == b[k - |a|];
      }
    }
  }

  /**
   * The elements that push a run, in the order their runs are pushed: an
   * element with a non-empty style and some text, after those of its
   * children.
   */
  function StyledElements(n: Node): seq<Node>
    decreases n, 1
  {
    match n
    case Element(tag, attr, ch) =>
      StyledElementsAll(ch) + (if ElementStyle(tag, attr) != EmptyStyle && TextOfAll(ch) != [] then [n] else [])
    case _ => []
  }

  function StyledElementsAll(ns: seq<Node>): seq<Node>
    decreases ns, 0
  {
    if |ns| == 0 then [] else StyledElements(ns[0]) + StyledElementsAll(ns[1..])
  }

  /** The run carries the style of element `e` and spans exactly that element's text in `s`. */
  predicate SpellOne(run: HtmlRun, s: string, e: Node) {
    && e.Element?
    && run.style == ElementStyle(e.tag, e.styleAttr)
    && 0 <= run.startIndex <= run.endIndex <= |s|
    && s[run.startIndex..run.endIndex] == TextOf(e)
  }

  /** Run `k` spells element `k`, for every `k`. */
  predicate SpellElements(runs: seq<HtmlRun>, s: string, es: seq<Node>) {
    |runs| == |es| && forall k | 0 <= k < |runs| :: SpellOne(runs[k], s, es[k])
  }

  /** Spans stay where they are when text is appended. */
  lemma SpellExtend(runs: seq<HtmlRun>, s: string, t: string, es: seq<Node>)
    requires SpellElements(runs, s, es) && s <= t
    ensures SpellElements(runs, t, es)
  {
    forall k | 0 <= k < |runs|
      ensures SpellOne(runs[k], t, es[k])
    {
      assert SpellOne(runs[k], s, es[k]);
      assert t[runs[k].startIndex..runs[k].endIndex] == s[runs[k].startIndex..runs[k].endIndex];
    }
  }

  lemma SpellConcat(a: seq<HtmlRun>, b: seq<HtmlRun>, s: string, ea: seq<Node>, eb: seq<Node>)
    requires SpellElements(a, s, ea) && SpellElements(b, s, eb)
    ensures SpellElements(a + b, s, ea + eb)
  {
    forall k | 0 <= k < |a + b|
      ensures SpellOne((a + b)[k], s, (ea + eb)[k])
    {
      if k < |a| {
        assert (a + b)[k] == a[k] && (ea + eb)[k] == ea[k];
        assert SpellOne(a[k], s, ea[k]);
      } else {
        assert (a + b)[k] == b[k - |a|] && (ea + eb)[k] == eb[k - |a|];
        assert SpellOne(b[k - |a|], s, eb[k - |a|]);
      }
    }
  }

  /**
   * The walk pushes one run per styled element with text, in post-order,
   * each spanning exactly that element's text in the collected text.
   */
  lemma {:induction false} WalkSpells(n: Node, text: string)
    ensures SpellElements(Walk(n, text).1, Walk(n, text).0, StyledElements(n))
    decreases n, 1
  {
    if n.Element? {
      WalkAllSpells(n.children, text);
      var inner := WalkAll(n.children, text);
      var st := ElementStyle(n.tag, n.styleAttr);
      if st != EmptyStyle && TextOf(n) != [] {
        OwnRunSpells(inner, text, n);
        assert Walk(n, text) == (inner.0, inner.1 + [HtmlRun(st, |text|, |inner.0|)]);
        assert StyledElements(n) == StyledElementsAll(n.children) + [n];
      } else {
        assert Walk(n, text) == inner;
        assert StyledElements(n) == StyledElementsAll(n.children);
      }
    }
  }

  /** The element's own run, pushed after its children's, spells the element. */
  lemma OwnRunSpells(inner: (string, seq<HtmlRun>), text: string, n: Node)
    requires n.Element? && inner.0 == text + TextOf(n)
    requires SpellElements(inner.1, inner.0, StyledElementsAll(n.children))
    ensures SpellElements(inner.1 + [HtmlRun(ElementStyle(n.tag, n.styleAttr), |text|, |inner.0|)],
                          inner.0, StyledElementsAll(n.children) + [n])
  {
    var own := [HtmlRun(ElementStyle(n.tag, n.styleAttr), |text|, |inner.0|)];
    assert inner.0[|text|..|inner.0|] == TextOf(n);
    assert SpellOne(own[0], inner.0, n);
    SpellConcat(inner.1, own, inner.0, StyledElementsAll(n.children), [n]);
  }

  lemma {:induction false} WalkAllSpells(ns: seq<Node>, text: string)
    ensures SpellElements(WalkAll(ns, text).1, WalkAll(ns, text).0, StyledElementsAll(ns))
    decreases ns, 0
  {
    if |ns| > 0 {
      var first := Walk(ns[0], text);
      var rest := WalkAll(ns[1..], first.0);
      WalkSpells(ns[0], text);
      WalkAllSpells(ns[1..], first.0);
      SpellExtend(first.1, first.0, rest.0, StyledElements(ns[0]));
      SpellConcat(first.1, rest.1, rest.0, StyledElements(ns[0]), StyledElementsAll(ns[1..]));
    }
  }

  /** `convertHtmlToRichText`: `None` for empty input or a parser exception. */
  function ConvertHtmlToRichText(html: string, parse: string -> HtmlParse): (r: Option<RichText>)
    ensures html == [] ==> r.None?
    ensures html != [] && parse("<div>" + ReplaceNbsp(html) + "</div>").ParseThrows? ==> r.None?
    ensures r.Some? ==> r.value.HtmlRich? && RunsWithin(r.value.runs, 0, |r.value.text|)
    ensures html != [] && parse("<div>" + ReplaceNbsp(html) + "</div>").Parsed? ==> r.Some?
    ensures r.Some? ==> match parse("<div>" + ReplaceNbsp(html) + "</div>").container
                        case None => r.value.text == [] && r.value.runs == []
                        case Some(c) => r.value.text == TextOf(c) && SpellElements(r.value.runs, r.value.text, StyledElements(c))
  {
    if html == [] then None
    else
      match parse("<div>" + ReplaceNbsp(html) + "</div>")
      case ParseThrows => None
      case Parsed(container) =>
        match container
        case None => Some(HtmlRich([], []))
        case Some(c) =>
          var w := Walk(c, []);
          WalkSpells(c, []);
          Some(HtmlRich(w.0, w.1))
  }

  /** A subtree without elements produces its text and no runs. */
  lemma {:induction false} TextOnlyTreeHasNoRuns(ns: seq<Node>, text: string)
    requires forall k | 0 <= k < |ns| :: !ns[k].Element?
    ensures WalkAll(ns, text).1 == []
    decreases |ns|
  {
    if |ns| > 0 {
      TextOnlyTreeHasNoRuns(ns[1..], Walk(ns[0], text).0);
    }
  }

  // --------------------------------------------------------- SpreadsheetML

  /** What the `rPr` of a run holds: presence of `b`, `i`, `u`, and the attributes read (`""` when absent). */
  datatype RunProps = RunProps(
    bold: bool,
    italic: bool,
    underline: bool,
    sizeVal: string,
    colorRgb: string,
    fontVal: string)

  /** One `r` element: the text of its first `t` (`""` without one) and its `rPr`, if any. */
  datatype XmlRun = XmlRun(t: string, rPr: Option<RunProps>)

  /** What the XML parser gives back: an exception, a document with a `parsererror` element, or the runs in document order. */
  datatype XmlParse =
    | XmlThrows
    | XmlParseError
    | XmlDoc(runs: seq<XmlRun>, textContent: string)

  /** The style a run's properties give. */
  function RunStyle(p: Option<RunProps>): (r: Style)
    ensures p.None? ==> r == EmptyStyle
    ensures p.Some? ==> (r.bl == Some(1) <==> p.value.bold) && (r.it == Some(1) <==> p.value.italic)
    ensures p.Some? ==> (r.ul.Some? <==> p.value.underline)
    ensures p.Some? ==> (r.fs.Some? <==> p.value.sizeVal != [])
    ensures p.Some? && p.value.colorRgb != [] ==> r.cl == Some(Rgb("#" + SubstringFrom(p.value.colorRgb, 2)))
    ensures p.Some? ==> (r.ff.Some? <==> p.value.fontVal != [])
    ensures r.bg.None? && r.bd.None? && r.richText.None? && r.protection.None?
  {
    match p
    case None => EmptyStyle
    case Some(q) =>
      EmptyStyle.(
        bl := if q.bold then Some(1) else None,
        it := if q.italic then Some(1) else None,
        ul := if q.underline then Some(Decoration(1)) else None,
        fs := if q.sizeVal != [] then Some(ParseIntAuto(q.sizeVal)) else None,
        cl := if q.colorRgb != [] then Some(Rgb("#" + SubstringFrom(q.colorRgb, 2))) else None,
        ff := if q.fontVal != [] then Some(q.fontVal) else None)
  }

  /** The stream text of a run: line feeds become carriage returns. */
  function StreamText(t: string): (r: string)
    ensures |r| == |t|
    ensures '\n' !in r
  {
    ReplaceChar(t, '\n', '\r')
  }

  /** The stream of a run list: the runs' stream texts concatenated. */
  function Stream(rs: seq<XmlRun>): string {
    if |rs| == 0 then [] else StreamText(rs[0].t) + Stream(rs[1..])
  }

  lemma {:induction false} StreamAppend(a: seq<XmlRun>, b: seq<XmlRun>)
    ensures Stream(a + b) == Stream(a) + Stream(b)
    decreases |a|
  {
    if |a| > 0 {
      assert (a + b)[0] == a[0];
      assert (a + b)[1..] == a[1..] + b;
      StreamAppend(a[1..], b);
      calc {
        Stream(a + b);
        StreamText(a[0].t) + Stream(a[1..] + b);
        StreamText(a[0].t) + (Stream(a[1..]) + Stream(b));
        (StreamText(a[0].t) + Stream(a[1..])) + Stream(b);
        Stream(a) + Stream(b);
      }
    } else {
      assert a + b == b;
    }
  }

  /** Run `i` of `rs`, placed after the text of the runs before it, shifted by `base`. */
  predicate PlacedRun(rs: seq<XmlRun>, tr: TextRun, base: int) {
    exists i | 0 <= i < |rs| ::
      && rs[i].t != []
      && tr.st == base + |Stream(rs[..i])|
      && tr.ed == tr.st + |rs[i].t|
      && tr.ts == RunStyle(rs[i].rPr)
  }

  /**
   * The loop over the `r` elements from offset `index`: each non-empty run
   * text is appended; a run with a non-empty style records its range.
   */
  function XmlRuns(rs: seq<XmlRun>, index: int): (r: (string, seq<TextRun>))
    ensures r.0 == Stream(rs)
    ensures |r.1| == StyledCount(rs) <= |rs|
    ensures forall k | 0 <= k < |r.1| :: r.1[k].ts != EmptyStyle && index <= r.1[k].st
    ensures forall a, b | 0 <= a < b < |r.1| :: r.1[a].st < r.1[b].st
    decreases |rs|
  {
    if |rs| == 0 then ([], [])
    else
      var text := rs[0].t;
      var rest := XmlRuns(rs[1..], index + |text|);
      var own := if text != [] && RunStyle(rs[0].rPr) != EmptyStyle
                 then [TextRun(index, index + |text|, RunStyle(rs[0].rPr))] else [];
      (StreamText(text) + rest.0, own + rest.1)
  }

  predicate AllPlaced(rs: seq<XmlRun>, runs: seq<TextRun>, index: int) {
    forall k | 0 <= k < |runs| :: PlacedRun(rs, runs[k], index)
  }

  /** A run that records a range: it has text and its properties give a non-empty style. */
  predicate IsStyledRun(x: XmlRun) {
    x.t != [] && RunStyle(x.rPr) != EmptyStyle
  }

  /** How many runs of the list record a range. */
  function StyledCount(rs: seq<XmlRun>): (n: nat)
    ensures n <= |rs|
  {
    if |rs| == 0 then 0 else (if IsStyledRun(rs[0]) then 1 else 0) + StyledCount(rs[1..])
  }

  /** The range a styled run `i` records when the loop starts at offset `index`. */
  function RangeOfRun(rs: seq<XmlRun>, i: nat, index: int): TextRun
    requires i < |rs|
  {
    TextRun(index + |Stream(rs[..i])|, index + |Stream(rs[..i])| + |rs[i].t|, RunStyle(rs[i].rPr))
  }

  /** Every styled run records its range: the loop drops none of them. */
  lemma {:induction false} XmlRunsComplete(rs: seq<XmlRun>, index: int)
    ensures forall i | 0 <= i < |rs| && IsStyledRun(rs[i]) :: RangeOfRun(rs, i, index) in XmlRuns(rs, index).1
    decreases |rs|
  {
    if |rs| > 0 {
      var next := index + |rs[0].t|;
      XmlRunsComplete(rs[1..], next);
      forall i | 0 <= i < |rs| && IsStyledRun(rs[i])
        ensures RangeOfRun(rs, i, index) in XmlRuns(rs, index).1
      {
        if i == 0 {
          assert rs[..0] == [];
        } else {
          assert rs[1..][i - 1] == rs[i];
          StreamPrefixCons(rs, i);
          assert RangeOfRun(rs, i, index) == RangeOfRun(rs[1..], i - 1, next);
        }
      }
    }
  }

  /** The text before run `i` is the head's text, then the text before run `i - 1` of the tail. */
  lemma StreamPrefixCons(rs: seq<XmlRun>, i: nat)
    requires 0 < i <= |rs|
    ensures |Stream(rs[..i])| == |rs[0].t| + |Stream(rs[1..][..i - 1])|
  {
    assert rs[..i][0] == rs[0];
    assert rs[..i][1..] == rs[1..][..i - 1];
  }

  /** Every recorded range starts at the cumulative length of the run texts before it. */
  lemma {:induction false} XmlRunsPlaced(rs: seq<XmlRun>, index: int)
    ensures AllPlaced(rs, XmlRuns(rs, index).1, index)
    decreases |rs|
  {
    if |rs| > 0 {
      var text := rs[0].t;
      var rest := XmlRuns(rs[1..], index + |text|);
      XmlRunsPlaced(rs[1..], index + |text|);
      var own := if text != [] && RunStyle(rs[0].rPr) != EmptyStyle
                 then [TextRun(index, index + |text|, RunStyle(rs[0].rPr))] else [];
      assert XmlRuns(rs, index).1 == own + rest.1;
      PlacedCons(rs, own, rest.1, index);
    }
  }

  lemma PlacedCons(rs: seq<XmlRun>, own: seq<TextRun>, rest: seq<TextRun>, index: int)
    requires |rs| > 0 && AllPlaced(rs[1..], rest, index + |rs[0].t|)
    requires own == [] || (rs[0].t != [] && own == [TextRun(index, index + |rs[0].t|, RunStyle(rs[0].rPr))])
    ensures AllPlaced(rs, own + rest, index)
  {
    var runs := own + rest;
    forall k | 0 <= k < |runs|
      ensures PlacedRun(rs, runs[k], index)
    {
      if k < |own| {
        PlacedFirst(rs, index);
      } else {
        assert runs[k] == rest[k - |own|];
        PlacedShift(rs, runs[k], index);
      }
    }
  }

  lemma PlacedFirst(rs: seq<XmlRun>, index: int)
    requires |rs| > 0 && rs[0].t != []
    ensures PlacedRun(rs, TextRun(index, index + |rs[0].t|, RunStyle(rs[0].rPr)), index)
  {
    assert rs[..0] == [];
  }

  /** A run placed in the tail is placed in the whole list once the head's text is counted. */
  lemma PlacedShift(rs: seq<XmlRun>, tr: TextRun, index: int)
    requires |rs| > 0 && PlacedRun(rs[1..], tr, index + |rs[0].t|)
    ensures PlacedRun(rs, tr, index)
  {
    var j :| 0 <= j < |rs[1..]| && rs[1..][j].t != []
             && tr.st == index + |rs[0].t| + |Stream(rs[1..][..j])|
             && tr.ed == tr.st + |rs[1..][j].t| && tr.ts == RunStyle(rs[1..][j].rPr);
    assert rs[..j + 1][0] == rs[0];
    assert rs[..j + 1][1..] == rs[1..][..j];
    assert Stream(rs[..j + 1]) == StreamText(rs[0].t) + Stream(rs[1..][..j]);
    assert rs[j + 1] == rs[1..][j];
  }

  /** The placed run covers exactly its own (converted) text in the stream. */
  lemma PlacedRunText(rs: seq<XmlRun>, i: nat)
    requires i < |rs|
    ensures |Stream(rs[..i])| + |rs[i].t| <= |Stream(rs)|
    ensures Stream(rs)[|Stream(rs[..i])|..|Stream(rs[..i])| + |rs[i].t|] == StreamText(rs[i].t)
  {
    assert rs == rs[..i] + ([rs[i]] + rs[i + 1..]);
    StreamAppend(rs[..i], [rs[i]] + rs[i + 1..]);
    assert ([rs[i]] + rs[i + 1..])[1..] == rs[i + 1..];
  }

  /** The document body around a text: stream `text + "\r\n"`, one paragraph at 0, a section break at the end. */
  function BodyOf(text: string, runs: seq<TextRun>): (b: DocBody)
    ensures |b.dataStream| == |text| + 2 && b.dataStream[..|text|] == text
    ensures EndsWith(b.dataStream, "\r\n")
    ensures b.paragraphs == [Paragraph(0, None)] && b.sectionBreaks == [|b.dataStream|]
    ensures b.textRuns == runs
  {
    DocBody(text + "\r\n", runs, [Paragraph(0, None)], [|text| + 2])
  }

  /** `processExcelRichText`: wraps the markup in `<root>` and reads the runs. */
  function ProcessExcelRichText(xml: string, parse: string -> XmlParse): (r: Option<DocBody>)
    ensures xml == [] ==> r.None?
    ensures xml != [] && !parse("<root>" + xml + "</root>").XmlDoc? ==> r.None?
    ensures r.Some? ==> |r.value.dataStream| > 2 && EndsWith(r.value.dataStream, "\r\n")
    ensures r.Some? ==> r.value.paragraphs == [Paragraph(0, None)]
    ensures r.Some? ==> r.value.sectionBreaks == [|r.value.dataStream|]
    ensures r.Some? ==> var doc := parse("<root>" + xml + "</root>");
      forall k | 0 <= k < |r.value.textRuns| ::
        PlacedRun(doc.runs, r.value.textRuns[k], 0) && r.value.textRuns[k].ts != EmptyStyle
    ensures r.Some? && |r.value.textRuns| > 0 ==>
      r.value.dataStream == Stream(parse("<root>" + xml + "</root>").runs) + "\r\n"
    ensures xml != [] && parse("<root>" + xml + "</root>").XmlDoc? ==>
      var doc := parse("<root>" + xml + "</root>");
      (r.Some? <==> Stream(doc.runs) != [] || Trim(doc.textContent) != [])
    ensures r.Some? && r.value.textRuns == [] ==>
      var doc := parse("<root>" + xml + "</root>");
      r.value.dataStream == (if Trim(doc.textContent) != [] then Trim(doc.textContent) else Stream(doc.runs)) + "\r\n"
    ensures r.Some? ==> |r.value.textRuns| == StyledCount(parse("<root>" + xml + "</root>").runs)
    ensures r.Some? ==> var rs := parse("<root>" + xml + "</root>").runs;
      forall i | 0 <= i < |rs| && IsStyledRun(rs[i]) :: RangeOfRun(rs, i, 0) in r.value.textRuns
    ensures r.Some? ==> forall a, b | 0 <= a < b < |r.value.textRuns| ::
      r.value.textRuns[a].st < r.value.textRuns[b].st
  {
    if xml == [] then None
    else
      match parse("<root>" + xml + "</root>")
      case XmlThrows => None
      case XmlParseError => None
      case XmlDoc(rs, textContent) =>
        XmlRunsPlaced(rs, 0);
        XmlRunsComplete(rs, 0);
        var w := XmlRuns(rs, 0);
        PlacedRunsNeedText(rs, w.1);
        var full := if |w.1| == 0 && Trim(textContent) != [] then Trim(textContent) else w.0;
        if full == [] then None else Some(BodyOf(full, w.1))
  }

  /** A run placed on the XML runs covers some text, so the stream is not empty. */
  lemma PlacedRunsNeedText(rs: seq<XmlRun>, runs: seq<TextRun>)
    requires AllPlaced(rs, runs, 0)
    ensures runs != [] ==> Stream(rs) != []
  {
    if runs != [] {
      assert PlacedRun(rs, runs[0], 0);
      var i :| 0 <= i < |rs| && rs[i].t != [] && runs[0].st == |Stream(rs[..i])|;
      PlacedRunText(rs, i);
    }
  }

  /** Each styled run of a converted run list covers exactly its run's text, with `\n` turned into `\r`. */
  lemma RichTextRunsCoverTheirText(xml: string, parse: string -> XmlParse, k: nat)
    requires ProcessExcelRichText(xml, parse).Some?
    requires k < |ProcessExcelRichText(xml, parse).value.textRuns|
    ensures var b := ProcessExcelRichText(xml, parse).value;
            var tr := b.textRuns[k];
            0 <= tr.st < tr.ed <= |b.dataStream| - 2 &&
            exists i | 0 <= i < |parse("<root>" + xml + "</root>").runs| ::
              b.dataStream[tr.st..tr.ed] == StreamText(parse("<root>" + xml + "</root>").runs[i].t)
  {
    var b := ProcessExcelRichText(xml, parse).value;
    var rs := parse("<root>" + xml + "</root>").runs;
    var tr := b.textRuns[k];
    assert PlacedRun(rs, tr, 0) && b.dataStream == Stream(rs) + "\r\n";
    PlacedRunCovers(rs, tr, b.dataStream);
  }

  /** A run placed over the stream of `rs` covers one run's text. */
  lemma PlacedRunCovers(rs: seq<XmlRun>, tr: TextRun, ds: string)
    requires PlacedRun(rs, tr, 0) && ds == Stream(rs) + "\r\n"
    ensures 0 <= tr.st < tr.ed <= |ds| - 2
    ensures exists i | 0 <= i < |rs| :: ds[tr.st..tr.ed] == StreamText(rs[i].t)
  {
    var i :| 0 <= i < |rs| && rs[i].t != [] && tr.st == |Stream(rs[..i])|
             && tr.ed == tr.st + |rs[i].t| && tr.ts == RunStyle(rs[i].rPr);
    PlacedRunSlice(rs, i, ds, tr.st, tr.ed);
  }

  /** The `i`-th run's text sits in `ds` right after the stream of the runs before it. */
  lemma PlacedRunSlice(rs: seq<XmlRun>, i: nat, ds: string, x: int, y: int)
    requires i < |rs| && ds == Stream(rs) + "\r\n"
    requires x == |Stream(rs[..i])| && y == x + |rs[i].t|
    ensures 0 <= x <= y <= |ds| - 2
    ensures ds[x..y] == StreamText(rs[i].t)
  {
    PlacedRunText(rs, i);
    SliceOfPrefix(Stream(rs), "\r\n", x, y);
  }

  /** A slice inside `a` is the same slice of `a + b`. */
  lemma SliceOfPrefix(a: string, b: string, x: int, y: int)
    requires 0 <= x <= y <= |a|
    ensures (a + b)[x..y] == a[x..y]
  {
  }

  /** `createSimpleDocument`: `None` for empty text. */
  function CreateSimpleDocument(text: string): (r: Option<DocBody>)
    ensures r.None? <==> text == []
    ensures r.Some? ==> |r.value.dataStream| == |text| + 2 && r.value.dataStream[..|text|] == text
    ensures r.Some? ==> EndsWith(r.value.dataStream, "\r\n")
    ensures r.Some? ==> r.value.textRuns == [] && r.value.paragraphs == [Paragraph(0, None)]
    ensures r.Some? ==> r.value.sectionBreaks == [|text| + 2]
  {
    if text == [] then None else Some(BodyOf(text, []))
  }

  /**
   * Unstyled runs build the same body as the plain-text
   * builder on their concatenated text, when the document text offers no
   * fallback.
   */
  lemma UnstyledRunsAreSimpleDocument(xml: string, parse: string -> XmlParse)
    requires xml != [] && parse("<root>" + xml + "</root>").XmlDoc?
    requires var doc := parse("<root>" + xml + "</root>");
      Trim(doc.textContent) == [] &&
      forall i | 0 <= i < |doc.runs| :: doc.runs[i].rPr.None?
    ensures ProcessExcelRichText(xml, parse) ==
      CreateSimpleDocument(Stream(parse("<root>" + xml + "</root>").runs))
  {
    var rs := parse("<root>" + xml + "</root>").runs;
    NoStyledRuns(rs, 0);
  }

  lemma {:induction false} NoStyledRuns(rs: seq<XmlRun>, index: int)
    requires forall i | 0 <= i < |rs| :: rs[i].rPr.None?
    ensures XmlRuns(rs, index).1 == []
    decreases |rs|
  {
    if |rs| > 0 {
      NoStyledRuns(rs[1..], index + |rs[0].t|);
    }
  }
}
