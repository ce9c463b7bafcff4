/**
 * The default cell style every imported sheet starts from, the style table
 * that holds it under the id `"default"`, and the merge of a user style over
 * it in which every key the user style has wins.
 */
module DefaultStyles {
  import opened Wrappers
  import opened JsNumber
  import opened Model

  const DefaultFontFamily: string := "Microsoft YaHei, Arial, sans-serif"

  /**
   * Centred both ways, wrapped, black text in the default font, padding 2
   * above and below and 4 at the sides; every other key is unset.
   */
  function DefaultCellStyle(): (r: Style)
    ensures r.ht == Some(2) && r.vt == Some(2) && r.tb == Some(3)
    ensures r.cl == Some(Rgb("#000000")) && r.ff == Some(DefaultFontFamily)
    ensures r.pd == Some(Padding(Some(Finite(2.0)), Some(Finite(2.0)), Some(Finite(4.0)), Some(Finite(4.0))))
    ensures r.(ht := None, vt := None, tb := None, cl := None, ff := None, pd := None) == EmptyStyle
  {
    EmptyStyle.(ht := Some(2), vt := Some(2), tb := Some(3), ff := Some(DefaultFontFamily),
                cl := Some(Rgb("#000000")), pd := Some(Padding(Some(Finite(2.0)), Some(Finite(2.0)), Some(Finite(4.0)), Some(Finite(4.0)))))
  }

  /** The id under which the default style is stored. */
  function DefaultStyleId(): string {
    "default"
  }

  /** The initial style table: the default style under the default id and nothing else. */
  function DefaultStylesMap(): (m: map<string, Style>)
    ensures m.Keys == {DefaultStyleId()}
    ensures m[DefaultStyleId()] == DefaultCellStyle()
  {
    map[DefaultStyleId() := DefaultCellStyle()]
  }

  /** `top` holds exactly where it has a key; elsewhere `base` shows through; no other key appears. */
  predicate Overrides(r: Style, top: Style, base: Style) {
    && r.ff == top.ff.Or(base.ff) && r.fs == top.fs.Or(base.fs)
    && r.bl == top.bl.Or(base.bl) && r.it == top.it.Or(base.it)
    && r.ul == top.ul.Or(base.ul) && r.st == top.st.Or(base.st)
    && r.cl == top.cl.Or(base.cl) && r.va == top.va.Or(base.va)
    && r.bg == top.bg.Or(base.bg) && r.ht == top.ht.Or(base.ht)
    && r.vt == top.vt.Or(base.vt) && r.tb == top.tb.Or(base.tb)
    && r.tr == top.tr.Or(base.tr) && r.pd == top.pd.Or(base.pd)
    && r.bd == top.bd.Or(base.bd) && r.n == top.n.Or(base.n)
    && r.protection == top.protection.Or(base.protection)
    && r.richText == top.richText.Or(base.richText)
  }

  /** The object spread `{...base, ...top}`. */
  function Overlay(top: Style, base: Style): (r: Style)
    ensures Overrides(r, top, base)
  {
    Style(top.ff.Or(base.ff), top.fs.Or(base.fs), top.bl.Or(base.bl), top.it.Or(base.it),
          top.ul.Or(base.ul), top.st.Or(base.st), top.cl.Or(base.cl), top.va.Or(base.va),
          top.bg.Or(base.bg), top.ht.Or(base.ht), top.vt.Or(base.vt), top.tb.Or(base.tb),
          top.tr.Or(base.tr), top.pd.Or(base.pd), top.bd.Or(base.bd), top.n.Or(base.n),
          top.protection.Or(base.protection), top.richText.Or(base.richText))
  }

  /** `mergeWithDefaultStyle`: a missing user style gives the default itself. */
  function MergeWithDefault(user: Option<Style>): (r: Style)
    ensures user.None? ==> r == DefaultCellStyle()
    ensures user.Some? ==> Overrides(r, user.value, DefaultCellStyle())
  {
    match user
    case None => DefaultCellStyle()
    case Some(u) => Overlay(u, DefaultCellStyle())
  }

  /** A record is determined by its keys: two results that satisfy `Overrides` for the same inputs are equal. */
  lemma OverridesUnique(r1: Style, r2: Style, top: Style, base: Style)
    requires Overrides(r1, top, base) && Overrides(r2, top, base)
    ensures r1 == r2
  {
  }

  /** Merging an already merged style again changes nothing. */
  lemma MergeIdempotent(user: Option<Style>)
    ensures MergeWithDefault(Some(MergeWithDefault(user))) == MergeWithDefault(user)
  {
    var m := MergeWithDefault(user);
    var d := DefaultCellStyle();
    assert Overrides(m, m, d);
    OverridesUnique(MergeWithDefault(Some(m)), m, m, d);
  }

  /** Merging the empty style gives exactly the default style. */
  lemma MergeEmptyIsDefault()
    ensures MergeWithDefault(Some(EmptyStyle)) == DefaultCellStyle()
  {
    var d := DefaultCellStyle();
    assert Overrides(d, EmptyStyle, d);
    OverridesUnique(MergeWithDefault(Some(EmptyStyle)), d, EmptyStyle, d);
  }
}
