/**
 * Colour handling for imported spreadsheet styles: the 128-entry indexed
 * palette, the 12-entry theme palette, ARGB / indexed / theme colour objects
 * with tint, brightness adjustment with clamping, and CSS colour text.
 */
module Colors {
  import opened Wrappers
  import opened JsText
  import opened JsNumber
  import opened Model

  /** The indexed palette `EXCEL_INDEXED_COLORS`, keys 0..127. */
  function IndexedEntry(k: int): (r: string)
    requires 0 <= k < 128
    ensures IsUpperHexColor(r)
  {
    if k < 16 then IndexedBlock0(k)
    else if k < 32 then IndexedBlock1(k - 16)
    else if k < 48 then IndexedBlock2(k - 32)
    else if k < 64 then IndexedBlock3(k - 48)
    else if k < 80 then IndexedBlock4(k - 64)
    else if k < 96 then IndexedBlock5(k - 80)
    else if k < 112 then IndexedBlock6(k - 96)
    else IndexedBlock7(k - 112)
  }

  /** Palette keys 0..15. */
  function IndexedBlock0(k: int): (r: string)
    requires 0 <= k < 16
    ensures IsUpperHexColor(r)
  {
    match k
    case 0 => "#000000"
    case 1 => "#FFFFFF"
    case 2 => "#FF0000"
    case 3 => "#00FF00"
    case 4 => "#0000FF"
    case 5 => "#FFFF00"
    case 6 => "#FF00FF"
    case 7 => "#00FFFF"
    case 8 => "#800000"
    case 9 => "#008000"
    case 10 => "#000080"
    case 11 => "#808000"
    case 12 => "#800080"
    case 13 => "#008080"
    case 14 => "#C0C0C0"
    case _ => "#808080"
  }

  /** Palette keys 16..31. */
  function IndexedBlock1(k: int): (r: string)
    requires 0 <= k < 16
    ensures IsUpperHexColor(r)
  {
    match k
    case 0 => "#9999FF"
    case 1 => "#993366"
    case 2 => "#FFFFCC"
    case 3 => "#CCFFFF"
    case 4 => "#660066"
    case 5 => "#FF8080"
    case 6 => "#0066CC"
    case 7 => "#CCCCFF"
    case 8 => "#000080"
    case 9 => "#FF00FF"
    case 10 => "#FFFF00"
    case 11 => "#00FFFF"
    case 12 => "#800080"
    case 13 => "#800000"
    case 14 => "#008080"
    case _ => "#0000FF"
  }

  /** Palette keys 32..47. */
  function IndexedBlock2(k: int): (r: string)
    requires 0 <= k < 16
    ensures IsUpperHexColor(r)
  {
    match k
    case 0 => "#00CCFF"
    case 1 => "#CCFFFF"
    case 2 => "#CCFFCC"
    case 3 => "#FFFF99"
    case 4 => "#99CCFF"
    case 5 => "#FF99CC"
    case 6 => "#CC99FF"
    case 7 => "#FFCC99"
    case 8 => "#3366FF"
    case 9 => "#33CCCC"
    case 10 => "#99CC00"
    case 11 => "#FFCC00"
    case 12 => "#FF9900"
    case 13 => "#FF6600"
    case 14 => "#666699"
    case _ => "#969696"
  }

  /** Palette keys 48..63. */
  function IndexedBlock3(k: int): (r: string)
    requires 0 <= k < 16
    ensures IsUpperHexColor(r)
  {
    match k
    case 0 => "#003366"
    case 1 => "#339966"
    case 2 => "#003300"
    case 3 => "#333300"
    case 4 => "#993300"
    case 5 => "#993366"
    case 6 => "#333399"
    case 7 => "#333333"
    case 8 => "#333333"
    case 9 => "#F2F2F2"
    case 10 => "#E6E6E6"
    case 11 => "#D9D9D9"
    case 12 => "#CCCCCC"
    case 13 => "#BFBFBF"
    case 14 => "#B3B3B3"
    case _ => "#A6A6A6"
  }

  /** Palette keys 64..79. */
  function IndexedBlock4(k: int): (r: string)
    requires 0 <= k < 16
    ensures IsUpperHexColor(r)
  {
    match k
    case 0 => "#E6E6FA"
    case 1 => "#DDA0DD"
    case 2 => "#DA70D6"
    case 3 => "#FF69B4"
    case 4 => "#FFB6C1"
    case 5 => "#FFC0CB"
    case 6 => "#FFE4E1"
    case 7 => "#F0F8FF"
    case 8 => "#E0E6FF"
    case 9 => "#B0C4DE"
    case 10 => "#87CEEB"
    case 11 => "#87CEFA"
    case 12 => "#00BFFF"
    case 13 => "#1E90FF"
    case 14 => "#4169E1"
    case _ => "#0000CD"
  }

  /** Palette keys 80..95. */
  function IndexedBlock5(k: int): (r: string)
    requires 0 <= k < 16
    ensures IsUpperHexColor(r)
  {
    match k
    case 0 => "#F0FFF0"
    case 1 => "#98FB98"
    case 2 => "#90EE90"
    case 3 => "#00FF7F"
    case 4 => "#00FA9A"
    case 5 => "#00FF00"
    case 6 => "#32CD32"
    case 7 => "#228B22"
    case 8 => "#006400"
    case 9 => "#8FBC8F"
    case 10 => "#9ACD32"
    case 11 => "#ADFF2F"
    case 12 => "#7CFC00"
    case 13 => "#7FFF00"
    case 14 => "#00FF32"
    case _ => "#00FA54"
  }

  /** Palette keys 96..111. */
  function IndexedBlock6(k: int): (r: string)
    requires 0 <= k < 16
    ensures IsUpperHexColor(r)
  {
    match k
    case 0 => "#FFF0F0"
    case 1 => "#FFE4E1"
    case 2 => "#FFA07A"
    case 3 => "#FA8072"
    case 4 => "#FF6347"
    case 5 => "#FF4500"
    case 6 => "#DC143C"
    case 7 => "#B22222"
    case 8 => "#8B0000"
    case 9 => "#CD5C5C"
    case 10 => "#F08080"
    case 11 => "#E9967A"
    case 12 => "#FF7F50"
    case 13 => "#FF69B4"
    case 14 => "#FF1493"
    case _ => "#C71585"
  }

  /** Palette keys 112..127. */
  function IndexedBlock7(k: int): (r: string)
    requires 0 <= k < 16
    ensures IsUpperHexColor(r)
  {
    match k
    case 0 => "#FFFACD"
    case 1 => "#FFEFD5"
    case 2 => "#FFE4B5"
    case 3 => "#FFDAB9"
    case 4 => "#F4A460"
    case 5 => "#DAA520"
    case 6 => "#FF8C00"
    case 7 => "#FF7F00"
    case 8 => "#FFA500"
    case 9 => "#FFD700"
    case 10 => "#FFFF00"
    case 11 => "#FFFFE0"
    case 12 => "#FFFFF0"
    case 13 => "#F0E68C"
    case 14 => "#BDB76B"
    case _ => "#EEE8AA"
  }

  /** The theme palette, keys 0..11. */
  function ThemeEntry(k: int): (r: string)
    requires 0 <= k < 12
    ensures IsUpperHexColor(r)
  {
    match k
    case 0 => "#FFFFFF"
    case 1 => "#000000"
    case 2 => "#EEECE1"
    case 3 => "#1F497D"
    case 4 => "#4F81BD"
    case 5 => "#C0504D"
    case 6 => "#9BBB59"
    case 7 => "#8064A2"
    case 8 => "#4BACC6"
    case 9 => "#F79646"
    case 10 => "#0000FF"
    case _ => "#800080"
  }

  /** `#` and six hexadecimal digits of either case. */
  predicate IsHexColor(c: string) {
    |c| == 7 && c[0] == '#' && forall i | 1 <= i < 7 :: IsHexDigit(c[i])
  }

  predicate IsUpperHexDigit(c: char) {
    IsDigit(c) || 'A' <= c <= 'F'
  }

  /** `#` and six hexadecimal digits, letters in upper case. */
  predicate IsUpperHexColor(c: string) {
    |c| == 7 && c[0] == '#' && forall i | 1 <= i < 7 :: IsUpperHexDigit(c[i])
  }

  /** `#` and six hexadecimal digits, letters in lower case. */
  predicate IsLowerHexColor(c: string) {
    |c| == 7 && c[0] == '#' && forall i | 1 <= i < 7 :: IsLowerHexDigit(c[i])
  }

  predicate IsIntegral(x: real) {
    x.Floor as real == x
  }

  /**
   * `getExcelIndexedColor`: the palette entry for `index` clamped into
   * [0, 127]; a fractional index inside the range misses the table and gives black.
   */
  function IndexedColor(index: real): (r: string)
    ensures IsUpperHexColor(r)
    ensures IsIntegral(index) && 0.0 <= index <= 127.0 ==> r == IndexedEntry(index.Floor)
    ensures index < 0.0 ==> r == IndexedEntry(0)
    ensures index > 127.0 ==> r == IndexedEntry(127)
    ensures !IsIntegral(index) && 0.0 < index < 127.0 ==> r == "#000000"
  {
    var i := if index < 0.0 then 0.0 else if index > 127.0 then 127.0 else index;
    if IsIntegral(i) then IndexedEntry(i.Floor) else "#000000"
  }

  /** An Excel colour object as the reader produces it, or a value that is not an object. */
  datatype ExcelColor =
    | NotAnObject
    | ColorObject(rgb: Value, indexed: Value, theme: Value, tint: Value)

  /** The theme entry, or `default` when `theme` is not an index of the table. */
  function ThemeBase(theme: real, default: string): (r: string)
    ensures IsIntegral(theme) && 0.0 <= theme < 12.0 ==> r == ThemeEntry(theme.Floor)
    ensures (theme < 0.0 || theme >= 12.0 || !IsIntegral(theme)) ==> r == default
  {
    if IsIntegral(theme) && 0.0 <= theme < 12.0 then ThemeEntry(theme.Floor) else default
  }

  /** The `rgb` text without the two alpha digits of an eight-character ARGB value. */
  function DropAlpha(rgb: string): (r: string)
    ensures |rgb| == 8 ==> r == rgb[2..]
    ensures |rgb| != 8 ==> r == rgb
  {
    if |rgb| == 8 then rgb[2..] else rgb
  }

  /**
   * `processExcelColor`: a non-empty string `rgb` wins (alpha dropped), then a
   * numeric `indexed`, then a numeric `theme` (with a nonzero numeric `tint`
   * applied as brightness factor 1 + tint/2); anything else gives `default`.
   */
  function ProcessExcelColor(c: ExcelColor, default: string): (r: string)
    ensures c.NotAnObject? ==> r == default
    ensures c.ColorObject? && c.rgb.Str? && c.rgb.s != [] ==> r == "#" + DropAlpha(c.rgb.s)
    ensures c.ColorObject? && !(c.rgb.Str? && c.rgb.s != []) && c.indexed.Number? ==>
              r == IndexedColor(c.indexed.n)
    ensures c.ColorObject? && !(c.rgb.Str? && c.rgb.s != []) && !c.indexed.Number? && c.theme.Number? ==>
              r == TintedTheme(c.theme.n, c.tint, default)
    ensures c.ColorObject? && !(c.rgb.Str? && c.rgb.s != []) && !c.indexed.Number? && !c.theme.Number? ==>
              r == default
  {
    match c
    case NotAnObject => default
    case ColorObject(rgb, indexed, theme, tint) =>
      if rgb.Str? && rgb.s != [] then "#" + DropAlpha(rgb.s)
      else if indexed.Number? then IndexedColor(indexed.n)
      else if theme.Number? then TintedTheme(theme.n, tint, default)
      else default
  }

  /** The brightness factor a non-zero `tint` applies: `1 + tint * 0.5`. */
  function TintFactor(tint: real): real {
    1.0 + tint * 0.5
  }

  /** A theme colour with its tint: a nonzero numeric tint scales the brightness by 1 + tint/2. */
  function TintedTheme(theme: real, tint: Value, default: string): (r: string)
    ensures !(tint.Number? && tint.n != 0.0) ==> r == ThemeBase(theme, default)
    ensures tint.Number? && tint.n != 0.0 ==> r == AdjustBrightness(ThemeBase(theme, default), TintFactor(tint.n))
  {
    var base := ThemeBase(theme, default);
    if tint.Number? && tint.n != 0.0 then AdjustBrightness(base, TintFactor(tint.n)) else base
  }

  /** A colour object whose `rgb`, when it is a non-empty string, is six hex digits or eight ARGB hex digits. */
  predicate WellFormedExcelColor(c: ExcelColor) {
    c.ColorObject? && c.rgb.Str? && c.rgb.s != [] ==>
      (|c.rgb.s| == 6 || |c.rgb.s| == 8) && forall i | 0 <= i < |c.rgb.s| :: IsHexDigit(c.rgb.s[i])
  }

  /** Well-formed colour objects and a hex default always resolve to a six-digit hex colour. */
  lemma ProcessExcelColorWellFormed(c: ExcelColor, default: string)
    requires WellFormedExcelColor(c) && IsHexColor(default)
    ensures IsHexColor(ProcessExcelColor(c, default))
  {
    match c
    case NotAnObject =>
    case ColorObject(rgb, indexed, theme, tint) =>
      if rgb.Str? && rgb.s != [] {
        HashHex(DropAlpha(rgb.s));
      } else if indexed.Number? {
        UpperIsHex(IndexedColor(indexed.n));
      } else if theme.Number? {
        TintedThemeHex(theme.n, tint, default);
      }
  }

  lemma HashHex(d: string)
    requires |d| == 6 && forall i | 0 <= i < 6 :: IsHexDigit(d[i])
    ensures IsHexColor("#" + d)
  {
    assert forall i | 1 <= i < 7 :: ("#" + d)[i] == d[i - 1];
  }

  lemma UpperIsHex(c: string)
    requires IsUpperHexColor(c)
    ensures IsHexColor(c)
  {
  }

  lemma TintedThemeHex(theme: real, tint: Value, default: string)
    requires IsHexColor(default)
    ensures IsHexColor(TintedTheme(theme, tint, default))
  {
    var base := ThemeBase(theme, default);
    assert IsHexColor(base) by { ThemeBaseHex(theme, default); }
    TintedBaseHex(base, tint);
  }

  lemma TintedBaseHex(base: string, tint: Value)
    requires IsHexColor(base)
    ensures IsHexColor(if tint.Number? && tint.n != 0.0 then AdjustBrightness(base, TintFactor(tint.n)) else base)
  {
    if tint.Number? && tint.n != 0.0 {
      AdjustedHex(base, TintFactor(tint.n));
    }
  }

  lemma AdjustedHex(base: string, f: real)
    requires IsHexColor(base)
    ensures IsHexColor(AdjustBrightness(base, f))
  {
    AdjustBrightnessOfHexColor(base, f);
    LowerIsHex(AdjustBrightness(base, f));
  }

  lemma ThemeBaseHex(theme: real, default: string)
    requires IsHexColor(default)
    ensures IsHexColor(ThemeBase(theme, default))
  {
    if IsIntegral(theme) && 0.0 <= theme < 12.0 {
      UpperIsHex(ThemeEntry(theme.Floor));
    }
  }

  lemma LowerIsHex(c: string)
    requires IsLowerHexColor(c)
    ensures IsHexColor(c)
  {
  }

  /** Two lower-case hex digits for a channel in [0, 255] (`n.toString(16).padStart(2, "0")`). */
  function HexPair(n: nat): (r: string)
    requires n < 256
    ensures |r| == 2 && IsLowerHexDigit(r[0]) && IsLowerHexDigit(r[1])
  {
    PadStart2(HexString(n))
  }

  /** The text of one channel after scaling: parsed from two hex digits, scaled, rounded, clamped; `"NaN"` when unreadable. */
  function ScaledChannel(digits: string, factor: real): (r: string)
    ensures |digits| == 2 && IsHexDigit(digits[0]) && IsHexDigit(digits[1]) ==>
              |r| == 2 && IsLowerHexDigit(r[0]) && IsLowerHexDigit(r[1])
  {
    assert |digits| == 2 && IsHexDigit(digits[0]) && IsHexDigit(digits[1]) ==> ParseInt(digits, 16).Finite? by {
      if |digits| == 2 && IsHexDigit(digits[0]) && IsHexDigit(digits[1]) {
        assert digits == [digits[0], digits[1]];
        ParseIntTwoHexDigits(digits[0], digits[1]);
      }
    }
    var n := ParseInt(digits, 16);
    if n.Finite? then HexPair(Clamp(Round(n.value * factor), 0, 255)) else "NaN"
  }

  /**
   * `adjustColorBrightness`: the first `#` removed, each two-digit channel
   * multiplied by `factor`, rounded and clamped into [0, 255], re-emitted as
   * two lower-case hex digits.
   */
  function AdjustBrightness(color: string, factor: real): (r: string)
    ensures |r| >= 1 && r[0] == '#'
  {
    var hex := RemoveFirst(color, '#');
    "#" + ScaledChannel(Substring(hex, 0, 2), factor)
        + ScaledChannel(Substring(hex, 2, 4), factor)
        + ScaledChannel(Substring(hex, 4, 6), factor)
  }

  lemma SubstringPair(hex: string, i: nat)
    requires i + 2 <= |hex|
    ensures Substring(hex, i, i + 2) == [hex[i], hex[i + 1]]
  {
  }

  /** The three channels of a hex colour, each as its two digits. */
  lemma HexColorChannels(color: string)
    requires IsHexColor(color)
    ensures var hex := RemoveFirst(color, '#');
            && Substring(hex, 0, 2) == [color[1], color[2]]
            && Substring(hex, 2, 4) == [color[3], color[4]]
            && Substring(hex, 4, 6) == [color[5], color[6]]
  {
    RemoveLeading(color, '#');
    var hex := color[1..];
    SubstringPair(hex, 0);
    SubstringPair(hex, 2);
    SubstringPair(hex, 4);
  }

  /** A hex colour is adjusted channel by channel. */
  lemma AdjustBrightnessShape(color: string, factor: real)
    requires IsHexColor(color)
    ensures AdjustBrightness(color, factor) == "#" + ScaledChannel([color[1], color[2]], factor)
      + ScaledChannel([color[3], color[4]], factor) + ScaledChannel([color[5], color[6]], factor)
  {
    HexColorChannels(color);
  }

  lemma AssembleLowerHex(a: string, b: string, c: string)
    requires |a| == 2 && IsLowerHexDigit(a[0]) && IsLowerHexDigit(a[1])
    requires |b| == 2 && IsLowerHexDigit(b[0]) && IsLowerHexDigit(b[1])
    requires |c| == 2 && IsLowerHexDigit(c[0]) && IsLowerHexDigit(c[1])
    ensures IsLowerHexColor("#" + a + b + c)
  {
    var r := "#" + a + b + c;
    assert r[1] == a[0] && r[2] == a[1] && r[3] == b[0] && r[4] == b[1] && r[5] == c[0] && r[6] == c[1];
  }

  /** Every channel stays a readable two-digit value: a hex colour stays a lower-case hex colour. */
  lemma AdjustBrightnessOfHexColor(color: string, factor: real)
    requires IsHexColor(color)
    ensures IsLowerHexColor(AdjustBrightness(color, factor))
  {
    HexColorChannels(color);
    AssembleLowerHex(ScaledChannel([color[1], color[2]], factor),
                     ScaledChannel([color[3], color[4]], factor),
                     ScaledChannel([color[5], color[6]], factor));
  }

  /** `#rrggbb` in lower case for three channels. */
  function LowerHexColor(r: nat, g: nat, b: nat): (c: string)
    requires r < 256 && g < 256 && b < 256
    ensures IsLowerHexColor(c)
  {
    AssembleLowerHex(HexPair(r), HexPair(g), HexPair(b));
    "#" + HexPair(r) + HexPair(g) + HexPair(b)
  }

  /** Brightness factor 1 returns a lower-case colour unchanged: parsing and re-emitting each channel round-trips. */
  lemma AdjustBrightnessIdentity(r: nat, g: nat, b: nat)
    requires r < 256 && g < 256 && b < 256
    ensures AdjustBrightness(LowerHexColor(r, g, b), 1.0) == LowerHexColor(r, g, b)
  {
    var color := LowerHexColor(r, g, b);
    HexColorChannels(color);
    assert [color[1], color[2]] == HexPair(r);
    assert [color[3], color[4]] == HexPair(g);
    assert [color[5], color[6]] == HexPair(b);
    ChannelIdentity(r);
    ChannelIdentity(g);
    ChannelIdentity(b);
  }

  lemma ChannelIdentity(n: nat)
    requires n < 256
    ensures ScaledChannel(HexPair(n), 1.0) == HexPair(n)
  {
    ParseIntHexPair(n);
    assert Round(n as real * 1.0) == n;
  }

  /** Brightness factor 0 turns every readable colour black. */
  lemma AdjustBrightnessZero(color: string)
    requires IsHexColor(color)
    ensures AdjustBrightness(color, 0.0) == "#000000"
  {
    AdjustBrightnessShape(color, 0.0);
    assert IsHexDigit(color[1]) && IsHexDigit(color[2]) && IsHexDigit(color[3]);
    assert IsHexDigit(color[4]) && IsHexDigit(color[5]) && IsHexDigit(color[6]);
    ChannelZero(color[1], color[2]);
    ChannelZero(color[3], color[4]);
    ChannelZero(color[5], color[6]);
    BlackText();
  }

  lemma BlackText()
    ensures "#" + "00" + "00" + "00" == "#000000"
  {
  }

  lemma ChannelZero(a: char, b: char)
    requires IsHexDigit(a) && IsHexDigit(b)
    ensures ScaledChannel([a, b], 0.0) == "00"
  {
    ParseIntTwoHexDigits(a, b);
    assert HexString(0) == "0";
  }

  /** The named colours `normalizeColor` knows, keyed in lower case; other names are absent. */
  function NamedColor(name: string): (r: Option<string>)
    ensures r.Some? ==> IsUpperHexColor(r.value)
    ensures r.Some? <==> name in {"black", "white", "red", "green", "blue", "yellow", "cyan", "magenta", "gray", "grey",
                                  "silver", "maroon", "olive", "lime", "aqua", "teal", "navy", "fuchsia", "purple", "orange"}
  {
    if name == "black" then Some("#000000")
    else if name == "white" then Some("#FFFFFF")
    else if name == "red" then Some("#FF0000")
    else if name == "green" then Some("#008000")
    else if name == "blue" then Some("#0000FF")
    else if name == "yellow" then Some("#FFFF00")
    else if name == "cyan" then Some("#00FFFF")
    else if name == "magenta" then Some("#FF00FF")
    else if name == "gray" then Some("#808080")
    else if name == "grey" then Some("#808080")
    else if name == "silver" then Some("#C0C0C0")
    else if name == "maroon" then Some("#800000")
    else if name == "olive" then Some("#808000")
    else if name == "lime" then Some("#00FF00")
    else if name == "aqua" then Some("#00FFFF")
    else if name == "teal" then Some("#008080")
    else if name == "navy" then Some("#000080")
    else if name == "fuchsia" then Some("#FF00FF")
    else if name == "purple" then Some("#800080")
    else if name == "orange" then Some("#FFA500")
    else None
  }

  datatype Channels = Channels(r: nat, g: nat, b: nat)

  /** A run of one or more decimal digits at the start of `s`: its value and what follows. */
  function Field(s: string): (r: Option<(nat, string)>)
    ensures r.Some? ==> |r.value.1| < |s|
  {
    var k := DigitPrefix(s);
    if k == 0 then None else Some((DigitsValue(s[..k]), s[k..]))
  }

  /** Length of the run of digits and dots at the start of `s` (`[\d.]+`). */
  function DotDigitPrefix(s: string): (k: nat)
    ensures k <= |s|
  {
    if |s| == 0 || !(IsDigit(s[0]) || s[0] == '.') then 0 else 1 + DotDigitPrefix(s[1..])
  }

  /** What may follow the third channel: `)` or `,` white space, digits or dots, `)`. */
  predicate AlphaTail(t: string) {
    StartsWith(t, ")")
    || (StartsWith(t, ",")
        && var u := TrimStart(t[1..]);
        var k := DotDigitPrefix(u);
        k > 0 && k < |u| && u[k] == ')')
  }

  /**
   * A match of `rgba?\((\d+),\s*(\d+),\s*(\d+)(?:,\s*[\d.]+)?\)` anchored at
   * the start of `s`, with the three captured numbers.
   */
  function RgbCallAt(s: string): Option<Channels> {
    if !StartsWith(s, "rgb") then None
    else
      var a := s[3..];
      var b := if |a| > 0 && a[0] == 'a' then a[1..] else a;
      if |b| == 0 || b[0] != '(' then None else RgbArgs(b[1..])
  }

  /** The three numbers and the closing part after `rgb(`. */
  function RgbArgs(p: string): Option<Channels> {
    match Field(p)
    case None => None
    case Some((red, t1)) =>
      match NextField(t1)
      case None => None
      case Some((green, t2)) =>
        match NextField(t2)
        case None => None
        case Some((blue, t3)) => if AlphaTail(t3) then Some(Channels(red, green, blue)) else None
  }

  /** `,` then optional white space then a field. */
  function NextField(t: string): Option<(nat, string)> {
    if |t| == 0 || t[0] != ',' then None else Field(TrimStart(t[1..]))
  }

  /** The pattern first matches at position `i` of `s`: it matches there and at no earlier position. */
  predicate FirstCallAt(s: string, i: int) {
    && 0 <= i <= |s| && RgbCallAt(s[i..]).Some?
    && forall j | 0 <= j < i :: RgbCallAt(s[j..]).None?
  }

  /** The leftmost match of the `rgb(...)` pattern anywhere in `s` (the regular expression is not anchored). */
  function RgbSearch(s: string): (r: Option<Channels>)
    ensures r.None? <==> forall i | 0 <= i <= |s| :: RgbCallAt(s[i..]).None?
    ensures r.Some? ==> exists i | 0 <= i <= |s| :: RgbCallAt(s[i..]) == r
    ensures r.Some? ==> exists i | FirstCallAt(s, i) :: RgbCallAt(s[i..]) == r
    decreases |s|
  {
    if RgbCallAt(s).Some? then
      assert s[0..] == s && FirstCallAt(s, 0);
      RgbCallAt(s)
    else if |s| == 0 then
      assert forall i | 0 <= i <= |s| :: s[i..] == s;
      None
    else
      var r := RgbSearch(s[1..]);
      assert forall i | 1 <= i <= |s| :: s[i..] == s[1..][i - 1..];
      assert s[0..] == s;
      assert r.Some? ==> exists i | FirstCallAt(s, i) :: RgbCallAt(s[i..]) == r by {
        if r.Some? {
          var j :| FirstCallAt(s[1..], j) && RgbCallAt(s[1..][j..]) == r;
          assert s[j + 1..] == s[1..][j..];
          forall k | 0 <= k < j + 1 ensures RgbCallAt(s[k..]).None? {
            if k > 0 {
              assert s[k..] == s[1..][k - 1..];
            }
          }
          assert FirstCallAt(s, j + 1);
        }
      }
      r
  }

  /** `#` and each channel as upper-case hex, at least two digits (`toString(16).padStart(2,"0").toUpperCase()`). */
  function UpperChannels(c: Channels): (r: string)
    ensures |r| >= 7 && r[0] == '#'
  {
    "#" + UpperHex(c.r) + UpperHex(c.g) + UpperHex(c.b)
  }

  /** `n.toString(16).padStart(2, "0").toUpperCase()`. */
  function UpperHex(n: nat): (r: string)
    ensures |r| >= 2
    ensures forall i | 0 <= i < |r| :: IsUpperHexDigit(r[i])
  {
    var h := PadStart2(HexString(n));
    assert forall i | 0 <= i < |h| :: IsLowerHexDigit(h[i]);
    ToUpper(h)
  }

  /**
   * `normalizeColor` as written: trimmed and lower-cased, a `#rgb` shorthand is
   * expanded (still in lower case), a seven-character `#` value is upper-cased,
   * otherwise the first `rgb(...)` is converted, otherwise the named table.
   */
  function NormalizeColorAsWritten(color: string): (r: Option<string>)
    ensures r.Some? ==> |r.value| >= 1 && r.value[0] == '#'
  {
    var c := ToLower(Trim(color));
    if color == [] then None
    else if StartsWith(c, "#") && |c| == 4 then Some(Expand(c))
    else NormalizeRest(c)
  }

  /** `#rgb` written out as `#rrggbb`. */
  function Expand(c: string): (r: string)
    requires |c| == 4
    ensures |r| == 7 && r[0] == c[0] && r[6] == c[3]
    ensures forall i | 1 <= i < 7 :: r[i] == c[(i + 1) / 2]
  {
    [c[0], c[1], c[1], c[2], c[2], c[3], c[3]]
  }

  /** The branches of `normalizeColor` after the shorthand one, for a trimmed lower-case `c`. */
  function NormalizeRest(c: string): (r: Option<string>)
    ensures r.Some? ==> |r.value| >= 1 && r.value[0] == '#'
  {
    if StartsWith(c, "#") && |c| == 7 then Some(ToUpper(c))
    else
      match RgbSearch(c)
      case Some(ch) => Some(UpperChannels(ch))
      case None => NamedColor(c)
  }

  /** The same colour written as shorthand and in full gets two different normal forms. */
  lemma ShorthandNotCanonical()
    ensures NormalizeColorAsWritten("#fff") == Some("#ffffff")
    ensures NormalizeColorAsWritten("#ffffff") == Some("#FFFFFF")
  {
    ShorthandLowerCase();
    FullUpperCase();
  }

  lemma ShorthandLowerCase()
    ensures NormalizeColorAsWritten("#fff") == Some("#ffffff")
  {
    var c := "#fff";
    assert IsTrimmed(c) && ToLower(c) == c && StartsWith(c, "#");
    AsWrittenOfPlainHash(c);
    assert Expand(c) == "#ffffff";
  }

  lemma FullUpperCase()
    ensures NormalizeColorAsWritten("#ffffff") == Some("#FFFFFF")
  {
    var c := "#ffffff";
    assert ToUpper(c) == "#FFFFFF";
    assert ToLower(c) == c;
    assert IsTrimmed(c) && StartsWith(c, "#");
    AsWrittenOfPlainHash(c);
  }

  /** A trimmed, lower-case `#` value of four or seven characters takes the shorthand or the seven-character branch. */
  lemma AsWrittenOfPlainHash(c: string)
    requires IsTrimmed(c) && ToLower(c) == c && StartsWith(c, "#") && (|c| == 4 || |c| == 7)
    ensures |c| == 4 ==> NormalizeColorAsWritten(c) == Some(Expand(c))
    ensures |c| == 7 ==> NormalizeColorAsWritten(c) == Some(ToUpper(c))
  {
    TrimOfTrimmed(c);
  }

  /** `normalizeColor` with the shorthand expanded into the same upper-case form as the seven-character branch. */
  function NormalizeColor(color: string): (r: Option<string>)
    ensures r.Some? ==> |r.value| >= 1 && r.value[0] == '#'
  {
    var c := ToLower(Trim(color));
    if color == [] then None
    else if StartsWith(c, "#") && |c| == 4 then Some(ToUpper(Expand(c)))
    else NormalizeRest(c)
  }

  /** A shorthand and its full form normalise to the same colour. */
  lemma ShorthandMatchesFull(color: string)
    requires var c := ToLower(Trim(color)); color != [] && StartsWith(c, "#") && |c| == 4
    ensures NormalizeColor(color) == NormalizeColor(Expand(ToLower(Trim(color))))
  {
    var t := Trim(color);
    var c := ToLower(t);
    var full := Expand(c);
    assert !IsSpace(t[3]);
    assert !IsSpace(full[6]);
    TrimOfTrimmed(full);
    assert ToLower(full) == full;
  }

  /** `rgb(r, g, b)` with channels below 256 becomes `#RRGGBB`. */
  lemma NormalizeRgbCall(r: nat, g: nat, b: nat)
    requires r < 256 && g < 256 && b < 256
    ensures NormalizeColor(RgbCallText(r, g, b)) == Some(UpperChannels(Channels(r, g, b)))
  {
    var s := RgbCallText(r, g, b);
    RgbCallTextShape(r, g, b);
    TrimOfTrimmed(s);
    RgbCallTextLower(r, g, b);
    NormalizePlain(s);
    RgbCallParses(r, g, b);
  }

  /** Text that is already trimmed, lower case and not a `#` value goes straight to the pattern and the names. */
  lemma NormalizePlain(s: string)
    requires |s| > 0 && s[0] != '#' && Trim(s) == s && ToLower(s) == s
    ensures NormalizeColor(s) == NormalizeRest(s)
  {
    assert !StartsWith(s, "#");
  }

  /** The CSS text `rgb(r, g, b)`. */
  function RgbCallText(r: nat, g: nat, b: nat): string {
    "rgb(" + NatToString(r) + ", " + NatToString(g) + ", " + NatToString(b) + ")"
  }

  lemma RgbCallTextShape(r: nat, g: nat, b: nat)
    ensures var s := RgbCallText(r, g, b); |s| > 0 && s[0] == 'r' && s[|s| - 1] == ')'
  {
  }

  lemma RgbCallTextLower(r: nat, g: nat, b: nat)
    ensures ToLower(RgbCallText(r, g, b)) == RgbCallText(r, g, b)
  {
    var s := RgbCallText(r, g, b);
    forall i | 0 <= i < |s| ensures LowerChar(s[i]) == s[i] {
      DigitsLower(NatToString(r));
      DigitsLower(NatToString(g));
      DigitsLower(NatToString(b));
      AppendLower("rgb(", NatToString(r));
      AppendLower("rgb(" + NatToString(r), ", ");
      AppendLower("rgb(" + NatToString(r) + ", ", NatToString(g));
      AppendLower("rgb(" + NatToString(r) + ", " + NatToString(g), ", ");
      AppendLower("rgb(" + NatToString(r) + ", " + NatToString(g) + ", ", NatToString(b));
      AppendLower("rgb(" + NatToString(r) + ", " + NatToString(g) + ", " + NatToString(b), ")");
    }
  }

  predicate LowerFixed(s: string) {
    forall i | 0 <= i < |s| :: LowerChar(s[i]) == s[i]
  }

  lemma DigitsLower(s: string)
    requires AllDigits(s)
    ensures LowerFixed(s)
  {
  }

  lemma AppendLower(a: string, b: string)
    requires LowerFixed(a) && LowerFixed(b)
    ensures LowerFixed(a + b)
  {
  }

  /** Digits followed by a non-digit form one field. */
  lemma {:induction false} FieldOfDigits(d: string, rest: string)
    requires |d| > 0 && AllDigits(d) && |rest| > 0 && !IsDigit(rest[0])
    ensures Field(d + rest) == Some((DigitsValue(d), rest))
  {
    DigitPrefixThen(d, rest);
    assert (d + rest)[..|d|] == d;
    assert (d + rest)[|d|..] == rest;
  }

  lemma {:induction false} DigitPrefixThen(d: string, rest: string)
    requires AllDigits(d) && (|rest| == 0 || !IsDigit(rest[0]))
    ensures DigitPrefix(d + rest) == |d|
    decreases |d|
  {
    if |d| > 0 {
      DigitPrefixThen(d[1..], rest);
      assert (d + rest)[1..] == d[1..] + rest;
    } else {
      assert d + rest == rest;
    }
  }

  /** The pattern matches `rgb(r, g, b)` at its first character. */
  lemma RgbCallParses(r: nat, g: nat, b: nat)
    ensures RgbSearch(RgbCallText(r, g, b)) == Some(Channels(r, g, b))
  {
    DigitsValueOfNatToString(r);
    DigitsValueOfNatToString(g);
    DigitsValueOfNatToString(b);
    RgbCallAtDigits(NatToString(r), NatToString(g), NatToString(b));
  }

  lemma RgbCallAtDigits(x: string, y: string, z: string)
    requires |x| > 0 && |y| > 0 && |z| > 0 && AllDigits(x) && AllDigits(y) && AllDigits(z)
    ensures RgbCallAt("rgb(" + x + ", " + y + ", " + z + ")")
         == Some(Channels(DigitsValue(x), DigitsValue(y), DigitsValue(z)))
  {
    var t2 := ", " + z + ")";
    var t1 := ", " + y + t2;
    assert "rgb(" + x + ", " + y + ", " + z + ")" == "rgb(" + (x + t1);
    RgbPrefix(x + t1);
    RgbArgsDigits(x, y, z);
  }

  lemma RgbArgsDigits(x: string, y: string, z: string)
    requires |x| > 0 && |y| > 0 && |z| > 0 && AllDigits(x) && AllDigits(y) && AllDigits(z)
    ensures RgbArgs(x + (", " + y + (", " + z + ")")))
         == Some(Channels(DigitsValue(x), DigitsValue(y), DigitsValue(z)))
  {
    var t2 := ", " + z + ")";
    var t1 := ", " + y + t2;
    FieldOfDigits(x, t1);
    TailFields(y, z);
    RgbArgsOfFields(x + t1, t1, t2, ")", DigitsValue(x), DigitsValue(y), DigitsValue(z));
  }

  /** The second and third fields and the closing parenthesis of `, y, z)`. */
  lemma TailFields(y: string, z: string)
    requires |y| > 0 && |z| > 0 && AllDigits(y) && AllDigits(z)
    ensures NextField(", " + y + (", " + z + ")")) == Some((DigitsValue(y), ", " + z + ")"))
    ensures NextField(", " + z + ")") == Some((DigitsValue(z), ")")) && AlphaTail(")")
  {
    CommaSpaceField(y, ", " + z + ")");
    CommaSpaceField(z, ")");
  }

  /** Three fields read in turn, then an accepted tail, make the channels. */
  lemma RgbArgsOfFields(p: string, t1: string, t2: string, t3: string, red: nat, green: nat, blue: nat)
    requires Field(p) == Some((red, t1)) && NextField(t1) == Some((green, t2))
    requires NextField(t2) == Some((blue, t3)) && AlphaTail(t3)
    ensures RgbArgs(p) == Some(Channels(red, green, blue))
  {
  }

  lemma RgbPrefix(q: string)
    ensures RgbCallAt("rgb(" + q) == RgbArgs(q)
  {
    var s := "rgb(" + q;
    assert StartsWith(s, "rgb");
    assert s[3..] == "(" + q;
    assert s[3..][1..] == q;
  }

  /** `, ` then digits then a non-digit: the comma, the skipped space, and one field. */
  lemma CommaSpaceField(y: string, rest: string)
    requires |y| > 0 && AllDigits(y) && |rest| > 0 && !IsDigit(rest[0])
    ensures NextField(", " + y + rest) == Some((DigitsValue(y), rest))
  {
    var t := ", " + y + rest;
    var u := t[1..];
    assert u == " " + (y + rest);
    assert !IsSpace(y[0]);
    assert u[1..] == y + rest;
    assert LeadingSpaces(u) == 1;
    FieldOfDigits(y, rest);
  }

  /** Upper-cased characters that lower- then upper-casing leaves alone. */
  predicate UpperFixed(s: string) {
    forall i | 0 <= i < |s| :: UpperChar(LowerChar(s[i])) == s[i]
  }

  lemma UpperFixedOfUpper(s: string)
    ensures UpperFixed(ToUpper(s))
  {
  }

  lemma UpperHexColorFixed(s: string)
    requires IsUpperHexColor(s)
    ensures UpperFixed(s) && !IsSpace(s[6])
  {
  }

  lemma AssembleUpperHex(x: string, y: string, z: string)
    requires |x| == 2 && |y| == 2 && |z| == 2
    requires forall i | 0 <= i < 2 :: IsUpperHexDigit(x[i]) && IsUpperHexDigit(y[i]) && IsUpperHexDigit(z[i])
    ensures IsUpperHexColor("#" + x + y + z)
  {
    var r := "#" + x + y + z;
    assert r[1] == x[0] && r[2] == x[1] && r[3] == y[0] && r[4] == y[1] && r[5] == z[0] && r[6] == z[1];
  }

  /** A seven-character `rgb(...)` result has two digits per channel. */
  lemma UpperChannelsSeven(ch: Channels)
    requires |UpperChannels(ch)| == 7
    ensures IsUpperHexColor(UpperChannels(ch))
  {
    AssembleUpperHex(UpperHex(ch.r), UpperHex(ch.g), UpperHex(ch.b));
  }

  /** Every seven-character result is stable under lower- then upper-casing and does not end in white space. */
  lemma NormalizedSevenFixed(color: string)
    requires NormalizeColor(color).Some? && |NormalizeColor(color).value| == 7
    ensures UpperFixed(NormalizeColor(color).value) && !IsSpace(NormalizeColor(color).value[6])
  {
    var r := NormalizeColor(color).value;
    var t := Trim(color);
    var c := ToLower(t);
    if StartsWith(c, "#") && (|c| == 4 || |c| == 7) {
      assert !IsSpace(t[|t| - 1]);
      assert !IsSpace(c[|c| - 1]);
      if |c| == 4 {
        UpperFixedOfUpper(Expand(c));
      } else {
        UpperFixedOfUpper(c);
      }
    } else {
      match RgbSearch(c)
      case Some(ch) => UpperChannelsSeven(ch); UpperHexColorFixed(r);
      case None => UpperHexColorFixed(r);
    }
  }

  /** Every seven-character result is a fixed point: normalising it again changes nothing. */
  lemma NormalizeIdempotent(color: string)
    requires NormalizeColor(color).Some? && |NormalizeColor(color).value| == 7
    ensures NormalizeColor(NormalizeColor(color).value) == NormalizeColor(color)
  {
    var r := NormalizeColor(color).value;
    NormalizedSevenFixed(color);
    TrimOfTrimmed(r);
    var c := ToLower(r);
    assert ToUpper(c) == r;
  }
}
