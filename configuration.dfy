/**
 * `Configuration`: the style and behaviour settings of a rich-text view, its default
 * initialiser and the CSS rules it compiles to for one appearance mode.
 *
 * The record is generic in the type of its link-open setting, because the web view of
 * Views/Webview.swift reads a link-open type with a custom-callback case that the enum of
 * Models/RichTextEnums.swift does not declare (see the RichTextWebView module).
 */
module Configurations {
  import opened Wrappers
  import opened Text
  import opened Environment
  import opened RichTextEnums
  import opened ColorSets
  import opened TextAlignmentExtension
  import RichTextConstants

  /** A SwiftUI `Animation`, left abstract. */
  datatype Animation = Animation(name: string)

  datatype Configuration<L> = Configuration(
    customCSS: string,
    fontType: FontType,
    fontColor: ColorSet,
    lineHeight: real,
    colorScheme: ColorScheme,
    imageRadius: real,
    linkOpenType: L,
    linkColor: ColorSet,
    isColorsImportant: ColorPreference,
    transition: Option<Animation>)

  /** `Configuration()`: every argument of the initialiser at its default. */
  function DefaultConfiguration(): Configuration<LinkOpenType> {
    Configuration(
      "", System, ColorSet("000000", "F2F2F2", false), 170.0, Auto, 0.0,
      Safari, ColorSet("007AFF", "0A84FF", true), OnlyLinks, Option.None)
  }

  /** The initialiser's literal defaults agree with the library's named default constants. */
  lemma DefaultsMatchConstants()
    ensures DefaultConfiguration().customCSS == ""
    ensures DefaultConfiguration().lineHeight == RichTextConstants.DefaultLineHeight
    ensures DefaultConfiguration().imageRadius == RichTextConstants.DefaultImageRadius
    ensures DefaultConfiguration().fontColor == FromHex(RichTextConstants.DefaultLightColor, RichTextConstants.DefaultDarkColor)
    ensures !DefaultConfiguration().fontColor.isImportant
    ensures DefaultConfiguration().linkColor
         == FromHex(RichTextConstants.DefaultLinkLightColor, RichTextConstants.DefaultLinkDarkColor, true)
    ensures DefaultConfiguration().fontType == System && DefaultConfiguration().colorScheme == Auto
    ensures DefaultConfiguration().linkOpenType == Safari && DefaultConfiguration().isColorsImportant == OnlyLinks
    ensures DefaultConfiguration().transition == Option.None
  {
  }

  const ImageRulePrefix: string :=
    "img{max-height: 100%; min-height: 100%; height:auto; max-width: 100%; width:auto;margin-bottom:5px; "
  const TextRuleSelectors: string := ";}\nh1, h2, h3, h4, h5, h6, p, div, dl, ol, ul, pre, blockquote {"

  /**
   * The fixed text colour the web views before `Configuration` write: `#` and the hex digits,
   * a space, `!important` when the flag is set, and the `;` that ends the declaration.
   */
  function FixedColorDeclaration(hex: string, important: bool): string {
    "color: #" + hex + " " + (if important then "!important" else "") + ";"
  }

  /** For hex digits without `!`, the declaration carries `!important` exactly when the flag is set. */
  lemma FixedColorImportance(hex: string, important: bool)
    requires '!' !in hex
    ensures Contains(FixedColorDeclaration(hex, important), "!important") <==> important
  {
    var d := FixedColorDeclaration(hex, important);
    if important {
      ContainsMiddle("color: #" + hex + " ", "!important", ";");
    } else {
      assert d == "color: #" + hex + " ;";
      assert '!' !in d by {
        forall i | 0 <= i < |d| ensures d[i] != '!' {
          if 8 <= i < 8 + |hex| {
            assert d[i] == hex[i - 8];
          }
        }
      }
      MissingFirstCharNotContained(d, "!important");
    }
  }

  /** The declarations `css` interpolates, in the order it writes them. */
  function CssDeclarations<L>(c: Configuration<L>, isLight: bool, alignment: TextAlignment, env: Env): seq<string> {
    ["border-radius: " + env.describe(c.imageRadius) + "px",
     "text-align:" + HtmlDescription(alignment),
     "line-height: " + env.describe(c.lineHeight) + "%",
     "font-family: '" + FontName(c.fontType, env) + "' !important",
     "color: " + Value(c.fontColor, isLight) + ";",
     "a:link {color: " + Value(c.linkColor, isLight) + ";}"]
  }

  /**
   * `css(isLight:alignment:)`: the image, text, iframe and link rules for one appearance mode,
   * carrying the corner radius, the alignment, the line height, the font family (always
   * `!important`), the text colour and the link colour of that mode, in this order.
   * The numbers are written the way Swift prints a `CGFloat` (`env.describe`).
   */
  function Css<L>(c: Configuration<L>, isLight: bool, alignment: TextAlignment, env: Env): (r: string)
    ensures InOrder(r, CssDeclarations(c, isLight, alignment, env))
    ensures forall k | 0 <= k < 6 :: Contains(r, CssDeclarations(c, isLight, alignment, env)[k])
  {
    var ds := CssDeclarations(c, isLight, alignment, env);
    var r := ImageRulePrefix + ds[0] + TextRuleSelectors + ds[1] + "; " + ds[2] + "; " + ds[3] + "; " + ds[4]
             + " }\niframe{width:100%; height:250px;}\n" + ds[5] + "\nA {text-decoration: none;}";
    RuleOrder(r, ImageRulePrefix, TextRuleSelectors, ds, " }\niframe{width:100%; height:250px;}\n");
    r
  }

  /**
   * The layout shared by every revision's rule text: the image rule opens with the corner
   * radius, the text rule follows its selector list with four declarations, and the link
   * rule comes after the iframe rule. `colorEnd` is what a revision writes between the
   * colour and the link rule.
   */
  lemma RuleOrder(r: string, imagePrefix: string, selectors: string, ds: seq<string>, colorEnd: string)
    requires |ds| == 6
    requires r == imagePrefix + ds[0] + selectors + ds[1] + "; " + ds[2] + "; " + ds[3] + "; " + ds[4]
             + colorEnd + ds[5] + "\nA {text-decoration: none;}"
    ensures InOrder(r, ds)
    ensures forall k | 0 <= k < 6 :: Contains(r, ds[k])
  {
    var s0 := imagePrefix + ds[0];
    InOrderOne(imagePrefix, ds[0]);
    assert ds[..1] == [ds[0]];
    InOrderSnoc(s0, ds[..1], selectors, ds[1]);
    var s1 := s0 + selectors + ds[1];
    assert ds[..1] + [ds[1]] == ds[..2];
    InOrderSnoc(s1, ds[..2], "; ", ds[2]);
    var s2 := s1 + "; " + ds[2];
    assert ds[..2] + [ds[2]] == ds[..3];
    InOrderSnoc(s2, ds[..3], "; ", ds[3]);
    var s3 := s2 + "; " + ds[3];
    assert ds[..3] + [ds[3]] == ds[..4];
    InOrderSnoc(s3, ds[..4], "; ", ds[4]);
    var s4 := s3 + "; " + ds[4];
    assert ds[..4] + [ds[4]] == ds[..5];
    InOrderSnoc(s4, ds[..5], colorEnd, ds[5]);
    var s5 := s4 + colorEnd + ds[5];
    assert ds[..5] + [ds[5]] == ds;
    InOrderAppend(s5, ds, "\nA {text-decoration: none;}");
    forall k | 0 <= k < 6 ensures Contains(r, ds[k]) {
      InOrderContains(r, ds, k);
    }
  }

  /**
   * The light and the dark rules differ whenever the two text colours are different hex
   * strings of the same length: everything before the colour is the same in both modes.
   */
  lemma {:induction false} CssModesDiffer<L>(c: Configuration<L>, alignment: TextAlignment, env: Env)
    requires c.fontColor.light != c.fontColor.dark && |c.fontColor.light| == |c.fontColor.dark|
    ensures Css(c, true, alignment, env) != Css(c, false, alignment, env)
  {
    var lt, dk := CssDeclarations(c, true, alignment, env), CssDeclarations(c, false, alignment, env);
    var a := ImageRulePrefix + lt[0] + TextRuleSelectors + lt[1] + "; " + lt[2] + "; " + lt[3] + "; ";
    assert a == ImageRulePrefix + dk[0] + TextRuleSelectors + dk[1] + "; " + dk[2] + "; " + dk[3] + "; ";
    var vl, vd := Value(c.fontColor, true), Value(c.fontColor, false);
    ValueModesAgree(c.fontColor);
    var g, t := " }\niframe{width:100%; height:250px;}\n", "\nA {text-decoration: none;}";
    assert Css(c, true, alignment, env) == a + ("color: " + vl + ";") + g + lt[5] + t;
    assert Css(c, false, alignment, env) == a + ("color: " + vd + ";") + g + dk[5] + t;
    DifferentMiddles(a, "color: ", vl, vd, ";", g, lt[5], dk[5], t);
  }

  /** Two texts that share a prefix but then differ in a middle piece of the same length are different. */
  lemma DifferentMiddles(a: string, p: string, v: string, w: string, q: string, g: string, e: string, f: string, t: string)
    requires |v| == |w| && v != w
    ensures a + (p + v + q) + g + e + t != a + (p + w + q) + g + f + t
  {
    var s1 := a + (p + v + q) + g + e + t;
    var s2 := a + (p + w + q) + g + f + t;
    assert s1 == a + p + v + (q + g + e + t);
    assert s2 == a + p + w + (q + g + f + t);
    assert s1[|a + p|..|a + p| + |v|] == v;
    assert s2[|a + p|..|a + p| + |w|] == w;
  }

  /** For the default configuration the two modes give different rules. */
  lemma DefaultCssModesDiffer(alignment: TextAlignment, env: Env)
    ensures Css(DefaultConfiguration(), true, alignment, env) != Css(DefaultConfiguration(), false, alignment, env)
  {
    CssModesDiffer(DefaultConfiguration(), alignment, env);
  }

  /**
   * `css` reads only the image radius, the line height, the font type, the two colour sets
   * and the alignment: configurations that agree on those give the same rules.
   */
  lemma CssFrame<L, M>(c: Configuration<L>, d: Configuration<M>, isLight: bool, alignment: TextAlignment, env: Env)
    requires c.imageRadius == d.imageRadius && c.lineHeight == d.lineHeight && c.fontType == d.fontType
    requires c.fontColor == d.fontColor && c.linkColor == d.linkColor
    ensures Css(c, isLight, alignment, env) == Css(d, isLight, alignment, env)
  {
    assert CssDeclarations(c, isLight, alignment, env) == CssDeclarations(d, isLight, alignment, env);
  }
}
