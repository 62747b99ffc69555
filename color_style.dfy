/**
 * `notepad_color_style`, the page-head hook that turns the stored colour
 * settings into inline CSS. The two colours and the custom CSS that the hook
 * reads with `get_theme_mod` are parameters here, and the text it echoes is the
 * returned value: None when it returns before echoing anything.
 */
module ColorStyle {

  import opened Wrappers
  import opened Php
  import opened Sanitizers

  /** The default primary colour the setting is registered with. */
  const DefaultPrimary: string := "#EF7A7A"

  /** The two spellings of the default that suppress all output. */
  predicate IsDefaultSpelling(primary: string)
    ensures IsDefaultSpelling(primary) ==> IsHexColor(primary)
  {
    primary == "#ef7a7a" || primary == "#EF7A7A"
  }

  // ---------------------------------------------------------------------------
  // The colour-scheme template
  // ---------------------------------------------------------------------------

  /** A piece of the colour-scheme template: fixed text or one of the two colours. */
  datatype Piece = Text(text: string) | PrimaryColor | SecondaryColor

  /** What one piece contributes once the colours are known. */
  function PieceText(piece: Piece, primary: string, secondary: string): string {
    match piece
    case Text(t) => t
    case PrimaryColor => primary
    case SecondaryColor => secondary
  }

  /** The template with every colour written in as it is, without escaping. */
  function Fill(template: seq<Piece>, primary: string, secondary: string): string {
    if template == [] then ""
    else PieceText(template[0], primary, secondary) + Fill(template[1..], primary, secondary)
  }

  function CountPrimary(template: seq<Piece>): nat {
    if template == [] then 0
    else (if template[0] == PrimaryColor then 1 else 0) + CountPrimary(template[1..])
  }

  function CountSecondary(template: seq<Piece>): nat {
    if template == [] then 0
    else (if template[0] == SecondaryColor then 1 else 0) + CountSecondary(template[1..])
  }

  /** The total length of the template's fixed text. */
  function TextLength(template: seq<Piece>): nat {
    if template == [] then 0
    else (if template[0].Text? then |template[0].text| else 0) + TextLength(template[1..])
  }

  /** Filling distributes over concatenation. */
  lemma {:induction false} FillAppend(t: seq<Piece>, u: seq<Piece>, primary: string, secondary: string)
    ensures Fill(t + u, primary, secondary) == Fill(t, primary, secondary) + Fill(u, primary, secondary)
    decreases |t|
  {
    if t == [] {
      assert t + u == u;
    } else {
      assert (t + u)[0] == t[0];
      assert (t + u)[1..] == t[1..] + u;
      FillAppend(t[1..], u, primary, secondary);
    }
  }

  /** Counting holes and measuring text add up over concatenation. */
  lemma {:induction false} HolesAppend(t: seq<Piece>, u: seq<Piece>)
    ensures CountPrimary(t + u) == CountPrimary(t) + CountPrimary(u)
    ensures CountSecondary(t + u) == CountSecondary(t) + CountSecondary(u)
    ensures TextLength(t + u) == TextLength(t) + TextLength(u)
    decreases |t|
  {
    if t == [] {
      assert t + u == u;
    } else {
      assert (t + u)[0] == t[0];
      assert (t + u)[1..] == t[1..] + u;
      HolesAppend(t[1..], u);
    }
  }

  /** Unfolding the template one piece at a time from the front. */
  lemma FillCons(piece: Piece, rest: seq<Piece>, primary: string, secondary: string)
    ensures Fill([piece] + rest, primary, secondary)
            == PieceText(piece, primary, secondary) + Fill(rest, primary, secondary)
  {
    FillAppend([piece], rest, primary, secondary);
    assert [piece][1..] == [];
    assert PieceText(piece, primary, secondary) + "" == PieceText(piece, primary, secondary);
  }

  /** What one piece in front adds to the hole counts and the text length. */
  lemma HolesCons(piece: Piece, rest: seq<Piece>)
    ensures CountPrimary([piece] + rest) == (if piece == PrimaryColor then 1 else 0) + CountPrimary(rest)
    ensures CountSecondary([piece] + rest) == (if piece == SecondaryColor then 1 else 0) + CountSecondary(rest)
    ensures TextLength([piece] + rest) == (if piece.Text? then |piece.text| else 0) + TextLength(rest)
  {
    HolesAppend([piece], rest);
    assert [piece][1..] == [];
  }

  /** One more hole adds one more copy of the colour. */
  lemma MulSucc(count: nat, width: nat)
    ensures (count + 1) * width == count * width + width
  {
  }

  /**
   * The filled template is its fixed text plus one copy of a colour per hole:
   * no colour is dropped, repeated, shortened or padded.
   */
  lemma {:induction false} FillLength(template: seq<Piece>, primary: string, secondary: string)
    ensures |Fill(template, primary, secondary)|
            == TextLength(template) + CountPrimary(template) * |primary| + CountSecondary(template) * |secondary|
  {
    if template != [] {
      var rest := template[1..];
      FillLength(rest, primary, secondary);
      match template[0]
      case Text(_) =>
      case PrimaryColor =>
        MulSucc(CountPrimary(rest), |primary|);
      case SecondaryColor =>
        MulSucc(CountSecondary(rest), |secondary|);
    }
  }

  // The fixed text between the holes, as the PHP file emits it. The newline
  // straight after the `?>` that opens the template is swallowed by PHP.

  const BeforeFirstBackground: string := ColorSchemeOpen + FirstBackgroundSelectors

  const FirstBackgroundSelectors: string :=
    "\n" +
    "\n" +
    "                #footercontainer,\n" +
    "                .pagination .page-numbers:hover,\n" +
    "                li span.current,\n" +
    "                li a:hover.page-numbers,\n" +
    "                button:hover,\n" +
    "                input:hover[type=\"button\"],\n" +
    "                input:hover[type=\"reset\"],\n" +
    "                input:hover[type=\"submit\"],\n" +
    "                .button:hover,\n" +
    "                .entry-content .button:hover,\n" +
    "                .main-navigation ul ul,\n" +
    "                .footer-wrap\n" +
    "                {\n" +
    "                    background: "

  const BeforeSelectionBackground: string :=
    " ;\n" +
    "                }\n" +
    "\n" +
    "                ::selection,\n" +
    "                ::-webkit-selection,\n" +
    "                ::-moz-selection,\n" +
    "                .more-link:hover,\n" +
    "                .widget_search #searchsubmit\n" +
    "                {\n" +
    "                    background:"

  const BeforeSelectionColor: string :=
    " ;\n" +
    "                    color:"

  const BeforeTitleColor: string :=
    " ;\n" +
    "                }\n" +
    "\n" +
    "                .site-title a,\n" +
    "                .sidebar a,\n" +
    "                .entry-header .entry-title a,\n" +
    "                .entry-header .entry-title,\n" +
    "                .main-navigation ul ul a:hover,\n" +
    "                .entry-header h1 a:visited {\n" +
    "                    color:"

  const BeforeSubmenuColor: string :=
    " ;\n" +
    "                }\n" +
    "                \n" +
    "                .main-navigation ul ul a,\n" +
    "                .more-link {\n" +
    "                    color:"

  const AfterSubmenuColor: string := SubmenuRuleEnd + ColorSchemeClose

  const SubmenuRuleEnd: string :=
    " ;\n" +
    "                }\n" +
    "\n"

  /** The opening tag of the colour-scheme block, and its closing tag. */
  const ColorSchemeOpen: string := "\t<style type=\"text/css\" id=\"notepad-colorscheme-css\">"
  const ColorSchemeClose: string := "\t</style>\n"

  /**
   * The shape of the colour-scheme template: six runs of fixed text around
   * holes for the primary, primary, secondary, primary and secondary colour.
   * It is built from the back, one piece in front of the rest at a time.
   */
  function SchemeLayout(a: string, b: string, c: string, d: string, e: string, f: string): seq<Piece> {
    [Text(a)] + ([PrimaryColor] + ([Text(b)] + ([PrimaryColor] + ([Text(c)] + ([SecondaryColor]
      + ([Text(d)] + ([PrimaryColor] + ([Text(e)] + ([SecondaryColor] + [Text(f)])))))))))
  }

  /** The last five pieces of the shape: text, primary, text, secondary, text. */
  function SchemeTail(d: string, e: string, f: string): seq<Piece> {
    [Text(d)] + ([PrimaryColor] + ([Text(e)] + ([SecondaryColor] + [Text(f)])))
  }

  lemma SchemeTailFill(d: string, e: string, f: string, primary: string, secondary: string)
    ensures Fill(SchemeTail(d, e, f), primary, secondary) == d + (primary + (e + (secondary + f)))
  {
    var p, s := primary, secondary;
    var t10 := [Text(f)];
    var t9 := [SecondaryColor] + t10;
    var t8 := [Text(e)] + t9;
    var t7 := [PrimaryColor] + t8;
    assert t10 == [Text(f)] + [];
    FillCons(Text(f), [], p, s);
    FillCons(SecondaryColor, t10, p, s);
    FillCons(Text(e), t9, p, s);
    FillCons(PrimaryColor, t8, p, s);
    FillCons(Text(d), t7, p, s);
  }

  /**
   * Filling that shape writes each colour in at its holes and leaves the text
   * alone (the concatenation is grouped from the back, as the shape is built).
   */
  lemma SchemeLayoutFill(a: string, b: string, c: string, d: string, e: string, f: string,
                         primary: string, secondary: string)
    ensures Fill(SchemeLayout(a, b, c, d, e, f), primary, secondary)
            == a + (primary + (b + (primary + (c + (secondary + (d + (primary + (e + (secondary + f)))))))))
  {
    var p, s := primary, secondary;
    var t6 := SchemeTail(d, e, f);
    var t5 := [SecondaryColor] + t6;
    var t4 := [Text(c)] + t5;
    var t3 := [PrimaryColor] + t4;
    var t2 := [Text(b)] + t3;
    var t1 := [PrimaryColor] + t2;
    assert SchemeLayout(a, b, c, d, e, f) == [Text(a)] + t1;
    SchemeTailFill(d, e, f, p, s);
    FillCons(SecondaryColor, t6, p, s);
    FillCons(Text(c), t5, p, s);
    FillCons(PrimaryColor, t4, p, s);
    FillCons(Text(b), t3, p, s);
    FillCons(PrimaryColor, t2, p, s);
    FillCons(Text(a), t1, p, s);
  }

  /** That shape has three holes for the primary colour. */
  lemma SchemeLayoutPrimaryHoles(a: string, b: string, c: string, d: string, e: string, f: string)
    ensures CountPrimary(SchemeLayout(a, b, c, d, e, f)) == 3
  {
    var t10 := [Text(f)];
    var t9 := [SecondaryColor] + t10;
    var t8 := [Text(e)] + t9;
    var t7 := [PrimaryColor] + t8;
    var t6 := [Text(d)] + t7;
    var t5 := [SecondaryColor] + t6;
    var t4 := [Text(c)] + t5;
    var t3 := [PrimaryColor] + t4;
    var t2 := [Text(b)] + t3;
    var t1 := [PrimaryColor] + t2;
    assert t10 == [Text(f)] + [];
    HolesCons(Text(f), []);
    HolesCons(SecondaryColor, t10);
    HolesCons(Text(e), t9);
    HolesCons(PrimaryColor, t8);
    HolesCons(Text(d), t7);
    HolesCons(SecondaryColor, t6);
    HolesCons(Text(c), t5);
    HolesCons(PrimaryColor, t4);
    HolesCons(Text(b), t3);
    HolesCons(PrimaryColor, t2);
    HolesCons(Text(a), t1);
  }

  /** That shape has two holes for the secondary colour. */
  lemma SchemeLayoutSecondaryHoles(a: string, b: string, c: string, d: string, e: string, f: string)
    ensures CountSecondary(SchemeLayout(a, b, c, d, e, f)) == 2
  {
    var t10 := [Text(f)];
    var t9 := [SecondaryColor] + t10;
    var t8 := [Text(e)] + t9;
    var t7 := [PrimaryColor] + t8;
    var t6 := [Text(d)] + t7;
    var t5 := [SecondaryColor] + t6;
    var t4 := [Text(c)] + t5;
    var t3 := [PrimaryColor] + t4;
    var t2 := [Text(b)] + t3;
    var t1 := [PrimaryColor] + t2;
    assert t10 == [Text(f)] + [];
    HolesCons(Text(f), []);
    HolesCons(SecondaryColor, t10);
    HolesCons(Text(e), t9);
    HolesCons(PrimaryColor, t8);
    HolesCons(Text(d), t7);
    HolesCons(SecondaryColor, t6);
    HolesCons(Text(c), t5);
    HolesCons(PrimaryColor, t4);
    HolesCons(Text(b), t3);
    HolesCons(PrimaryColor, t2);
    HolesCons(Text(a), t1);
  }

  /** That shape has exactly the six runs of text as fixed text. */
  lemma SchemeLayoutText(a: string, b: string, c: string, d: string, e: string, f: string)
    ensures TextLength(SchemeLayout(a, b, c, d, e, f)) == |a| + |b| + |c| + |d| + |e| + |f|
  {
    var t10 := [Text(f)];
    var t9 := [SecondaryColor] + t10;
    var t8 := [Text(e)] + t9;
    var t7 := [PrimaryColor] + t8;
    var t6 := [Text(d)] + t7;
    var t5 := [SecondaryColor] + t6;
    var t4 := [Text(c)] + t5;
    var t3 := [PrimaryColor] + t4;
    var t2 := [Text(b)] + t3;
    var t1 := [PrimaryColor] + t2;
    assert t10 == [Text(f)] + [];
    HolesCons(Text(f), []);
    HolesCons(SecondaryColor, t10);
    HolesCons(Text(e), t9);
    HolesCons(PrimaryColor, t8);
    HolesCons(Text(d), t7);
    HolesCons(SecondaryColor, t6);
    HolesCons(Text(c), t5);
    HolesCons(PrimaryColor, t4);
    HolesCons(Text(b), t3);
    HolesCons(PrimaryColor, t2);
    HolesCons(Text(a), t1);
  }

  const ColorSchemeTemplate: seq<Piece> :=
    SchemeLayout(BeforeFirstBackground, BeforeSelectionBackground, BeforeSelectionColor,
                 BeforeTitleColor, BeforeSubmenuColor, AfterSubmenuColor)

  /** The template has three holes for the primary colour and two for the secondary. */
  lemma ColorSchemeTemplateHoles()
    ensures CountPrimary(ColorSchemeTemplate) == 3
    ensures CountSecondary(ColorSchemeTemplate) == 2
  {
    SchemeLayoutPrimaryHoles(BeforeFirstBackground, BeforeSelectionBackground, BeforeSelectionColor,
                             BeforeTitleColor, BeforeSubmenuColor, AfterSubmenuColor);
    SchemeLayoutSecondaryHoles(BeforeFirstBackground, BeforeSelectionBackground, BeforeSelectionColor,
                               BeforeTitleColor, BeforeSubmenuColor, AfterSubmenuColor);
  }

  /**
   * The `<style id="notepad-colorscheme-css">` block for the two colours. It
   * opens with its style tag and closes with `\t</style>` and a newline.
   */
  function ColorSchemeBlock(primary: string, secondary: string): (r: string)
    ensures ColorSchemeOpen <= r
    ensures EndsWith(r, ColorSchemeClose)
  {
    SchemeLayoutDelimited(BeforeFirstBackground, BeforeSelectionBackground, BeforeSelectionColor,
                          BeforeTitleColor, BeforeSubmenuColor, AfterSubmenuColor,
                          ColorSchemeOpen, FirstBackgroundSelectors, SubmenuRuleEnd, ColorSchemeClose,
                          primary, secondary);
    Fill(ColorSchemeTemplate, primary, secondary)
  }

  /**
   * The colour-scheme block is fixed text with the primary colour written in
   * verbatim at its first, second and fourth holes and the secondary colour at
   * its third and fifth; no other part of it depends on the colours.
   */
  lemma ColorSchemeBlockShape(primary: string, secondary: string)
    ensures ColorSchemeBlock(primary, secondary)
            == BeforeFirstBackground + (primary
               + (BeforeSelectionBackground + (primary
               + (BeforeSelectionColor + (secondary
               + (BeforeTitleColor + (primary
               + (BeforeSubmenuColor + (secondary
               + AfterSubmenuColor)))))))))
  {
    SchemeLayoutFill(BeforeFirstBackground, BeforeSelectionBackground, BeforeSelectionColor,
                     BeforeTitleColor, BeforeSubmenuColor, AfterSubmenuColor, primary, secondary);
  }

  /** `close` is a suffix of `w`. */
  predicate EndsWith(w: string, close: string) {
    |close| <= |w| && w[|w| - |close|..] == close
  }

  /** Text put in front keeps the suffix. */
  lemma EndsWithPrepend(u: string, w: string, close: string)
    requires EndsWith(w, close)
    ensures EndsWith(u + w, close)
  {
    assert (u + w)[|u + w| - |close|..] == w[|w| - |close|..];
  }

  /** Text put after a prefix keeps the prefix. */
  lemma StartsWithAppend(open: string, x: string, w: string)
    ensures open <= open + x + w
  {
    assert (open + x + w)[..|open|] == open;
  }

  /** Text put after a string keeps that string's prefixes. */
  lemma StartsWithExtend(open: string, u: string, w: string)
    requires open <= u
    ensures open <= u + w
  {
    assert (u + w)[..|open|] == u[..|open|];
  }

  /** A filled shape whose first run starts with `open` and whose last run ends with `close` does too. */
  lemma SchemeLayoutDelimited(a: string, b: string, c: string, d: string, e: string, f: string,
                              open: string, x: string, y: string, close: string,
                              primary: string, secondary: string)
    requires a == open + x
    requires f == y + close
    ensures open <= Fill(SchemeLayout(a, b, c, d, e, f), primary, secondary)
    ensures EndsWith(Fill(SchemeLayout(a, b, c, d, e, f), primary, secondary), close)
  {
    SchemeLayoutFill(a, b, c, d, e, f, primary, secondary);
    var p, s := primary, secondary;
    var w10 := s + f;
    var w9 := e + w10;
    var w8 := p + w9;
    var w7 := d + w8;
    var w6 := s + w7;
    var w5 := c + w6;
    var w4 := p + w5;
    var w3 := b + w4;
    var w2 := p + w3;
    StartsWithAppend(open, x, w2);
    EndsWithPrepend(y, close, close);
    assert y + close == f;
    EndsWithPrepend(s, f, close);
    EndsWithPrepend(e, w10, close);
    EndsWithPrepend(p, w9, close);
    EndsWithPrepend(d, w8, close);
    EndsWithPrepend(s, w7, close);
    EndsWithPrepend(c, w6, close);
    EndsWithPrepend(p, w5, close);
    EndsWithPrepend(b, w4, close);
    EndsWithPrepend(p, w3, close);
    EndsWithPrepend(a, w2, close);
  }

  /** The colour-scheme block is its fixed text plus three primary and two secondary colours. */
  lemma ColorSchemeBlockLength(primary: string, secondary: string)
    ensures |ColorSchemeBlock(primary, secondary)|
            == TextLength(ColorSchemeTemplate) + 3 * |primary| + 2 * |secondary|
  {
    FillLength(ColorSchemeTemplate, primary, secondary);
    ColorSchemeTemplateHoles();
  }

  // ---------------------------------------------------------------------------
  // The custom-CSS block
  // ---------------------------------------------------------------------------

  /**
   * The text around the trimmed custom CSS. The newline after the `?>` that
   * ends the echo is swallowed by PHP, and the tab in front of the `<?php`
   * that follows the closing tag is emitted.
   */
  const CustomCssOpen: string :=
    "        <style type=\"text/css\" id=\"notepad-custom-css\">\n" +
    "            "
  const CustomCssClose: string := "        </style>\n\t"

  /**
   * The `<style id="notepad-custom-css">` block around the trimmed custom CSS.
   * The stored CSS is carried trimmed and otherwise verbatim: cutting off the
   * fixed text at either end leaves exactly the trimmed CSS.
   */
  function CustomCssBlock(customCss: string): (r: string)
    ensures CustomCssOpen <= r
    ensures EndsWith(r, CustomCssClose)
    ensures |CustomCssOpen| + |CustomCssClose| <= |r|
    ensures r[|CustomCssOpen|..|r| - |CustomCssClose|] == Trim(customCss)
  {
    var t := Trim(customCss);
    var r := CustomCssOpen + t + CustomCssClose;
    assert r == CustomCssOpen + (t + CustomCssClose);
    assert r[|CustomCssOpen|..|r| - |CustomCssClose|] == t;
    r
  }

  // ---------------------------------------------------------------------------
  // The render hook
  // ---------------------------------------------------------------------------

  /**
   * `notepad_color_style`: nothing when the primary colour is spelled as the
   * default in all lower or all upper case, otherwise the colour-scheme block
   * followed by the custom-CSS block.
   */
  function RenderColorStyle(primary: string, secondary: string, customCss: string): (r: Option<string>)
    ensures r == None <==> IsDefaultSpelling(primary)
    ensures r.Some? ==> ColorSchemeOpen <= r.value && EndsWith(r.value, CustomCssClose)
  {
    if IsDefaultSpelling(primary) then None
    else
      var scheme, custom := ColorSchemeBlock(primary, secondary), CustomCssBlock(customCss);
      EndsWithPrepend(scheme, custom, CustomCssClose);
      StartsWithExtend(ColorSchemeOpen, scheme, custom);
      Some(scheme + custom)
  }

  /** When the hook bails, the secondary colour and the custom CSS play no part. */
  lemma RenderBailIgnoresOtherSettings(primary: string, secondary: string, customCss: string,
                                       secondary': string, customCss': string)
    requires IsDefaultSpelling(primary)
    ensures RenderColorStyle(primary, secondary, customCss) == RenderColorStyle(primary, secondary', customCss')
  {
  }

  /**
   * The guard is a comparison with two exact strings, not a case-insensitive
   * one: the default written in mixed case renders both blocks.
   */
  lemma RenderGuardIsCaseSensitive(secondary: string, customCss: string)
    ensures RenderColorStyle("#Ef7A7a", secondary, customCss).Some?
    ensures RenderColorStyle("#ef7a7A", secondary, customCss).Some?
  {
  }

  /**
   * The registered default passes the colour sanitizer unchanged, so a primary
   * colour stored as the registered default renders nothing.
   */
  lemma SanitizedDefaultRendersNothing(secondary: string, customCss: string)
    ensures SanitizeHexColor(DefaultPrimary) == DefaultPrimary
    ensures RenderColorStyle(SanitizeHexColor(DefaultPrimary), secondary, customCss) == None
  {
    assert IsDefaultSpelling(DefaultPrimary);
  }

  /**
   * A mixed-case spelling of the default colour is stored as typed, and then
   * renders both blocks.
   */
  lemma SanitizedMixedCaseDefaultRenders(secondary: string, customCss: string)
    ensures SanitizeHexColor("#Ef7A7a") == "#Ef7A7a"
    ensures RenderColorStyle(SanitizeHexColor("#Ef7A7a"), secondary, customCss).Some?
  {
    var mixed := "#Ef7A7a";
    assert IsHexColor(mixed);
    assert mixed[1] != "#ef7a7a"[1] && mixed[2] != "#EF7A7A"[2];
  }

  /**
   * When the hook renders, its output is the colour-scheme block and then the
   * custom-CSS block, in that order: the first ends where the second begins.
   */
  lemma RenderOrder(primary: string, secondary: string, customCss: string)
    requires !IsDefaultSpelling(primary)
    ensures var out := RenderColorStyle(primary, secondary, customCss).value;
            var k := |ColorSchemeBlock(primary, secondary)|;
            k <= |out|
            && out[..k] == ColorSchemeBlock(primary, secondary)
            && out[k..] == CustomCssBlock(customCss)
            && ColorSchemeOpen <= out[..k]
            && CustomCssOpen <= out[k..]
  {
    var b := ColorSchemeBlock(primary, secondary);
    var c := CustomCssBlock(customCss);
    assert (b + c)[..|b|] == b;
    assert (b + c)[|b|..] == c;
  }
}
