/**
 * The markdown renderer's own rules (frontend/components/markdown.tsx): the sanitiser schema it extends, the
 * image width parser, the image/figure layout, external links and the iframe wrapper. Markdown parsing and
 * sanitising themselves belong to libraries and are not modelled; `Number(...)` is a parameter.
 */
module Markdown {
  import opened Wrappers
  import opened Text

  // ---------------------------------------------------------------------------
  // Sanitiser schema

  /** `Array.from(new Set(xs))`: the first occurrence of each item, in order. */
  function Distinct(xs: seq<string>): (r: seq<string>)
    ensures forall x :: x in r <==> x in xs
    ensures forall i, j :: 0 <= i < j < |r| ==> r[i] != r[j]
  {
    if xs == [] then []
    else
      var front := Distinct(xs[..|xs| - 1]);
      var x := xs[|xs| - 1];
      assert forall y :: y in xs <==> y in xs[..|xs| - 1] || y == x by {
        assert xs == xs[..|xs| - 1] + [x];
      }
      if x in front then front else front + [x]
  }

  /** A duplicate-free list is its own distinct list. */
  lemma {:induction false} DistinctOfDistinct(xs: seq<string>)
    requires forall i, j :: 0 <= i < j < |xs| ==> xs[i] != xs[j]
    ensures Distinct(xs) == xs
  {
    if xs != [] {
      var front := xs[..|xs| - 1];
      DistinctOfDistinct(front);
      assert xs[|xs| - 1] !in front by {
        forall i | 0 <= i < |front|
          ensures front[i] != xs[|xs| - 1]
        {
          assert front[i] == xs[i];
        }
      }
      assert xs == front + [xs[|xs| - 1]];
    }
  }

  /** `defaultSchema.list ?? []` followed by extra items, de-duplicated. */
  function Extend(defaults: Option<seq<string>>, extra: seq<string>): seq<string> {
    Distinct(defaults.GetOr([]) + extra)
  }

  /** The parts of a `rehype-sanitize` schema this renderer touches. */
  datatype Schema = Schema(
    tagNames: Option<seq<string>>,
    attributes: map<string, seq<string>>,
    protocols: map<string, seq<string>>)

  function AttributesOf(s: Schema, tag: string): Option<seq<string>> {
    if tag in s.attributes then Some(s.attributes[tag]) else None
  }

  /** The tags whose attribute lists the renderer sets. */
  const RENDERER_TAGS: set<string> := {"a", "img", "figure", "figcaption", "iframe", "div", "span", "p"}

  const IFRAME_ATTRIBUTES := ["className", "src", "title", "width", "height", "allow", "allowFullScreen", "referrerPolicy", "loading"]

  /** The allowed tags: the defaults and the three the renderer adds. */
  function SchemaTags(d: Schema): seq<string> {
    Extend(d.tagNames, ["figure", "figcaption", "iframe"])
  }

  /** The attribute lists, extended or set for the tags the renderer draws. */
  function SchemaAttributes(d: Schema): map<string, seq<string>> {
    d.attributes[
      "a" := Extend(AttributesOf(d, "a"), ["className", "target", "rel"])][
      "img" := Extend(AttributesOf(d, "img"),
        ["className", "width", "height", "align", "caption", "data-caption", "loading", "decoding"])][
      "figure" := ["className"]][
      "figcaption" := ["className"]][
      "iframe" := IFRAME_ATTRIBUTES][
      "div" := Extend(AttributesOf(d, "div"), ["className"])][
      "span" := Extend(AttributesOf(d, "span"), ["className"])][
      "p" := Extend(AttributesOf(d, "p"), ["className"])]
  }

  /** The URL protocols: fixed lists for `href` and `src`. */
  function SchemaProtocols(d: Schema): map<string, seq<string>> {
    d.protocols["href" := ["http", "https", "mailto", "tel"]]["src" := ["http", "https"]]
  }

  /** `markdownSanitizeSchema`, built over the library's default schema. */
  function MarkdownSchema(d: Schema): Schema {
    Schema(Some(SchemaTags(d)), SchemaAttributes(d), SchemaProtocols(d))
  }

  /** The allowed tags are the default ones plus figure, figcaption and iframe, each listed once. */
  lemma SchemaTagsAdded(d: Schema)
    ensures var tags := MarkdownSchema(d).tagNames.value;
      (forall t :: t in tags <==> t in d.tagNames.GetOr([]) || t in ["figure", "figcaption", "iframe"])
      && (forall i, j :: 0 <= i < j < |tags| ==> tags[i] != tags[j])
  {
    var defaults, extra := d.tagNames.GetOr([]), ["figure", "figcaption", "iframe"];
    assert MarkdownSchema(d).tagNames.value == Distinct(defaults + extra);
    forall t
      ensures t in defaults + extra <==> t in defaults || t in extra
    {
    }
  }

  /** Links may use http, https, mailto and tel, sources only http and https; other protocol lists stay. */
  lemma SchemaProtocolsFixed(d: Schema)
    ensures MarkdownSchema(d).protocols["href"] == ["http", "https", "mailto", "tel"]
    ensures MarkdownSchema(d).protocols["src"] == ["http", "https"]
    ensures forall k :: k in d.protocols && k != "href" && k != "src" ==> MarkdownSchema(d).protocols[k] == d.protocols[k]
  {
  }

  /** Links may also carry a class, a target and a rel, on top of the defaults. */
  lemma LinkAttributes(d: Schema)
    ensures forall x :: x in MarkdownSchema(d).attributes["a"] <==>
      (x in AttributesOf(d, "a").GetOr([]) || x in ["className", "target", "rel"])
  {
    assert MarkdownSchema(d).attributes["a"] == Extend(AttributesOf(d, "a"), ["className", "target", "rel"]);
  }

  /** Images may also carry a class, sizes, an alignment, captions and loading hints, on top of the defaults. */
  lemma ImageAttributes(d: Schema)
    ensures forall x :: x in MarkdownSchema(d).attributes["img"] <==>
      (x in AttributesOf(d, "img").GetOr([])
        || x in ["className", "width", "height", "align", "caption", "data-caption", "loading", "decoding"])
  {
    assert MarkdownSchema(d).attributes["img"] == Extend(AttributesOf(d, "img"),
      ["className", "width", "height", "align", "caption", "data-caption", "loading", "decoding"]);
  }

  /** Embedded frames get a fixed list, and tags the renderer does not mention keep the default lists. */
  lemma OtherAttributes(d: Schema)
    ensures MarkdownSchema(d).attributes["iframe"] == IFRAME_ATTRIBUTES
    ensures forall k :: k in d.attributes && k !in RENDERER_TAGS ==> MarkdownSchema(d).attributes[k] == d.attributes[k]
  {
    forall k | k in d.attributes && k !in RENDERER_TAGS
      ensures MarkdownSchema(d).attributes[k] == d.attributes[k]
    {
      assert k != "a" && k != "img" && k != "figure" && k != "figcaption";
      assert k != "iframe" && k != "div" && k != "span" && k != "p";
    }
  }

  // ---------------------------------------------------------------------------
  // Image width

  /** The result of JavaScript `Number(...)`: a finite value, or NaN/±Infinity. */
  datatype JsNumber = Finite(value: real) | NonFinite

  /** The `width` attribute as the renderer receives it. */
  datatype WidthAttr = NoWidth | NumberWidth(n: JsNumber) | TextWidth(s: string)

  /** A CSS width: a percentage or a pixel length (their textual rendering is not modelled). */
  datatype CssWidth = Percent(p: real) | Px(px: real)

  function Clamp(n: real): (r: real)
    ensures 0.0 <= r <= 100.0
    ensures 0.0 <= n <= 100.0 ==> r == n
  {
    if n < 0.0 then 0.0 else if n > 100.0 then 100.0 else n
  }

  /** How a plain number is read: a fraction of one, a percentage up to 100, else pixels; nothing positive, no width. */
  function NumberToCss(n: real): (r: Option<CssWidth>)
    ensures r.None? <==> n <= 0.0
    ensures 0.0 < n <= 1.0 ==> r == Some(Percent(n * 100.0))
    ensures 1.0 < n <= 100.0 ==> r == Some(Percent(n))
    ensures n > 100.0 ==> r == Some(Px(n))
  {
    if n > 0.0 && n <= 1.0 then Some(Percent(n * 100.0))
    else if n > 1.0 && n <= 100.0 then Some(Percent(n))
    else if n > 100.0 then Some(Px(n))
    else None
  }

  /** `parseWidthToCss`, with `toNumber` standing for JavaScript's `Number` on strings. */
  function ParseWidthToCss(width: WidthAttr, toNumber: string -> JsNumber): (r: Option<CssWidth>)
    ensures width.NoWidth? ==> r.None?
    ensures width.NumberWidth? && width.n.NonFinite? ==> r.None?
    ensures width.NumberWidth? && width.n.Finite? ==> r == NumberToCss(width.n.value)
    ensures width.TextWidth? && JsTrim(width.s) == [] ==> r.None?
    ensures width.TextWidth? && EndsWith(JsTrim(width.s), "%") ==>
      var raw := JsTrim(width.s);
      var n := toNumber(raw[..|raw| - 1]);
      r == (if n.Finite? then Some(Percent(Clamp(n.value))) else None)
    ensures width.TextWidth? && JsTrim(width.s) != [] && !EndsWith(JsTrim(width.s), "%") ==>
      var n := toNumber(JsTrim(width.s));
      r == (if n.Finite? then NumberToCss(n.value) else None)
  {
    match width
    case NoWidth => None
    case NumberWidth(n) => if n.Finite? then NumberToCss(n.value) else None
    case TextWidth(s) =>
      var raw := JsTrim(s);
      if raw == [] then None
      else if EndsWith(raw, "%") then
        var n := toNumber(raw[..|raw| - 1]);
        if n.Finite? then Some(Percent(Clamp(n.value))) else None
      else
        var n := toNumber(raw);
        if n.Finite? then NumberToCss(n.value) else None
  }

  /** Whatever the input, a produced width is a percentage in [0, 100] or a pixel length above 100. */
  lemma WidthRange(width: WidthAttr, toNumber: string -> JsNumber)
    ensures var r := ParseWidthToCss(width, toNumber);
      r.Some? ==> (r.value.Percent? && 0.0 <= r.value.p <= 100.0) || (r.value.Px? && r.value.px > 100.0)
  {
  }

  // ---------------------------------------------------------------------------
  // Image layout

  /** An attribute as received: absent, a string, or some other value. */
  datatype Attr = Missing | Str(s: string) | Other

  /** A CSS declaration value: a literal or a parsed width. */
  datatype CssValue = Lit(text: string) | Width(w: CssWidth)

  type Style = map<string, CssValue>

  /** The style declares property `k` with value `v`. */
  predicate Has(style: Style, k: string, v: CssValue) {
    k in style && style[k] == v
  }

  datatype Rendered =
    | Img(style: Style, widthAttr: Option<JsNumber>, heightAttr: Option<JsNumber>, alt: string)
    | Figure(figureStyle: Style, imgStyle: Style, widthAttr: Option<JsNumber>, heightAttr: Option<JsNumber>, alt: string, caption: string)

  /** The caption: the first of `caption`, `data-caption` and `title` that is a string (possibly empty). */
  function CaptionText(caption: Attr, dataCaption: Attr, title: Attr): (r: Option<string>)
    ensures caption.Str? ==> r == Some(caption.s)
    ensures !caption.Str? && dataCaption.Str? ==> r == Some(dataCaption.s)
    ensures !caption.Str? && !dataCaption.Str? && title.Str? ==> r == Some(title.s)
    ensures !caption.Str? && !dataCaption.Str? && !title.Str? ==> r.None?
  {
    if caption.Str? then Some(caption.s)
    else if dataCaption.Str? then Some(dataCaption.s)
    else if title.Str? then Some(title.s)
    else None
  }

  /** `align.toLowerCase()` for a string attribute (ASCII letters only here). */
  function AlignValue(align: Attr): Option<string> {
    if align.Str? then Some(AsciiLower(align.s)) else None
  }

  predicate Floats(align: Option<string>) { align == Some("left") || align == Some("right") }

  function SideMargin(align: Option<string>): string {
    if align == Some("left") then "0.25rem 1rem 0.75rem 0" else "0.25rem 0 0.75rem 1rem"
  }

  /** `typeof width === "number" ? width : undefined`: any number passes, `Infinity` and `NaN` included. */
  function NumericAttr(a: WidthAttr): Option<JsNumber> {
    if a.NumberWidth? then Some(a.n) else None
  }

  /** The plain image's style: full width at most, the parsed width, and the float or block layout of `align`. */
  method ImageStyle(w: Option<CssWidth>, a: Option<string>) returns (style: Style)
    ensures Has(style, "maxWidth", Lit("100%")) && Has(style, "height", Lit("auto"))
    ensures ("width" in style <==> w.Some?) && (w.Some? ==> Has(style, "width", Width(w.value)))
    ensures ("float" in style <==> Floats(a))
    ensures Floats(a) ==> Has(style, "float", Lit(a.value)) && Has(style, "margin", Lit(SideMargin(a)))
    ensures !Floats(a) ==> Has(style, "display", Lit("block"))
    ensures ("marginLeft" in style <==> a == Some("center"))
    ensures a == Some("center") ==> Has(style, "marginLeft", Lit("auto")) && Has(style, "marginRight", Lit("auto"))
  {
    style := map["maxWidth" := Lit("100%"), "height" := Lit("auto")];
    if w.Some? {
      style := style["width" := Width(w.value)];
    }
    if a == Some("left") || a == Some("right") {
      style := style["float" := Lit(a.value)];
      style := style["margin" := Lit(SideMargin(a))];
    } else if a == Some("center") {
      style := style["display" := Lit("block")];
      style := style["marginLeft" := Lit("auto")];
      style := style["marginRight" := Lit("auto")];
    } else {
      style := style["display" := Lit("block")];
    }
  }

  /**
   * The captioned image's styles: the figure is a table carrying the width and the float, capped at
   * `min(50%, 22rem)` when it floats without a width, and centred for `center` or for a width without an
   * alignment; the image inside fills it.
   */
  method FigureStyles(w: Option<CssWidth>, a: Option<string>) returns (figureStyle: Style, imgStyle: Style)
    ensures Has(figureStyle, "display", Lit("table"))
    ensures ("width" in figureStyle <==> w.Some?) && (w.Some? ==> Has(figureStyle, "width", Width(w.value)))
    ensures ("float" in figureStyle <==> Floats(a))
    ensures Floats(a) ==> Has(figureStyle, "float", Lit(a.value)) && Has(figureStyle, "margin", Lit(SideMargin(a)))
    ensures Has(figureStyle, "maxWidth", Lit(if Floats(a) && w.None? then "min(50%, 22rem)" else "100%"))
    ensures ("marginLeft" in figureStyle <==> !Floats(a) && (a == Some("center") || ((a.None? || a.value == []) && w.Some?)))
    ensures "marginLeft" in figureStyle ==>
      Has(figureStyle, "marginLeft", Lit("auto")) && Has(figureStyle, "marginRight", Lit("auto"))
    ensures Has(imgStyle, "display", Lit("block")) && Has(imgStyle, "maxWidth", Lit("100%"))
    ensures ("width" in imgStyle <==> w.Some?) && (w.Some? ==> Has(imgStyle, "width", Lit("100%")))
  {
    figureStyle := map["maxWidth" := Lit("100%")];
    if w.Some? {
      figureStyle := figureStyle["width" := Width(w.value)];
    }
    figureStyle := figureStyle["display" := Lit("table")];
    if a == Some("left") || a == Some("right") {
      figureStyle := figureStyle["float" := Lit(a.value)];
      figureStyle := figureStyle["margin" := Lit(SideMargin(a))];
      if w.None? {
        figureStyle := figureStyle["maxWidth" := Lit("min(50%, 22rem)")];
      }
    } else {
      var shouldCenter := a == Some("center") || ((a.None? || a.value == []) && w.Some?);
      if shouldCenter {
        figureStyle := figureStyle["marginLeft" := Lit("auto")];
        figureStyle := figureStyle["marginRight" := Lit("auto")];
      }
    }
    imgStyle := map["display" := Lit("block"), "maxWidth" := Lit("100%"), "height" := Lit("auto")];
    if w.Some? {
      imgStyle := imgStyle["width" := Lit("100%")];
    }
  }

  /**
   * The `img` component. Without a (non-empty) caption the image itself is laid out as `ImageStyle` says; with
   * one, it is wrapped in a figure laid out as `FigureStyles` says, with the caption below.
   */
  method RenderImage(alt: Option<string>, title: Attr, width: WidthAttr, height: WidthAttr, align: Attr,
                     caption: Attr, dataCaption: Attr, toNumber: string -> JsNumber)
    returns (r: Rendered)
    ensures var c := CaptionText(caption, dataCaption, title);
      r.Figure? <==> c.Some? && c.value != []
    ensures r.Figure? ==> r.caption == CaptionText(caption, dataCaption, title).value
    ensures r.alt == alt.GetOr([])
    ensures r.widthAttr == NumericAttr(width) && r.heightAttr == NumericAttr(height)
    // the plain image
    ensures var w := ParseWidthToCss(width, toNumber); var a := AlignValue(align);
      r.Img? ==> (
        && Has(r.style, "maxWidth", Lit("100%")) && Has(r.style, "height", Lit("auto"))
        && ("width" in r.style <==> w.Some?) && (w.Some? ==> Has(r.style, "width", Width(w.value)))
        && ("float" in r.style <==> Floats(a))
        && (Floats(a) ==> Has(r.style, "float", Lit(a.value)) && Has(r.style, "margin", Lit(SideMargin(a))))
        && (!Floats(a) ==> Has(r.style, "display", Lit("block")))
        && ("marginLeft" in r.style <==> a == Some("center"))
        && (a == Some("center") ==> Has(r.style, "marginLeft", Lit("auto")) && Has(r.style, "marginRight", Lit("auto"))))
    // the figure
    ensures var w := ParseWidthToCss(width, toNumber); var a := AlignValue(align);
      r.Figure? ==> (
        && Has(r.figureStyle, "display", Lit("table"))
        && ("width" in r.figureStyle <==> w.Some?) && (w.Some? ==> Has(r.figureStyle, "width", Width(w.value)))
        && ("float" in r.figureStyle <==> Floats(a))
        && (Floats(a) ==> Has(r.figureStyle, "float", Lit(a.value)) && Has(r.figureStyle, "margin", Lit(SideMargin(a))))
        && Has(r.figureStyle, "maxWidth", Lit(if Floats(a) && w.None? then "min(50%, 22rem)" else "100%"))
        && ("marginLeft" in r.figureStyle <==> !Floats(a) && (a == Some("center") || ((a.None? || a.value == []) && w.Some?)))
        && ("marginLeft" in r.figureStyle ==>
              Has(r.figureStyle, "marginLeft", Lit("auto")) && Has(r.figureStyle, "marginRight", Lit("auto")))
        && Has(r.imgStyle, "display", Lit("block")) && Has(r.imgStyle, "maxWidth", Lit("100%"))
        && ("width" in r.imgStyle <==> w.Some?) && (w.Some? ==> Has(r.imgStyle, "width", Lit("100%"))))
  {
    var widthCss := ParseWidthToCss(width, toNumber);
    var alignValue := AlignValue(align);
    var captionText := CaptionText(caption, dataCaption, title);
    var altText := alt.GetOr([]);

    if captionText.None? || captionText.value == [] {
      var style := ImageStyle(widthCss, alignValue);
      return Img(style, NumericAttr(width), NumericAttr(height), altText);
    }
    var figureStyle, imgStyle := FigureStyles(widthCss, alignValue);
    r := Figure(figureStyle, imgStyle, NumericAttr(width), NumericAttr(height), altText, captionText.value);
  }

  /** A `caption=""` attribute is still the caption (it hides the later ones), so no figure is drawn. */
  lemma EmptyCaptionShadowsTitle(title: string)
    ensures CaptionText(Str([]), Missing, Str(title)) == Some([])
  {
  }

  // ---------------------------------------------------------------------------
  // Links and embeds

  /** `^https?://` matched case-insensitively. */
  predicate IsExternalHref(href: Attr) {
    href.Str? && (StartsWith(AsciiLower(href.s), "http://") || StartsWith(AsciiLower(href.s), "https://"))
  }

  datatype Link = Link(href: Attr, className: string, target: Option<string>, rel: Option<string>)

  /** `cn(base, extra)`: the base class followed by a non-empty extra class (class merging is not modelled). */
  function Classes(base: string, extra: Option<string>): string {
    if extra.Some? && extra.value != [] then base + " " + extra.value else base
  }

  /**
   * The `a` component. An external link opens in a new tab without referrer or opener; a `target` or `rel`
   * written in the markdown itself is spread after these and wins.
   */
  function RenderLink(href: Attr, className: Option<string>, authorTarget: Option<string>, authorRel: Option<string>): (r: Link)
    ensures r.href == href
    ensures authorTarget.None? ==> (r.target == Some("_blank") <==> IsExternalHref(href))
    ensures authorTarget.None? && !IsExternalHref(href) ==> r.target.None?
    ensures authorRel.None? ==> (r.rel == Some("noreferrer noopener") <==> IsExternalHref(href))
    ensures authorRel.None? && !IsExternalHref(href) ==> r.rel.None?
    ensures authorTarget.Some? ==> r.target == authorTarget
    ensures authorRel.Some? ==> r.rel == authorRel
  {
    var external := IsExternalHref(href);
    var target := if external then Some("_blank") else None;
    var rel := if external then Some("noreferrer noopener") else None;
    Link(href, Classes("md-link", className),
      if authorTarget.Some? then authorTarget else target,
      if authorRel.Some? then authorRel else rel)
  }

  /** The scheme test ignores letter case. */
  lemma ExternalIgnoresCase(s: string)
    ensures IsExternalHref(Str(s)) <==> IsExternalHref(Str(AsciiLower(s)))
  {
    AsciiLowerIdempotent(s);
  }

  datatype Embed = Embed(wrapperClass: string, iframeClass: string)

  /** The `iframe` component: the frame, classed `md-iframe`, inside a `md-embed` wrapper. */
  function RenderIframe(className: Option<string>): (r: Embed)
    ensures r.wrapperClass == "md-embed"
    ensures StartsWith(r.iframeClass, "md-iframe")
  {
    Embed("md-embed", Classes("md-iframe", className))
  }
}
