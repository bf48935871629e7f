/**
 * The watermark badge of src/lib/chart-watermark.ts: an ECharts graphic group in the chart's top
 * right corner holding a background rectangle and the brand text. Only the geometry and the text
 * are modelled; colours, z-levels and font family are constant presentation values.
 */
module ChartWatermark {
  import opened Wrappers
  import opened JsNumber

  const DefaultText := "NorthEast in Data"

  /** The rich-text string the badge always displays, whatever text it was sized for. */
  const BrandRichText := "{brand|NorthEast} {rest|in Data}"

  /** The options of `buildWatermarkGraphic`; an absent one takes its default. */
  datatype WatermarkOptions = WatermarkOptions(
    text: Option<string>,
    top: Option<real>,
    right: Option<real>,
    fontSize: Option<real>,
    paddingX: Option<real>,
    boxHeight: Option<real>)

  const NoOptions := WatermarkOptions(None, None, None, None, None, None)

  /** The background rectangle, in the group's coordinates. */
  datatype Rect = Rect(x: real, y: real, width: real, height: real)

  /** The text element: its anchor, the string shown, its font size, line height and clip width. */
  datatype Label = Label(x: real, y: real, text: string, fontSize: real, lineHeight: real, width: real)

  /** The graphic group placed `right` and `top` pixels from the chart's top-right corner. */
  datatype Graphic = Group(right: real, top: real, width: int, height: real, rect: Rect, content: Label)

  /**
   * The badge width: room for the text at three quarters of the font size per character plus both
   * paddings and 6 pixels, rounded up, and never below 102 pixels.
   */
  function BoxWidth(textLength: nat, fontSize: real, paddingX: real): int {
    var needed := Ceil(textLength as real * (fontSize * 0.75) + paddingX * 2.0 + 6.0);
    if needed < 102 then 102 else needed
  }

  /** `buildWatermarkGraphic(options)`: a one-element list holding the group. */
  function BuildWatermarkGraphic(options: WatermarkOptions): seq<Graphic> {
    var text := options.text.GetOr(DefaultText);
    var fontSize := options.fontSize.GetOr(5.0);
    var paddingX := options.paddingX.GetOr(2.0);
    var boxHeight := options.boxHeight.GetOr(fontSize + 6.0);
    var boxWidth := BoxWidth(|text|, fontSize, paddingX);
    [Group(
      options.right.GetOr(8.0),
      options.top.GetOr(8.0),
      boxWidth,
      boxHeight,
      Rect(0.0, 0.0, boxWidth as real, boxHeight),
      Label(paddingX, boxHeight / 2.0, BrandRichText, fontSize, boxHeight, boxWidth as real - paddingX * 2.0))]
  }

  /**
   * The box is at least 102 pixels wide and wide enough for the estimated text width plus paddings,
   * and is the narrowest whole width meeting both bounds.
   */
  lemma {:induction false} BoxWidthBounds(textLength: nat, fontSize: real, paddingX: real)
    ensures var w := BoxWidth(textLength, fontSize, paddingX);
      var estimate := textLength as real * fontSize * 0.75 + 2.0 * paddingX + 6.0;
      w >= 102 && w as real >= estimate &&
      (w == 102 || (w - 1) as real < estimate)
  {
    assert textLength as real * (fontSize * 0.75) == textLength as real * fontSize * 0.75;
  }

  /**
   * The one group has the box size; the rectangle covers exactly the group; the text starts
   * `paddingX` in, is centred vertically, spans the box less both paddings, and shows the brand
   * string whatever text the options carry.
   */
  lemma {:induction false} WatermarkShape(options: WatermarkOptions)
    ensures var gs := BuildWatermarkGraphic(options);
      var fontSize := options.fontSize.GetOr(5.0);
      var paddingX := options.paddingX.GetOr(2.0);
      |gs| == 1 &&
      gs[0].width == BoxWidth(|options.text.GetOr(DefaultText)|, fontSize, paddingX) &&
      gs[0].height == options.boxHeight.GetOr(fontSize + 6.0) &&
      gs[0].rect == Rect(0.0, 0.0, gs[0].width as real, gs[0].height) &&
      gs[0].content.x == paddingX &&
      gs[0].content.y == gs[0].height / 2.0 &&
      gs[0].content.width == gs[0].width as real - 2.0 * paddingX &&
      gs[0].content.lineHeight == gs[0].height &&
      gs[0].content.text == BrandRichText
  {
  }

  /**
   * The text never has to be cut: the clip width of the text element covers the estimated width of
   * the text the box was sized for with 6 pixels to spare, and the text keeps the same `paddingX`
   * margin on both sides of the box.
   */
  lemma {:induction false} WatermarkTextFits(options: WatermarkOptions)
    ensures var g := BuildWatermarkGraphic(options)[0];
      var fontSize := options.fontSize.GetOr(5.0);
      var paddingX := options.paddingX.GetOr(2.0);
      var estimate := |options.text.GetOr(DefaultText)| as real * fontSize * 0.75;
      && g.content.width >= estimate + 6.0
      && g.content.x + g.content.width + paddingX == g.rect.width == g.width as real
  {
    var text := options.text.GetOr(DefaultText);
    var fontSize := options.fontSize.GetOr(5.0);
    var paddingX := options.paddingX.GetOr(2.0);
    BoxWidthBounds(|text|, fontSize, paddingX);
    WatermarkShape(options);
  }

  /** Without options: 'NorthEast in Data' in a 5-pixel font, a 102 × 11 box 8 pixels from the top right. */
  lemma WatermarkDefaults()
    ensures BuildWatermarkGraphic(NoOptions) ==
      [Group(8.0, 8.0, 102, 11.0, Rect(0.0, 0.0, 102.0, 11.0), Label(2.0, 5.5, BrandRichText, 5.0, 11.0, 98.0))]
  {
    assert |DefaultText| == 17;
    assert BoxWidth(17, 5.0, 2.0) == 102 by {
      assert Ceil(17.0 * (5.0 * 0.75) + 2.0 * 2.0 + 6.0) == 74;
    }
  }

  /** The text option only sizes the box: two texts of the same length give the same graphic. */
  lemma {:induction false} WatermarkTextOnlySizes(options: WatermarkOptions, a: string, b: string)
    requires |a| == |b|
    ensures BuildWatermarkGraphic(options.(text := Some(a))) == BuildWatermarkGraphic(options.(text := Some(b)))
  {
  }
}
