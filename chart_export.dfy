/**
 * The PNG export of src/lib/chart-export.ts: shortening a title with an ellipsis until it fits a
 * width, the size arithmetic of the exported canvas (padding, fonts, title band), where the title,
 * the chart image and the watermark go, and the download file name.
 *
 * Text measurement is a parameter: `measure(font, s)` is the width the canvas gives `s` drawn in
 * the given pixel font size. Drawing itself, image loading and the browser download are not modelled.
 */
module ChartExport {
  import opened Wrappers
  import opened Js
  import opened JsNumber

  /** The ellipsis appended to a shortened title. */
  const Suffix := "..."

  /** `truncateText` as a value: what the shrinking loop returns for `text`. */
  function Truncated(width: string -> real, text: string, maxWidth: real): string {
    var t := Trim(text);
    if t == "" then ""
    else if width(t) <= maxWidth then t
    else
      var k := LongestFit(width, t, maxWidth, |t|);
      if k > 0 then t[..k] + Suffix else t
  }

  /**
   * The length of the longest prefix of `t`, of at most `n` characters, that fits `maxWidth` once
   * the ellipsis is appended; 0 when no non-empty one does.
   */
  function LongestFit(width: string -> real, t: string, maxWidth: real, n: nat): (k: nat)
    requires n <= |t|
    ensures k <= n
  {
    if n == 0 || width(t[..n] + Suffix) <= maxWidth then n else LongestFit(width, t, maxWidth, n - 1)
  }

  /** LongestFit is the largest fitting prefix length: it fits, and every longer one up to `n` does not. */
  lemma {:induction false} LongestFitIsLongest(width: string -> real, t: string, maxWidth: real, n: nat)
    requires n <= |t|
    ensures LongestFit(width, t, maxWidth, n) <= n
    ensures LongestFit(width, t, maxWidth, n) > 0 ==>
      width(t[..LongestFit(width, t, maxWidth, n)] + Suffix) <= maxWidth
    ensures forall j :: LongestFit(width, t, maxWidth, n) < j <= n ==> width(t[..j] + Suffix) > maxWidth
  {
    if n > 0 && width(t[..n] + Suffix) > maxWidth {
      LongestFitIsLongest(width, t, maxWidth, n - 1);
    }
  }

  /** `truncateText(ctx, text, maxWidth)`, with `width` standing for `ctx.measureText(..).width`. */
  method TruncateText(width: string -> real, text: string, maxWidth: real) returns (r: string)
    ensures r == Truncated(width, text, maxWidth)
  {
    var trimmed := Trim(text);
    if trimmed == "" {
      return "";
    }
    if width(trimmed) <= maxWidth {
      return trimmed;
    }
    var output := trimmed;
    while |output| > 0 && width(output + Suffix) > maxWidth
      invariant output == trimmed[..|output|]
      invariant LongestFit(width, trimmed, maxWidth, |output|) == LongestFit(width, trimmed, maxWidth, |trimmed|)
      decreases |output|
    {
      output := output[..|output| - 1];
    }
    r := if output != "" then output + Suffix else trimmed;
  }

  /**
   * A blank title gives '' and only a blank title does; a title that fits comes back trimmed; a
   * title that does not fit becomes the longest prefix that fits with the ellipsis, or stays whole
   * when no non-empty prefix fits.
   */
  lemma {:induction false} TruncatedCases(width: string -> real, text: string, maxWidth: real)
    ensures var t := Trim(text); var r := Truncated(width, text, maxWidth);
      (r == "" <==> t == "") &&
      (t != "" && width(t) <= maxWidth ==> r == t) &&
      (t != "" && width(t) > maxWidth && r != t ==>
        exists k :: 0 < k <= |t| && r == t[..k] + Suffix && width(r) <= maxWidth &&
          forall j :: k < j <= |t| ==> width(t[..j] + Suffix) > maxWidth) &&
      (t != "" && width(t) > maxWidth && (forall j :: 0 < j <= |t| ==> width(t[..j] + Suffix) > maxWidth) ==> r == t)
  {
    var t := Trim(text);
    if t != "" && width(t) > maxWidth {
      LongestFitIsLongest(width, t, maxWidth, |t|);
      var k := LongestFit(width, t, maxWidth, |t|);
      if k > 0 {
        assert Truncated(width, text, maxWidth) == t[..k] + Suffix;
      }
    }
  }

  /** Whatever the title, the result fits the width unless it is the trimmed title itself. */
  lemma {:induction false} TruncatedFits(width: string -> real, text: string, maxWidth: real)
    ensures var r := Truncated(width, text, maxWidth);
      r == Trim(text) || width(r) <= maxWidth
  {
    TruncatedCases(width, text, maxWidth);
  }

  /**
   * When appending the ellipsis never makes text narrower, a shortened title keeps a proper prefix:
   * at least one character of the trimmed title is cut.
   */
  lemma {:induction false} TruncatedCutsTitle(width: string -> real, text: string, maxWidth: real)
    requires width(Trim(text) + Suffix) >= width(Trim(text))
    requires Truncated(width, text, maxWidth) != Trim(text)
    ensures exists k :: 0 < k < |Trim(text)| && Truncated(width, text, maxWidth) == Trim(text)[..k] + Suffix
  {
    var t := Trim(text);
    var k := LongestFit(width, t, maxWidth, |t|);
    assert t != "" && width(t) > maxWidth && k > 0;
    LongestFitIsLongest(width, t, maxWidth, |t|);
    assert t[..|t|] == t;
    assert k < |t|;
  }

  function Max(a: int, b: int): int { if a < b then b else a }

  function Min(a: int, b: int): int { if a < b then a else b }

  /** `Math.max(lo, Math.min(hi, x))`. */
  function Clamp(lo: int, hi: int, x: int): int { Max(lo, Min(hi, x)) }

  /** Clamping lands in the range and leaves a value inside it unchanged. */
  lemma {:induction false} ClampRange(lo: int, hi: int, x: int)
    requires lo <= hi
    ensures lo <= Clamp(lo, hi, x) <= hi
    ensures lo <= x <= hi ==> Clamp(lo, hi, x) == x
    ensures x < lo ==> Clamp(lo, hi, x) == lo
    ensures hi < x ==> Clamp(lo, hi, x) == hi
  {
  }

  /** The margin around the title and the watermark, for an image `w` pixels wide. */
  function Padding(w: nat): int { Max(12, Round(w as real * 0.02)) }

  function TitleFont(w: nat): int { Clamp(16, 28, Round(w as real * 0.025)) }

  function WatermarkFont(w: nat): int { Clamp(10, 14, Round(w as real * 0.012)) }

  /** The height of the band above the image that holds the title; none for an empty title. */
  function TitlePad(title: string, titleFont: int): int {
    if title != "" then Round(titleFont as real * 1.6) else 0
  }

  /**
   * The padding is at least 12 pixels and 2% of the width once that is larger; the title font is
   * 2.5% of the width kept within 16..28 pixels, the watermark font 1.2% kept within 10..14.
   */
  lemma {:induction false} ExportSizes(w: nat)
    ensures Padding(w) >= 12 && Padding(w) >= Round(w as real * 0.02)
    ensures Padding(w) == 12 || Padding(w) == Round(w as real * 0.02)
    ensures 16 <= TitleFont(w) <= 28
    ensures 16 <= Round(w as real * 0.025) <= 28 ==> TitleFont(w) == Round(w as real * 0.025)
    ensures 10 <= WatermarkFont(w) <= 14
    ensures 10 <= Round(w as real * 0.012) <= 14 ==> WatermarkFont(w) == Round(w as real * 0.012)
  {
    ClampRange(16, 28, Round(w as real * 0.025));
    ClampRange(10, 14, Round(w as real * 0.012));
  }

  /** Rounding never reverses the order of two numbers. */
  lemma {:induction false} RoundMonotone(x: real, y: real)
    requires x <= y
    ensures Round(x) <= Round(y)
  {
  }

  /** A wider image never gets a smaller padding or smaller fonts. */
  lemma {:induction false} ExportSizesMonotone(w1: nat, w2: nat)
    requires w1 <= w2
    ensures Padding(w1) <= Padding(w2)
    ensures TitleFont(w1) <= TitleFont(w2)
    ensures WatermarkFont(w1) <= WatermarkFont(w2)
  {
    RoundMonotone(w1 as real * 0.02, w2 as real * 0.02);
    RoundMonotone(w1 as real * 0.025, w2 as real * 0.025);
    RoundMonotone(w1 as real * 0.012, w2 as real * 0.012);
  }

  /** With the title font of any image, a title band is between 26 and 45 pixels high. */
  lemma {:induction false} TitlePadRange(title: string, w: nat)
    ensures title == "" ==> TitlePad(title, TitleFont(w)) == 0
    ensures title != "" ==> 26 <= TitlePad(title, TitleFont(w)) <= 45
  {
    ExportSizes(w);
    if title != "" {
      var f := TitleFont(w);
      RoundMonotone(16.0 * 1.6, f as real * 1.6);
      RoundMonotone(f as real * 1.6, 28.0 * 1.6);
      assert Round(16.0 * 1.6) == 26;
      assert Round(28.0 * 1.6) == 45;
    }
  }

  /** The download file name: '.png' is appended unless the name already ends with it. */
  function DownloadName(filename: string): string {
    if EndsWith(filename, ".png") then filename else filename + ".png"
  }

  /**
   * The name always ends in '.png', starts with the given name, equals it when it already ends in
   * '.png', and applying the rule twice changes nothing more.
   */
  lemma {:induction false} DownloadNameRule(filename: string)
    ensures EndsWith(DownloadName(filename), ".png")
    ensures filename <= DownloadName(filename)
    ensures EndsWith(filename, ".png") <==> DownloadName(filename) == filename
    ensures DownloadName(DownloadName(filename)) == DownloadName(filename)
  {
    var n := filename + ".png";
    assert n[|n| - 4..] == ".png";
  }

  /** A piece of text drawn on the canvas at a point, in a pixel font size. */
  datatype TextDraw = TextDraw(text: string, x: real, y: real, font: int)

  /** What the image's load handler draws and downloads. */
  datatype ExportPlan = ExportPlan(
    canvasWidth: nat,
    canvasHeight: int,
    title: Option<TextDraw>,
    imageY: int,
    watermark: Option<TextDraw>,
    download: string)

  /** The title as drawn: shortened to the width between the paddings, measured in the title font. */
  function TitleText(title: string, imageWidth: nat, measure: (int, string) -> real): string {
    var titleFont := TitleFont(imageWidth);
    Truncated(s => measure(titleFont, s), title, (imageWidth - 2 * Padding(imageWidth)) as real)
  }

  /** The drawn title fits between the paddings, unless it is the whole trimmed title. */
  lemma {:induction false} TitleTextFits(title: string, imageWidth: nat, measure: (int, string) -> real)
    ensures var r := TitleText(title, imageWidth, measure);
      r == Trim(title) || measure(TitleFont(imageWidth), r) <= (imageWidth - 2 * Padding(imageWidth)) as real
  {
    var titleFont := TitleFont(imageWidth);
    TruncatedFits(s => measure(titleFont, s), title, (imageWidth - 2 * Padding(imageWidth)) as real);
  }

  /**
   * `downloadChartImage({instance, title, filename, watermark})` for a loaded image of
   * `imageWidth` × `imageHeight` pixels: nothing without a chart instance or a 2D context,
   * otherwise the title band, the image below it and the watermark in the bottom-right corner.
   */
  function ExportLayout(hasInstance: bool, hasContext: bool, imageWidth: nat, imageHeight: nat,
                        title: string, filename: string, watermark: Option<string>,
                        measure: (int, string) -> real): Option<ExportPlan>
  {
    if !hasInstance || !hasContext then None
    else
      var padding := Padding(imageWidth);
      var titlePad := TitlePad(title, TitleFont(imageWidth));
      var mark := watermark.GetOr("");
      Some(ExportPlan(
        imageWidth,
        imageHeight + titlePad,
        if title != "" then
          Some(TextDraw(TitleText(title, imageWidth, measure),
                        imageWidth as real / 2.0, titlePad as real / 2.0, TitleFont(imageWidth)))
        else None,
        titlePad,
        if mark != "" then
          Some(TextDraw(mark, (imageWidth - padding) as real, (titlePad + imageHeight - padding) as real,
                        WatermarkFont(imageWidth)))
        else None,
        DownloadName(filename)))
  }

  /**
   * Nothing is exported without an instance or a context. Otherwise the canvas is as wide as the
   * image and taller by the title band, the image fills the canvas below the band, and the file
   * name ends in '.png'.
   */
  lemma {:induction false} ExportCanvas(hasInstance: bool, hasContext: bool, imageWidth: nat, imageHeight: nat,
                                        title: string, filename: string, watermark: Option<string>,
                                        measure: (int, string) -> real)
    ensures var r := ExportLayout(hasInstance, hasContext, imageWidth, imageHeight, title, filename, watermark, measure);
      (r.Some? <==> hasInstance && hasContext) &&
      (r.Some? ==>
        r.value.canvasWidth == imageWidth &&
        r.value.canvasHeight >= imageHeight &&
        r.value.imageY + imageHeight == r.value.canvasHeight &&
        (title == "" <==> r.value.imageY == 0) &&
        EndsWith(r.value.download, ".png"))
  {
    TitlePadRange(title, imageWidth);
    DownloadNameRule(filename);
  }

  /**
   * A title is drawn exactly when one is given, centred in the title band, in a 16..28 pixel font,
   * shortened to fit between the paddings; the watermark is drawn exactly when it is non-empty, in
   * a 10..14 pixel font.
   */
  lemma {:induction false} ExportTexts(hasInstance: bool, hasContext: bool, imageWidth: nat, imageHeight: nat,
                                       title: string, filename: string, watermark: Option<string>,
                                       measure: (int, string) -> real)
    requires hasInstance && hasContext
    ensures var p := ExportLayout(hasInstance, hasContext, imageWidth, imageHeight, title, filename, watermark, measure).value;
      (p.title.Some? <==> title != "") &&
      (p.title.Some? ==>
        p.title.value.x == p.canvasWidth as real / 2.0 &&
        p.title.value.y == p.imageY as real / 2.0 &&
        16 <= p.title.value.font <= 28 &&
        (p.title.value.text == Trim(title) ||
         measure(p.title.value.font, p.title.value.text) <= (imageWidth - 2 * Padding(imageWidth)) as real)) &&
      (p.watermark.Some? <==> Truthy(watermark)) &&
      (p.watermark.Some? ==> p.watermark.value.text == watermark.value && 10 <= p.watermark.value.font <= 14)
  {
    ExportSizes(imageWidth);
    TitleTextFits(title, imageWidth, measure);
  }
}
