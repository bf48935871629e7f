/**
 * The visual card of src/components/visual-card.tsx: lenient parsing of a cell into a number,
 * the single-series cartesian chart option built from a visual's inline rows, and the choice of
 * what a card renders for each visual type.
 *
 * Only the parts of the chart option that carry data are modelled: categories, the y-axis name
 * and the one series (name, type, values, smoothing, symbol and bar width).
 */
module VisualCard {
  import opened Wrappers
  import opened Js
  import opened JsNumber
  import opened Types

  /** The text of a string cell with every ',' and '%' removed, then trimmed. */
  function CleanValueText(s: string): string {
    Trim(Without(Without(s, ','), '%'))
  }

  /** `parseValue`: numbers pass through, strings are read leniently, anything else is 0. */
  function ParseValue(v: Value): Number {
    match v
    case Num(n) => n
    case Str(s) =>
      var num := ToNumber(CleanValueText(s));
      if num.Finite? then num else Finite(0.0)
    case _ => Finite(0.0)
  }

  /**
   * A number comes back unchanged (even NaN or an infinity); any other non-string is 0; a string
   * gives a finite number, which is what `Number` makes of its cleaned text whenever that is finite.
   */
  lemma {:induction false} ParseValueCases(v: Value)
    ensures v.Num? ==> ParseValue(v) == v.n
    ensures !v.Num? && !v.Str? ==> ParseValue(v) == Finite(0.0)
    ensures v.Str? ==> ParseValue(v).Finite?
    ensures v.Str? && ToNumber(CleanValueText(v.s)).Finite? ==> ParseValue(v) == ToNumber(CleanValueText(v.s))
    ensures v.Str? && !ToNumber(CleanValueText(v.s)).Finite? ==> ParseValue(v) == Finite(0.0)
  {
  }

  /** The empty string and whitespace-only strings read as 0. */
  lemma {:induction false} BlankValueIsZero(s: string)
    requires forall i :: 0 <= i < |s| ==> IsSpace(s[i])
    ensures ParseValue(Str(s)) == Finite(0.0)
  {
    var a := Without(s, ',');
    var b := Without(a, '%');
    forall i | 0 <= i < |b|
      ensures IsSpace(b[i])
    {
      assert b[i] in b;
      assert b[i] in s;
    }
    assert CleanValueText(s) == Trim(b) == "";
  }

  /** The cleaned text of a string keeps no ',' and no '%'. */
  lemma {:induction false} CleanValueTextLacks(s: string)
    ensures ',' !in CleanValueText(s) && '%' !in CleanValueText(s)
  {
    var b := Without(Without(s, ','), '%');
    TrimLacks(b, ',');
    TrimLacks(b, '%');
  }

  /**
   * A string of digits, with any ',' or '%' among them and blanks around them, reads as the number
   * its digits spell: " 1,234 " gives 1234 and "45%" gives 45.
   */
  lemma {:induction false} ParseValueDigits(pre: string, body: string, post: string)
    requires forall i :: 0 <= i < |pre| ==> IsSpace(pre[i])
    requires forall i :: 0 <= i < |post| ==> IsSpace(post[i])
    requires forall i :: 0 <= i < |body| ==> IsDigit(body[i]) || body[i] == ',' || body[i] == '%'
    requires exists i :: 0 <= i < |body| && IsDigit(body[i])
    ensures var digits := Without(Without(body, ','), '%');
      && digits != []
      && (forall i :: 0 <= i < |digits| ==> IsDigit(digits[i]))
      && ParseValue(Str(pre + body + post)) == Finite(DigitsValue(digits) as real)
  {
    var digits := Without(Without(body, ','), '%');
    SeparatorsLeaveDigits(body);
    CleanAround(pre, body, post);
    TrimAround(pre, digits, post);
    assert CleanValueText(pre + body + post) == digits;
    DigitsConvert(digits);
    ParseValueCases(Str(pre + body + post));
  }

  lemma {:induction false} SeparatorsLeaveDigits(body: string)
    requires forall i :: 0 <= i < |body| ==> IsDigit(body[i]) || body[i] == ',' || body[i] == '%'
    requires exists i :: 0 <= i < |body| && IsDigit(body[i])
    ensures var digits := Without(Without(body, ','), '%');
      digits != [] && forall i :: 0 <= i < |digits| ==> IsDigit(digits[i])
  {
    var digits := Without(Without(body, ','), '%');
    var i :| 0 <= i < |body| && IsDigit(body[i]);
    assert body[i] in digits;
    forall k | 0 <= k < |digits|
      ensures IsDigit(digits[k])
    {
      assert digits[k] in body;
    }
  }

  /** Blanks around the text survive the removal of ',' and '%'. */
  lemma {:induction false} CleanAround(pre: string, body: string, post: string)
    requires forall i :: 0 <= i < |pre| ==> IsSpace(pre[i])
    requires forall i :: 0 <= i < |post| ==> IsSpace(post[i])
    ensures Without(Without(pre + body + post, ','), '%') == pre + Without(Without(body, ','), '%') + post
  {
    var noComma := Without(body, ',');
    BlanksLackSeparators(pre);
    BlanksLackSeparators(post);
    WithoutConcat(pre + body, post, ',');
    WithoutConcat(pre, body, ',');
    WithoutAbsent(pre, ',');
    WithoutAbsent(post, ',');
    assert Without(pre + body + post, ',') == pre + noComma + post;
    WithoutConcat(pre + noComma, post, '%');
    WithoutConcat(pre, noComma, '%');
    WithoutAbsent(pre, '%');
    WithoutAbsent(post, '%');
  }

  lemma {:induction false} BlanksLackSeparators(s: string)
    requires forall i :: 0 <= i < |s| ==> IsSpace(s[i])
    ensures ',' !in s && '%' !in s
  {
    forall j | 0 <= j < |s|
      ensures s[j] != ',' && s[j] != '%'
    {
      assert IsSpace(s[j]);
    }
  }

  /** A chart type the card draws with ECharts. */
  datatype ChartType = LineChart | BarChart

  /** The single series of a cartesian option. */
  datatype Series = Series(
    name: Option<string>,
    kind: ChartType,
    data: seq<Number>,
    smooth: bool,
    symbol: string,
    barMaxWidth: Option<int>)

  /** The data-carrying part of the option `buildCartesianOption` returns. */
  datatype CartesianOption = CartesianOption(
    categories: seq<string>,
    yAxisName: Option<string>,
    series: seq<Series>)

  /** The inline rows of a spec; anything that is not an array counts as no rows. */
  function InlineRows(spec: Spec): seq<Row> {
    spec.data.GetOr([])
  }

  /** `String(row[x] ?? '')`; an absent `x` reads the property named "undefined". */
  function CategoryOf(row: Row, x: Option<string>, finiteText: real -> string): string {
    var cell := Get(row, x.GetOr("undefined"));
    if IsNullish(cell) then "" else ToText(cell, finiteText)
  }

  /** `buildCartesianOption(visual, type)`; `finiteText` is how JavaScript prints a finite number. */
  function BuildCartesianOption(visual: Visual, kind: ChartType, finiteText: real -> string): CartesianOption {
    var spec := visual.spec;
    var rows := InlineRows(spec);
    var y := spec.y.GetOr("undefined");
    CartesianOption(
      seq(|rows|, i requires 0 <= i < |rows| => CategoryOf(rows[i], spec.x, finiteText)),
      spec.yLabel,
      [Series(
        Or(spec.yLabel, spec.y),
        kind,
        seq(|rows|, i requires 0 <= i < |rows| => ParseValue(Get(rows[i], y))),
        kind == LineChart,
        if kind == LineChart then "circle" else "none",
        if kind == BarChart then Some(40) else None)])
  }

  /**
   * One category and one value per inline row, in row order: the category is the row's `x` cell as
   * text (a missing or null cell gives ''), the value is the row's `y` cell read by ParseValue.
   * A spec without inline rows gives an empty chart.
   */
  lemma {:induction false} CartesianData(visual: Visual, kind: ChartType, finiteText: real -> string)
    ensures var o := BuildCartesianOption(visual, kind, finiteText);
      var rows := InlineRows(visual.spec);
      |o.series| == 1 &&
      |o.categories| == |rows| && |o.series[0].data| == |rows| &&
      (visual.spec.data.None? ==> o.categories == [] && o.series[0].data == []) &&
      (forall i :: 0 <= i < |rows| ==>
        o.series[0].data[i] == ParseValue(Get(rows[i], visual.spec.y.GetOr("undefined")))) &&
      (forall i :: 0 <= i < |rows| ==>
        var cell := Get(rows[i], visual.spec.x.GetOr("undefined"));
        o.categories[i] == if IsNullish(cell) then "" else ToText(cell, finiteText))
  {
  }

  /** A string `y` cell always plots as a finite value. */
  lemma {:induction false} CartesianStringValuesFinite(visual: Visual, kind: ChartType, finiteText: real -> string, i: nat)
    requires i < |InlineRows(visual.spec)|
    requires Get(InlineRows(visual.spec)[i], visual.spec.y.GetOr("undefined")).Str?
    ensures BuildCartesianOption(visual, kind, finiteText).series[0].data[i].Finite?
  {
    ParseValueCases(Get(InlineRows(visual.spec)[i], visual.spec.y.GetOr("undefined")));
  }

  /**
   * The one series is named by `yLabel` when that is a non-empty string, otherwise by `y`; it is
   * smooth with circle symbols exactly for a line chart and capped at 40 pixels wide exactly for
   * a bar chart.
   */
  lemma {:induction false} CartesianSeriesStyle(visual: Visual, kind: ChartType, finiteText: real -> string)
    ensures var s := BuildCartesianOption(visual, kind, finiteText).series[0];
      s.kind == kind &&
      (Truthy(visual.spec.yLabel) ==> s.name == visual.spec.yLabel) &&
      (!Truthy(visual.spec.yLabel) ==> s.name == visual.spec.y) &&
      (s.smooth <==> kind == LineChart) &&
      (s.symbol == "circle" <==> kind == LineChart) &&
      (s.barMaxWidth == Some(40) <==> kind == BarChart) &&
      (kind == BarChart ==> s.symbol == "none") &&
      (kind == LineChart ==> s.barMaxWidth.None?)
  {
  }

  /** A line and a bar chart of the same visual plot the same categories and values under the same names. */
  lemma {:induction false} LineAndBarShareData(visual: Visual, finiteText: real -> string)
    ensures var line := BuildCartesianOption(visual, LineChart, finiteText);
      var bar := BuildCartesianOption(visual, BarChart, finiteText);
      && line.categories == bar.categories
      && line.yAxisName == bar.yAxisName
      && line.series[0].name == bar.series[0].name
      && line.series[0].data == bar.series[0].data
      && line.series[0].kind != bar.series[0].kind
  {
  }

  /**
   * Adding one inline row adds one category and one value at the end of the chart and leaves the
   * earlier ones, the axis name and the series name as they were.
   */
  lemma {:induction false} CartesianAppendRow(visual: Visual, kind: ChartType, row: Row, finiteText: real -> string)
    ensures var before := BuildCartesianOption(visual, kind, finiteText);
      var grown := visual.(spec := visual.spec.(data := Some(InlineRows(visual.spec) + [row])));
      var after := BuildCartesianOption(grown, kind, finiteText);
      && after.categories == before.categories + [CategoryOf(row, visual.spec.x, finiteText)]
      && after.series[0].data == before.series[0].data + [ParseValue(Get(row, visual.spec.y.GetOr("undefined")))]
      && after.yAxisName == before.yAxisName
      && after.series[0].name == before.series[0].name
  {
    var before := BuildCartesianOption(visual, kind, finiteText);
    var grown := visual.(spec := visual.spec.(data := Some(InlineRows(visual.spec) + [row])));
    var after := BuildCartesianOption(grown, kind, finiteText);
    var rows := InlineRows(visual.spec);
    assert InlineRows(grown.spec) == rows + [row];
    assert after.categories == before.categories + [CategoryOf(row, visual.spec.x, finiteText)] by {
      forall i | 0 <= i < |rows|
        ensures after.categories[i] == before.categories[i]
      {
        assert (rows + [row])[i] == rows[i];
      }
    }
    assert after.series[0].data == before.series[0].data + [ParseValue(Get(row, visual.spec.y.GetOr("undefined")))] by {
      forall i | 0 <= i < |rows|
        ensures after.series[0].data[i] == before.series[0].data[i]
      {
        assert (rows + [row])[i] == rows[i];
      }
    }
  }

  /** What a visual card shows in its body. */
  datatype Rendered =
    | ChartView(option: CartesianOption)
    | TableView(headers: seq<string>, rows: seq<seq<Value>>)
    | RenderFailure
    | Unsupported(message: string)

  /**
   * `RenderVisual`: line and bar visuals become charts, table visuals a table of `spec.headers`
   * and `spec.rows` (reading a missing one throws), and every other type the unsupported notice.
   */
  function RenderVisual(visual: Visual, finiteText: real -> string): Rendered {
    match visual.kind
    case Line => ChartView(BuildCartesianOption(visual, LineChart, finiteText))
    case Bar => ChartView(BuildCartesianOption(visual, BarChart, finiteText))
    case Table =>
      if visual.spec.headers.Some? && visual.spec.rows.Some? then
        TableView(visual.spec.headers.value, visual.spec.rows.value)
      else RenderFailure
    case _ => Unsupported("Unsupported visual type")
  }

  /**
   * A chart exactly for line and bar visuals, of the matching type; a table exactly for table
   * visuals that carry headers and rows; the unsupported notice exactly for scatter visuals.
   */
  lemma {:induction false} RenderDispatch(visual: Visual, finiteText: real -> string)
    ensures var r := RenderVisual(visual, finiteText);
      (r.ChartView? <==> visual.kind == Line || visual.kind == Bar) &&
      (visual.kind == Line ==> r.option.series[0].kind == LineChart) &&
      (visual.kind == Bar ==> r.option.series[0].kind == BarChart) &&
      (r.TableView? <==> visual.kind == Table && visual.spec.headers.Some? && visual.spec.rows.Some?) &&
      (r.TableView? ==> r.headers == visual.spec.headers.value && r.rows == visual.spec.rows.value) &&
      (r.Unsupported? <==> visual.kind == Scatter) &&
      (r.Unsupported? ==> r.message == "Unsupported visual type")
  {
  }

  /** The icon in a card's header. */
  datatype Icon = LineIcon | BarIcon | TableIcon

  /** `VisualIcon`: an icon for line, bar and table visuals and none for any other type. */
  function VisualIcon(kind: VisualType): Option<Icon> {
    match kind
    case Line => Some(LineIcon)
    case Bar => Some(BarIcon)
    case Table => Some(TableIcon)
    case Scatter => None
  }

  /**
   * The header icon agrees with the body: a line icon exactly over a line chart, a bar icon exactly
   * over a bar chart, a table icon exactly over a table or its failure, and no icon exactly over
   * the unsupported notice.
   */
  lemma {:induction false} IconMatchesBody(visual: Visual, finiteText: real -> string)
    ensures var r := RenderVisual(visual, finiteText);
      var icon := VisualIcon(visual.kind);
      && (icon == Some(LineIcon) <==> r.ChartView? && r.option.series[0].kind == LineChart)
      && (icon == Some(BarIcon) <==> r.ChartView? && r.option.series[0].kind == BarChart)
      && (icon == Some(TableIcon) <==> r.TableView? || r.RenderFailure?)
      && (icon.None? <==> r.Unsupported?)
  {
    RenderDispatch(visual, finiteText);
  }
}
