/**
 * The article chart block of src/components/article-blocks/ChartBlock.tsx: the configuration
 * check made before any fetch, the filter applied to the parsed rows, the lenient cell parser
 * `parseNum`, the chart option (percentage-of-row-total stacked bars, or one plain series) and
 * the choice between the error text, the loading text and the chart.
 *
 * The fetch and the CSV parser are outside the model: the effect is split into the step taken
 * when it starts (which decides whether to fetch) and the step taken when the fetch settles
 * (which receives the parsed rows or the error text).
 */
module ChartBlock {
  import opened Wrappers
  import opened Js
  import opened JsNumber
  import opened Seqs
  import opened Types
  import Data

  const InvalidConfiguration := "Invalid visual configuration"

  /** `visual ?? (visualId ? getVisualById(visualId) : undefined)`: the prop wins over the id. */
  function ResolveVisual(visual: Option<Visual>, visualId: Option<string>): (r: Option<Visual>)
    ensures visual.Some? ==> r == visual
    ensures visual.None? && !Truthy(visualId) ==> r.None?
    ensures visual.None? && Truthy(visualId) ==> r == Data.GetVisualById(visualId.value)
  {
    if visual.Some? then visual
    else if Truthy(visualId) then Data.GetVisualById(visualId.value)
    else None
  }

  /** A spec the block may fetch for: a data URL, an x column, and a y column or a stack list. */
  predicate ValidSpec(spec: Spec) {
    Truthy(spec.dataUrl) && Truthy(spec.x) && (Truthy(spec.y) || spec.stacks.Some?)
  }

  /** The block's state: the filtered rows and the error text. */
  datatype ViewState = ViewState(rows: seq<Row>, error: Option<string>)

  /** The state before anything has arrived. */
  const Pending := ViewState([], None)

  /** What the effect does when it runs: the state it leaves and the URL it fetches, if any. */
  datatype EffectStart = EffectStart(state: ViewState, fetchUrl: Option<string>)

  /** The synchronous part of the effect: no visual does nothing; an invalid spec sets the error and fetches nothing. */
  function StartEffect(visual: Option<Visual>, st: ViewState): (r: EffectStart)
    ensures r.fetchUrl.Some? <==> visual.Some? && ValidSpec(visual.value.spec)
    ensures r.fetchUrl.Some? ==> r.fetchUrl == visual.value.spec.dataUrl && r.state == st
    ensures visual.None? ==> r.state == st
    ensures visual.Some? && !ValidSpec(visual.value.spec) ==> r.state == st.(error := Some(InvalidConfiguration))
  {
    if visual.None? then EffectStart(st, None)
    else if !ValidSpec(visual.value.spec) then EffectStart(st.(error := Some(InvalidConfiguration)), None)
    else EffectStart(st, visual.value.spec.dataUrl)
  }

  /** How the fetch settled: the rows the CSV parser produced from the body, or the text of the thrown error. */
  datatype FetchOutcome = Parsed(rows: seq<Row>) | Failed(message: string)

  /** Whether a parsed row is kept: the x cell is present and so is every stack cell (non-empty) or, without stacks, the y cell. */
  predicate KeepRow(spec: Spec, d: Row) {
    var x := spec.x.GetOr("undefined");
    match spec.stacks
    case Some(stacks) =>
      !IsNullish(Get(d, x)) && forall k :: 0 <= k < |stacks| ==> !IsNullish(Get(d, stacks[k])) && Get(d, stacks[k]) != Str("")
    case None =>
      !IsNullish(Get(d, x)) && !IsNullish(Get(d, spec.y.GetOr("undefined")))
  }

  /** The rows the block keeps, in input order. */
  function FilterRows(spec: Spec, parsed: seq<Row>): (r: seq<Row>)
    ensures IsSubsequence(r, parsed)
    ensures forall i :: 0 <= i < |r| ==> KeepRow(spec, r[i])
    ensures forall i :: 0 <= i < |parsed| && KeepRow(spec, parsed[i]) ==> parsed[i] in r
  {
    FilterIsSubsequence(parsed, (d: Row) => KeepRow(spec, d));
    Filter(parsed, (d: Row) => KeepRow(spec, d))
  }

  /** The asynchronous part of the effect: nothing happens once unmounted; otherwise rows or the error are stored. */
  function FinishEffect(spec: Spec, mounted: bool, outcome: FetchOutcome, st: ViewState): (r: ViewState)
    ensures !mounted ==> r == st
    ensures mounted && outcome.Parsed? ==> r == st.(rows := FilterRows(spec, outcome.rows))
    ensures mounted && outcome.Failed? ==> r == st.(error := Some(outcome.message))
  {
    if !mounted then st
    else match outcome
      case Parsed(rows) => st.(rows := FilterRows(spec, rows))
      case Failed(message) => st.(error := Some(message))
  }

  /** The text rule of `parseNum`: drop every '%' and ',', trim, then `parseFloat`; a non-finite result is 0. */
  function LenientParse(s: string): real {
    match ParseFloat(Trim(Without(Without(s, '%'), ',')))
    case Finite(x) => x
    case _ => 0.0
  }

  /**
   * `parseNum`. A finite number's `String` form parses back to the same number, so a finite
   * number comes through unchanged. The spellings of NaN, the infinities and the booleans all
   * read as 0 (`ParseNumReadsText`).
   */
  function ParseNum(v: Value): real {
    match v
    case Undefined => 0.0
    case Null => 0.0
    case Num(n) => if n.Finite? then n.v else 0.0
    case Str(s) => LenientParse(s)
    case Bool(_) => 0.0
  }

  /** `parseNum` never fails: nullish and non-numeric values read 0, finite numbers themselves. */
  lemma {:induction false} ParseNumCases(v: Value)
    ensures IsNullish(v) ==> ParseNum(v) == 0.0
    ensures v.Num? && v.n.Finite? ==> ParseNum(v) == v.n.v
    ensures v.Bool? || (v.Num? && !v.n.Finite?) ==> ParseNum(v) == 0.0
  {
  }

  /** Cells to real numbers, one per stack key. */
  function StackValues(stacks: seq<string>, row: Row): (r: seq<real>)
    ensures |r| == |stacks|
    ensures forall j :: 0 <= j < |stacks| ==> r[j] == ParseNum(Get(row, stacks[j]))
  {
    if stacks == [] then [] else [ParseNum(Get(row, stacks[0]))] + StackValues(stacks[1..], row)
  }

  /** `total || 1`: the divisor of a row's shares. */
  function Divisor(total: real): (d: real)
    ensures d != 0.0
    ensures total != 0.0 ==> d == total
  {
    if total == 0.0 then 1.0 else total
  }

  /** The share of one stack in one row, as a percentage of the row total. */
  function Share(stacks: seq<string>, row: Row, stack: string): real {
    ParseNum(Get(row, stack)) / Divisor(Sum(StackValues(stacks, row))) * 100.0
  }

  datatype StackSeries = StackSeries(name: string, data: seq<real>, color: Option<string>)

  datatype PlainSeries = PlainSeries(name: Option<string>, kind: VisualType, data: seq<Number>, smooth: bool)

  datatype ChartOption =
    | NoOption
    | StackedOption(categories: seq<string>, legend: seq<string>, yName: Option<string>, stacked: seq<StackSeries>)
    | PlainOption(categories: seq<string>, yName: Option<string>, plain: PlainSeries)

  /** `stackLabels?.[stack] || stack`. */
  function StackLabel(spec: Spec, stack: string): (r: string)
    ensures stack in spec.stackLabels && spec.stackLabels[stack] != "" ==> r == spec.stackLabels[stack]
    ensures !(stack in spec.stackLabels && spec.stackLabels[stack] != "") ==> r == stack
  {
    if stack in spec.stackLabels && spec.stackLabels[stack] != "" then spec.stackLabels[stack] else stack
  }

  /** `rows.map(r => String(r[x]))`; an absent `x` reads the property named "undefined". */
  function Categories(spec: Spec, rows: seq<Row>, finiteText: real -> string): (r: seq<string>)
    ensures |r| == |rows|
    ensures forall i :: 0 <= i < |rows| ==> r[i] == ToText(Get(rows[i], spec.x.GetOr("undefined")), finiteText)
  {
    seq(|rows|, i requires 0 <= i < |rows| => ToText(Get(rows[i], spec.x.GetOr("undefined")), finiteText))
  }

  /** One stacked series: the share of `stack` in every row. */
  function StackSeriesOf(spec: Spec, stacks: seq<string>, rows: seq<Row>, stack: string): (r: StackSeries)
    ensures r.name == StackLabel(spec, stack)
    ensures r.color == (if stack in spec.colors then Some(spec.colors[stack]) else None)
    ensures |r.data| == |rows|
    ensures forall i :: 0 <= i < |rows| ==> r.data[i] == Share(stacks, rows[i], stack)
  {
    StackSeries(
      StackLabel(spec, stack),
      seq(|rows|, i requires 0 <= i < |rows| => Share(stacks, rows[i], stack)),
      if stack in spec.colors then Some(spec.colors[stack]) else None)
  }

  /** The value of one row in the plain series: numbers as they are, anything else through `parseNum`. */
  function PlainValue(spec: Spec, row: Row): (r: Number)
    ensures !Truthy(spec.y) ==> r == Finite(0.0)
    ensures Truthy(spec.y) && Get(row, spec.y.value).Num? ==> r == Get(row, spec.y.value).n
    ensures Truthy(spec.y) && !Get(row, spec.y.value).Num? ==> r == Finite(ParseNum(Get(row, spec.y.value)))
  {
    var v := if Truthy(spec.y) then Get(row, spec.y.value) else Null;
    if v.Num? then v.n else Finite(ParseNum(v))
  }

  /** The `option` memo. */
  function BuildOption(visual: Option<Visual>, rows: seq<Row>, finiteText: real -> string): (r: ChartOption)
    ensures visual.None? <==> r.NoOption?
    ensures r.StackedOption? <==> visual.Some? && visual.value.spec.stacks.Some? && visual.value.kind == Bar
    ensures r.StackedOption? ==>
              var spec := visual.value.spec;
              var stacks := spec.stacks.value;
              && r.categories == Categories(spec, rows, finiteText)
              && r.yName == spec.yLabel
              && |r.stacked| == |stacks| == |r.legend|
              && forall j :: 0 <= j < |stacks| ==>
                   r.stacked[j] == StackSeriesOf(spec, stacks, rows, stacks[j]) && r.legend[j] == r.stacked[j].name
    ensures r.PlainOption? ==>
              var spec := visual.value.spec;
              && r.categories == Categories(spec, rows, finiteText)
              && r.yName == spec.yLabel
              && r.plain.name == Or(spec.yLabel, spec.y)
              && r.plain.kind == (if visual.value.kind == Table then Line else visual.value.kind)
              && (r.plain.smooth <==> visual.value.kind == Line)
              && |r.plain.data| == |rows|
              && forall i :: 0 <= i < |rows| ==> r.plain.data[i] == PlainValue(spec, rows[i])
  {
    if visual.None? then NoOption
    else
      var v := visual.value;
      var spec := v.spec;
      var categories := Categories(spec, rows, finiteText);
      if spec.stacks.Some? && v.kind == Bar then
        var stacks := spec.stacks.value;
        var series := seq(|stacks|, j requires 0 <= j < |stacks| => StackSeriesOf(spec, stacks, rows, stacks[j]));
        StackedOption(categories, seq(|stacks|, j requires 0 <= j < |stacks| => StackLabel(spec, stacks[j])), spec.yLabel, series)
      else
        PlainOption(categories, spec.yLabel, PlainSeries(
          Or(spec.yLabel, spec.y),
          if v.kind == Table then Line else v.kind,
          seq(|rows|, i requires 0 <= i < |rows| => PlainValue(spec, rows[i])),
          v.kind == Line))
  }

  /** What the block shows below its caption. */
  datatype View = ConfigurationMissing | ErrorText(text: string) | LoadingText | ChartView(option: ChartOption)

  function Render(visual: Option<Visual>, st: ViewState, finiteText: real -> string): (r: View)
    ensures visual.None? <==> r.ConfigurationMissing?
    ensures visual.Some? && Truthy(st.error) ==> r == ErrorText(st.error.value)
    ensures visual.Some? && !Truthy(st.error) && st.rows == [] ==> r == LoadingText
    ensures r.ChartView? <==> visual.Some? && !Truthy(st.error) && st.rows != []
    ensures r.ChartView? ==> r.option == BuildOption(visual, st.rows, finiteText)
  {
    if visual.None? then ConfigurationMissing
    else if Truthy(st.error) then ErrorText(st.error.value)
    else if st.rows == [] then LoadingText
    else ChartView(BuildOption(visual, st.rows, finiteText))
  }

  /** The shares of one row, stack by stack. */
  function RowShares(stacks: seq<string>, row: Row): (r: seq<real>)
    ensures |r| == |stacks|
    ensures forall j :: 0 <= j < |stacks| ==> r[j] == Share(stacks, row, stacks[j])
  {
    var vs := StackValues(stacks, row);
    var d := Divisor(Sum(vs));
    Percentages(vs, d)
  }

  /** Each value as a percentage of `d`. */
  function Percentages(vs: seq<real>, d: real): (r: seq<real>)
    requires d != 0.0
    ensures |r| == |vs|
    ensures forall j :: 0 <= j < |vs| ==> r[j] == vs[j] / d * 100.0
  {
    if vs == [] then [] else [vs[0] / d * 100.0] + Percentages(vs[1..], d)
  }

  lemma {:induction false} SumOfPercentages(vs: seq<real>, d: real)
    requires d != 0.0
    ensures Sum(Percentages(vs, d)) == Sum(vs) / d * 100.0
  {
    if vs != [] {
      SumOfPercentages(vs[1..], d);
      assert Percentages(vs, d)[1..] == Percentages(vs[1..], d);
      calc {
        Sum(Percentages(vs, d));
        vs[0] / d * 100.0 + Sum(vs[1..]) / d * 100.0;
        (vs[0] + Sum(vs[1..])) / d * 100.0;
      }
    }
  }

  /**
   * The stacked shares of a row add up to 100 when the row total is non-zero, and to 0 when it
   * is zero (each share is then the value itself times 100).
   */
  lemma {:induction false} RowSharesSum(stacks: seq<string>, row: Row)
    ensures Sum(StackValues(stacks, row)) != 0.0 ==> Sum(RowShares(stacks, row)) == 100.0
    ensures Sum(StackValues(stacks, row)) == 0.0 ==> Sum(RowShares(stacks, row)) == 0.0
  {
    var vs := StackValues(stacks, row);
    assert RowShares(stacks, row) == Percentages(vs, Divisor(Sum(vs)));
    PercentagesSum(vs);
  }

  /** Percentages of the total add up to 100; with a zero total (divisor 1) they add up to 0. */
  lemma {:induction false} PercentagesSum(vs: seq<real>)
    ensures Sum(vs) != 0.0 ==> Sum(Percentages(vs, Divisor(Sum(vs)))) == 100.0
    ensures Sum(vs) == 0.0 ==> Sum(Percentages(vs, Divisor(Sum(vs)))) == 0.0
  {
    var t := Sum(vs);
    var d := Divisor(t);
    SumOfPercentages(vs, d);
    if t != 0.0 {
      assert d == t;
      assert t / t == 1.0;
    } else {
      assert d == 1.0;
    }
  }

  /** The same sum read column-wise off the stacked option: series j, row i. */
  lemma {:induction false} StackedColumnsSum(visual: Option<Visual>, rows: seq<Row>, finiteText: real -> string, i: nat)
    requires BuildOption(visual, rows, finiteText).StackedOption?
    requires i < |rows|
    ensures var o := BuildOption(visual, rows, finiteText);
            var stacks := visual.value.spec.stacks.value;
            var column := seq(|o.stacked|, j requires 0 <= j < |o.stacked| => o.stacked[j].data[i]);
            && column == RowShares(stacks, rows[i])
            && Sum(column) == (if Sum(StackValues(stacks, rows[i])) != 0.0 then 100.0 else 0.0)
  {
    var o := BuildOption(visual, rows, finiteText);
    var stacks := visual.value.spec.stacks.value;
    var column := seq(|o.stacked|, j requires 0 <= j < |o.stacked| => o.stacked[j].data[i]);
    assert column == RowShares(stacks, rows[i]);
    RowSharesSum(stacks, rows[i]);
  }

  /** A zero total with values of mixed sign gives non-zero shares: zero-total rows are not all-zero. */
  lemma ZeroTotalSharesNeedNotBeZero()
    ensures var row := map["a" := Num(Finite(5.0)), "b" := Num(Finite(-5.0))];
            RowShares(["a", "b"], row) == [500.0, -500.0]
  {
    var row := map["a" := Num(Finite(5.0)), "b" := Num(Finite(-5.0))];
    assert StackValues(["a", "b"], row) == [5.0, -5.0];
    assert Sum([5.0, -5.0]) == 0.0;
  }

  /**
   * `parseNum` is the text rule applied to `String(v)` for every non-nullish value: the finite
   * numbers by the round trip of their `String` form, the others by their fixed spellings.
   */
  lemma {:induction false} ParseNumReadsText(v: Value, finiteText: real -> string)
    requires !IsNullish(v)
    requires v.Num? && v.n.Finite? ==> LenientParse(finiteText(v.n.v)) == v.n.v
    ensures ParseNum(v) == LenientParse(ToText(v, finiteText))
  {
    match v
    case Num(n) =>
      if !n.Finite? {
        NonFiniteReadsZero(n);
      }
    case Bool(b) =>
      BoolReadsZero(b);
    case Str(_) =>
  }

  /** Text without '%', ',' or whitespace goes to `parseFloat` as it is. */
  predicate Bare(s: string) {
    forall i :: 0 <= i < |s| ==> s[i] != '%' && s[i] != ',' && !IsSpace(s[i])
  }

  lemma {:induction false} BareText(s: string)
    requires Bare(s)
    ensures Trim(Without(Without(s, '%'), ',')) == s
    ensures ParseFloat(s) == match ScanDecimal(s) case Some(sc) => sc.value case None => NaN
  {
    WithoutAbsent(s, '%');
    WithoutAbsent(s, ',');
    assert TrimStart(s) == s;
    assert TrimEnd(s) == s;
  }

  /** Bare text is read by `parseFloat` alone. */
  lemma {:induction false} BareTextParses(s: string)
    requires Bare(s)
    ensures LenientParse(s) == match ParseFloat(s) case Finite(x) => x case _ => 0.0
  {
    BareText(s);
  }

  lemma {:induction false} WordReadsZero(s: string)
    requires Bare(s) && s != [] && !IsDigit(s[0]) && s[0] != '.' && s[0] != '+' && s[0] != '-' && s[0] != 'I'
    ensures LenientParse(s) == 0.0
  {
    ScanStopsAtNonNumeral(s);
    BareText(s);
  }

  lemma {:induction false} NonFiniteReadsZero(n: Number)
    requires !n.Finite?
    ensures LenientParse(NonFiniteText(n)) == 0.0
  {
    var t := NonFiniteText(n);
    if n.NaN? {
      WordReadsZero(t);
    } else {
      InfinityReadsZero(t);
    }
  }

  lemma {:induction false} InfinityReadsZero(t: string)
    requires Bare(t)
    requires StartsWith(t, "Infinity") || (t != [] && t[0] == '-' && StartsWith(t[1..], "Infinity"))
    ensures LenientParse(t) == 0.0
  {
    ScanInfinity(t);
    BareText(t);
  }

  lemma {:induction false} BoolReadsZero(b: bool)
    ensures LenientParse(BoolText(b)) == 0.0
  {
    var t := BoolText(b);
    assert t[0] == 't' || t[0] == 'f';
    assert Bare(t);
    WordReadsZero(t);
  }

  /** Percent signs and thousands separators never change what `parseNum` reads. */
  lemma {:induction false} SeparatorsIgnored(s: string)
    ensures LenientParse(Without(Without(s, '%'), ',')) == LenientParse(s)
  {
    var t := Without(Without(s, '%'), ',');
    WithoutAbsent(t, '%');
    WithoutAbsent(t, ',');
  }

  /** Blank or whitespace-only text parses to 0. */
  lemma {:induction false} BlankParsesToZero(s: string)
    requires forall i :: 0 <= i < |s| ==> IsSpace(s[i]) || s[i] == '%' || s[i] == ','
    ensures LenientParse(s) == 0.0
  {
    var t := Without(Without(s, '%'), ',');
    forall i | 0 <= i < |t|
      ensures IsSpace(t[i])
    {
      assert t[i] in s;
      var j :| 0 <= j < |s| && s[j] == t[i];
    }
    assert Trim(t) == [];
    assert ScanDecimal(TrimStart([])).None?;
  }

  /** A plain digit string parses to its decimal value. */
  lemma {:induction false} DigitsParse(d: string)
    requires d != [] && forall i :: 0 <= i < |d| ==> IsDigit(d[i])
    ensures LenientParse(d) == DigitsValue(d) as real
  {
    assert Bare(d);
    DigitsConvert(d);
    BareTextParses(d);
  }

  /** An empty filter result renders exactly like the state before any data arrived. */
  lemma {:induction false} EmptyResultLooksPending(visual: Option<Visual>, parsed: seq<Row>, finiteText: real -> string)
    requires visual.Some? && ValidSpec(visual.value.spec)
    requires FilterRows(visual.value.spec, parsed) == []
    ensures var start := StartEffect(visual, Pending);
            var done := FinishEffect(visual.value.spec, true, Parsed(parsed), start.state);
            && Render(visual, done, finiteText) == Render(visual, Pending, finiteText) == LoadingText
  {
  }

  /** An invalid spec shows the configuration error and never fetches. */
  lemma {:induction false} InvalidSpecShowsError(visual: Visual, finiteText: real -> string)
    requires !ValidSpec(visual.spec)
    ensures var start := StartEffect(Some(visual), Pending);
            && start.fetchUrl.None?
            && Render(Some(visual), start.state, finiteText) == ErrorText(InvalidConfiguration)
  {
  }

  /** The stored visual with inline data and no data URL is rejected by the article block. */
  lemma InlineDataVisualRejected()
    ensures Data.GetVisualById("assam-employment-rate").Some?
    ensures !ValidSpec(Data.GetVisualById("assam-employment-rate").value.spec)
  {
    Data.VisualAt("assam-employment-rate", 3);
  }
}
