/**
 * src/lib/chart-palette.ts: the colour constants, the choice of the series to highlight, and
 * the assignment of a colour to every series name.
 *
 * The highlight and benchmark regular expressions are given as lists of predicates on the
 * series name, tried in list order; which names they accept is outside the model.
 */
module ChartPalette {
  import opened Wrappers
  import opened Js
  import opened Seqs
  import opened Objects

  /** The muted series colours, darkest first. */
  const SeriesMuted: seq<string> := ["#111111", "#4B4B4B", "#6B6B6B", "#8C8C8C", "#A3A3A3", "#C2C2C2"]

  datatype Palette = Palette(
    background: string, ink: string, axis: string, muted: string, light: string, grid: string,
    accent: string, accentDark: string,
    series: seq<string>, seriesMulti: seq<string>, seriesMuted: seq<string>)

  const Accent := "#D32F2F"

  /** `chartPalette`. */
  const ChartPalette := Palette(
    "#FFFFFF", "#111111", "#4B4B4B", "#6B6B6B", "#9A9A9A", "#E0E0E0",
    Accent, "#B71C1C",
    [Accent] + SeriesMuted,
    [Accent, "#4E79A7", "#59A14F", "#F28E2B", "#76B7B2", "#B07AA1", "#9C755F", "#EDC948", "#BAB0AC"],
    SeriesMuted)

  /** Two colours are the same once lower-cased (ASCII letters only). */
  predicate SameColor(a: string, b: string) {
    LowerAscii(a) == LowerAscii(b)
  }

  /** The muted palette holds no colour equal to the accent, and `series` is the accent, then the muted palette. */
  lemma DefaultPaletteLacksAccent()
    ensures forall c :: c in ChartPalette.seriesMuted ==> !SameColor(c, ChartPalette.accent)
    ensures ChartPalette.series == [ChartPalette.accent] + ChartPalette.seriesMuted
  {
    forall i | 0 <= i < |SeriesMuted|
      ensures !SameColor(SeriesMuted[i], Accent)
    {
      DifferentAt(SeriesMuted[i], Accent, 1);
    }
  }

  /** Colours whose characters at `k` differ once lower-cased are different colours. */
  lemma {:induction false} DifferentAt(a: string, b: string, k: nat)
    requires k < |a| && k < |b| && LowerChar(a[k]) != LowerChar(b[k])
    ensures !SameColor(a, b)
  {
    assert LowerAscii(a)[k] != LowerAscii(b)[k];
  }

  // ---------------------------------------------------------------------------------------------
  // pickHighlightSeriesIndex

  /** `matchers.some((m) => m.test(name))`. */
  predicate AnyMatch(matchers: seq<string -> bool>, name: string) {
    exists m :: 0 <= m < |matchers| && matchers[m](name)
  }

  /** The index found by the first matcher, in list order, that matches some name. */
  function MatcherHit(names: seq<string>, matchers: seq<string -> bool>): (r: Option<nat>)
    ensures r.Some? ==> r.value < |names|
  {
    if matchers == [] then None
    else match FindIndex(names, matchers[0])
      case Some(i) => Some(i)
      case None => MatcherHit(names, matchers[1..])
  }

  /** What `pickHighlightSeriesIndex` returns; `None` is `undefined`. */
  function HighlightSeriesIndex(names: seq<string>, highlight: seq<string -> bool>, benchmark: seq<string -> bool>): (r: Option<nat>)
    ensures r.Some? && |names| > 1 ==> r.value < |names|
  {
    if |names| <= 1 then Some(0)
    else match MatcherHit(names, highlight)
      case Some(i) => Some(i)
      case None =>
        if exists i :: 0 <= i < |names| && AnyMatch(benchmark, names[i]) then
          FindIndex(names, (name: string) => !AnyMatch(benchmark, name))
        else None
  }

  /** The loop over the highlight matchers with its early returns. */
  method PickHighlightSeriesIndex(names: seq<string>, highlight: seq<string -> bool>, benchmark: seq<string -> bool>)
    returns (r: Option<nat>)
    ensures r == HighlightSeriesIndex(names, highlight, benchmark)
  {
    if |names| <= 1 {
      return Some(0);
    }
    var m := 0;
    while m < |highlight|
      invariant m <= |highlight|
      invariant MatcherHit(names, highlight) == MatcherHit(names, highlight[m..])
    {
      var idx := FindIndex(names, highlight[m]);
      if idx.Some? {
        return idx;
      }
      assert highlight[m..][1..] == highlight[m + 1..];
      m := m + 1;
    }
    if exists i :: 0 <= i < |names| && AnyMatch(benchmark, names[i]) {
      var idx := FindIndex(names, (name: string) => !AnyMatch(benchmark, name));
      if idx.Some? {
        return idx;
      }
    }
    return None;
  }

  /** No matcher matches any name exactly when no matcher hits. */
  lemma {:induction false} MatcherHitNone(names: seq<string>, matchers: seq<string -> bool>)
    ensures MatcherHit(names, matchers).None? <==>
      forall m, i :: 0 <= m < |matchers| && 0 <= i < |names| ==> !matchers[m](names[i])
  {
    if matchers != [] {
      MatcherHitNone(names, matchers[1..]);
      if FindIndex(names, matchers[0]).None? {
        forall m, i | 0 < m < |matchers| && 0 <= i < |names|
          ensures matchers[m](names[i]) == matchers[1..][m - 1](names[i])
        {
        }
      }
    }
  }

  /**
   * The earliest matcher that matches anything decides, and it picks the first name it matches:
   * matcher order beats series order.
   */
  lemma {:induction false} MatcherHitFirst(names: seq<string>, matchers: seq<string -> bool>, m: nat, i: nat)
    requires m < |matchers| && i < |names| && matchers[m](names[i])
    requires forall j :: 0 <= j < i ==> !matchers[m](names[j])
    requires forall m', j :: 0 <= m' < m && 0 <= j < |names| ==> !matchers[m'](names[j])
    ensures MatcherHit(names, matchers) == Some(i)
  {
    if m == 0 {
      FindIndexFirst(names, matchers[0], i);
    } else {
      MatcherHitFirst(names, matchers[1..], m - 1, i);
    }
  }

  /** Lists of at most one name highlight index 0, even the empty list. */
  lemma {:induction false} HighlightShortList(names: seq<string>, highlight: seq<string -> bool>, benchmark: seq<string -> bool>)
    requires |names| <= 1
    ensures HighlightSeriesIndex(names, highlight, benchmark) == Some(0)
  {
  }

  /** The first name matched by the earliest matcher that matches anything is highlighted. */
  lemma {:induction false} HighlightByMatcher(names: seq<string>, highlight: seq<string -> bool>, benchmark: seq<string -> bool>, m: nat, i: nat)
    requires |names| > 1
    requires m < |highlight| && i < |names| && highlight[m](names[i])
    requires forall j :: 0 <= j < i ==> !highlight[m](names[j])
    requires forall m', j :: 0 <= m' < m && 0 <= j < |names| ==> !highlight[m'](names[j])
    ensures HighlightSeriesIndex(names, highlight, benchmark) == Some(i)
  {
    MatcherHitFirst(names, highlight, m, i);
  }

  /** With no matcher hit but some benchmark name, the first non-benchmark name is highlighted. */
  lemma {:induction false} HighlightBenchmarkFallback(names: seq<string>, highlight: seq<string -> bool>, benchmark: seq<string -> bool>, i: nat)
    requires |names| > 1
    requires forall m, j :: 0 <= m < |highlight| && 0 <= j < |names| ==> !highlight[m](names[j])
    requires exists j :: 0 <= j < |names| && AnyMatch(benchmark, names[j])
    requires i < |names| && !AnyMatch(benchmark, names[i])
    requires forall j :: 0 <= j < i ==> AnyMatch(benchmark, names[j])
    ensures HighlightSeriesIndex(names, highlight, benchmark) == Some(i)
  {
    MatcherHitNone(names, highlight);
    FindIndexFirst(names, (name: string) => !AnyMatch(benchmark, name), i);
  }

  /**
   * Nothing is highlighted exactly when there are two or more names, no matcher hits, and either
   * no name or every name is a benchmark.
   */
  lemma {:induction false} HighlightUndefined(names: seq<string>, highlight: seq<string -> bool>, benchmark: seq<string -> bool>)
    ensures HighlightSeriesIndex(names, highlight, benchmark).None? <==>
      && |names| > 1
      && (forall m, j :: 0 <= m < |highlight| && 0 <= j < |names| ==> !highlight[m](names[j]))
      && ((forall j :: 0 <= j < |names| ==> !AnyMatch(benchmark, names[j])) ||
          (forall j :: 0 <= j < |names| ==> AnyMatch(benchmark, names[j])))
  {
    MatcherHitNone(names, highlight);
    var notBenchmark := (name: string) => !AnyMatch(benchmark, name);
    var found := FindIndex(names, notBenchmark);
    if found.Some? {
      assert !AnyMatch(benchmark, names[found.value]);
    }
  }

  // ---------------------------------------------------------------------------------------------
  // pickHighlightIndexByTotals

  /** The sum of the finite values of one series; the others are skipped. */
  function FiniteTotal(values: seq<Number>): real {
    if values == [] then 0.0
    else (if values[0].Finite? then values[0].v else 0.0) + FiniteTotal(values[1..])
  }

  function Totals(seriesValues: seq<seq<Number>>): (r: seq<real>)
    ensures |r| == |seriesValues|
    ensures forall i :: 0 <= i < |r| ==> r[i] == FiniteTotal(seriesValues[i])
  {
    seq(|seriesValues|, i requires 0 <= i < |seriesValues| => FiniteTotal(seriesValues[i]))
  }

  /** `Math.max(...xs)` for a non-empty list. */
  function Largest(xs: seq<real>): (r: real)
    requires xs != []
    ensures r in xs
    ensures forall i :: 0 <= i < |xs| ==> xs[i] <= r
  {
    if |xs| == 1 then xs[0]
    else
      var rest := Largest(xs[1..]);
      assert forall i :: 1 <= i < |xs| ==> xs[i] == xs[1..][i - 1];
      if xs[0] >= rest then xs[0] else rest
  }

  /** What `pickHighlightIndexByTotals` returns; `None` is `undefined`. */
  function HighlightIndexByTotals(seriesValues: seq<seq<Number>>): Option<nat> {
    if seriesValues == [] then None
    else
      var totals := Totals(seriesValues);
      var max := Largest(totals);
      if max <= 0.0 then None else FindIndex(totals, (t: real) => t == max)
  }

  /** Nothing is picked exactly when there is no series or no total is positive. */
  lemma {:induction false} TotalsUndefined(seriesValues: seq<seq<Number>>)
    ensures HighlightIndexByTotals(seriesValues).None? <==>
      forall i :: 0 <= i < |seriesValues| ==> FiniteTotal(seriesValues[i]) <= 0.0
  {
    if seriesValues != [] {
      var totals := Totals(seriesValues);
      var max := Largest(totals);
      if max > 0.0 {
        var k :| 0 <= k < |totals| && totals[k] == max;
        assert FindIndex(totals, (t: real) => t == max).Some?;
      }
    }
  }

  /** The pick is the first series whose total is the largest, and that total is positive. */
  lemma {:induction false} TotalsPickFirstLargest(seriesValues: seq<seq<Number>>)
    requires HighlightIndexByTotals(seriesValues).Some?
    ensures var i := HighlightIndexByTotals(seriesValues).value;
      && i < |seriesValues|
      && FiniteTotal(seriesValues[i]) > 0.0
      && (forall j :: 0 <= j < |seriesValues| ==> FiniteTotal(seriesValues[j]) <= FiniteTotal(seriesValues[i]))
      && (forall j :: 0 <= j < i ==> FiniteTotal(seriesValues[j]) < FiniteTotal(seriesValues[i]))
  {
    var totals := Totals(seriesValues);
    var max := Largest(totals);
    var i := HighlightIndexByTotals(seriesValues).value;
    assert totals[i] == max;
  }

  // ---------------------------------------------------------------------------------------------
  // buildSeriesColorMap

  /** The default for the `palette` parameter. */
  const DefaultPalette := ChartPalette.seriesMuted

  /** With a highlight index, the palette without any colour equal to the accent. */
  function BasePalette(highlightIndex: Option<int>, palette: seq<string>): seq<string> {
    if highlightIndex.Some? then Filter(palette, (c: string) => !SameColor(c, Accent)) else palette
  }

  /** `basePalette[idx % basePalette.length]`, which is `undefined` for an empty palette. */
  function Cycle(base: seq<string>, idx: nat): Option<string> {
    if base == [] then None else Some(base[idx % |base|])
  }

  /** `highlightIndex != null && seriesNames[highlightIndex]`: an in-range index of a non-empty name. */
  predicate Highlights(names: seq<string>, highlightIndex: Option<int>) {
    highlightIndex.Some? && 0 <= highlightIndex.value < |names| && names[highlightIndex.value] != ""
  }

  /** The colour of each series, in series order. */
  function SeriesColors(names: seq<string>, highlightIndex: Option<int>, palette: seq<string>): (r: seq<Option<string>>)
    ensures |r| == |names|
  {
    var base := BasePalette(highlightIndex, palette);
    var colors := seq(|names|, i requires 0 <= i < |names| => Cycle(base, i));
    if Highlights(names, highlightIndex) then colors[highlightIndex.value := Some(Accent)] else colors
  }

  /** The pair of each name with the colour at the same position. */
  function Zip<A, B>(a: seq<A>, b: seq<B>): (r: seq<(A, B)>)
    requires |a| == |b|
    ensures |r| == |a| && forall i :: 0 <= i < |a| ==> r[i] == (a[i], b[i])
  {
    seq(|a|, i requires 0 <= i < |a| => (a[i], b[i]))
  }

  /** What `buildSeriesColorMap` returns. */
  function SeriesColorMap(names: seq<string>, highlightIndex: Option<int>, palette: seq<string>): Object<string, Option<string>> {
    FromEntries(Zip(names, SeriesColors(names, highlightIndex, palette)))
  }

  /** The colour list is built by `map`, then one slot is overwritten in place. */
  method BuildSeriesColorMap(names: seq<string>, highlightIndex: Option<int>, palette: seq<string>)
    returns (r: Object<string, Option<string>>)
    ensures r == SeriesColorMap(names, highlightIndex, palette)
  {
    var base := BasePalette(highlightIndex, palette);
    var colors := new Option<string>[|names|](i requires 0 <= i < |names| => Cycle(base, i));
    assert colors[..] == seq(|names|, i requires 0 <= i < |names| => Cycle(base, i));
    if highlightIndex.Some? && 0 <= highlightIndex.value < |names| && names[highlightIndex.value] != "" {
      colors[highlightIndex.value] := Some(Accent);
    }
    r := FromEntries(Zip(names, colors[..]));
  }

  /** Without a highlight index the palette is cycled in series order. */
  lemma {:induction false} ColorsWithoutHighlight(names: seq<string>, palette: seq<string>, i: nat)
    requires palette != [] && i < |names|
    ensures SeriesColors(names, None, palette)[i] == Some(palette[i % |palette|])
  {
  }

  /**
   * With a highlight index, the highlighted series gets the accent and every other series a
   * colour of the accent-free palette in cycle order, so no other series shows the accent.
   */
  lemma {:induction false} ColorsWithHighlight(names: seq<string>, highlightIndex: Option<int>, palette: seq<string>, i: nat)
    requires highlightIndex.Some? && i < |names|
    ensures var colors := SeriesColors(names, highlightIndex, palette);
      var base := Filter(palette, (c: string) => !SameColor(c, Accent));
      && (Highlights(names, highlightIndex) && i == highlightIndex.value ==> colors[i] == Some(Accent))
      && (!Highlights(names, highlightIndex) || i != highlightIndex.value ==>
            colors[i] == Cycle(base, i) && (colors[i].Some? ==> !SameColor(colors[i].value, Accent)))
  {
    var base := Filter(palette, (c: string) => !SameColor(c, Accent));
    if base != [] {
      var c := base[i % |base|];
      assert !SameColor(c, Accent);
    }
  }

  /**
   * The map has one entry per distinct name, created in order of first occurrence; `Object.keys`
   * lists the names that are array indices first, by ascending value, then the others in order of
   * first occurrence.
   */
  lemma {:induction false} ColorMapKeys(names: seq<string>, highlightIndex: Option<int>, palette: seq<string>)
    ensures var m := SeriesColorMap(names, highlightIndex, palette);
      var created := FirstOccurrences(names, None);
      var keys := OwnKeys(m.order);
      var n := |Filter(created, IsArrayIndex)|;
      && WellFormed(m) && m.order == created
      && Distinct(keys) && (forall k :: k in keys <==> k in names)
      && n <= |keys|
      && (forall i :: 0 <= i < n ==> IsArrayIndex(keys[i]))
      && (forall i, j :: 0 <= i < j < n ==> IndexRank(keys[i]) <= IndexRank(keys[j]))
      && keys[n..] == Filter(created, NotArrayIndex)
  {
    var pairs := Zip(names, SeriesColors(names, highlightIndex, palette));
    AssignOrder(pairs, None);
    assert Keys(pairs) == names;
    var created := FirstOccurrences(names, None);
    OwnKeysOrder(created);
    OwnKeysSameKeys(created);
  }

  /** A repeated name keeps the colour of its last occurrence. */
  lemma {:induction false} ColorMapLastWins(names: seq<string>, highlightIndex: Option<int>, palette: seq<string>, i: nat)
    requires i < |names|
    requires forall j :: i < j < |names| ==> names[j] != names[i]
    ensures Lookup(SeriesColorMap(names, highlightIndex, palette), names[i]) == Some(SeriesColors(names, highlightIndex, palette)[i])
  {
    AssignLastWins(Zip(names, SeriesColors(names, highlightIndex, palette)), None, i);
  }
}
