/**
 * The stacked horizontal bar chart of src/components/charts/BarStacked.tsx: loading the CSV/TSV
 * file, the `useMemo` preparation (index column, series columns, fraction-to-percent rescaling,
 * rows-not-summing-to-100 diagnostics, the sort on the "big" column), the status shown instead of
 * the chart, the series colours and the bar labels.
 */
module BarStacked {
  import opened Wrappers
  import opened Js
  import opened JsNumber
  import opened Seqs
  import opened Objects
  import opened BarStackedParse
  import opened BarStackedSort

  // ---------------------------------------------------------------------------------------------
  // Loading

  /** The component's state: the cleaned rows, the error message, and whether a load is running. */
  datatype LoadState = LoadState(raw: seq<Record>, error: Option<string>, loading: bool)

  const InitialState := LoadState([], None, true)

  /** What `fetch` gave: a response (with `ok`, `status` and the body text), or a thrown error. */
  datatype Response = Response(ok: bool, status: nat, body: string)
  datatype LoadOutcome = Responded(response: Response) | Threw(message: string)

  /** A CSV or TSV parser: the rows of the text as (header, cell text) columns in column order. */
  type Parser = (Delimiter, string) -> seq<seq<(string, string)>>

  /** The parser chosen from the first line, then each row cleaned. */
  function ParseBody(text: string, parse: Parser): (rows: seq<Record>)
    ensures |rows| == |parse(ChooseDelimiter(text), text)|
    ensures forall i :: 0 <= i < |rows| ==> rows[i] == CleanedRow(parse(ChooseDelimiter(text), text)[i])
  {
    var parsed := parse(ChooseDelimiter(text), text);
    seq(|parsed|, i requires 0 <= i < |parsed| => CleanedRow(parsed[i]))
  }

  /** The effect starts: the previous rows and error stay until the load settles. */
  function StartLoad(st: LoadState): (r: LoadState)
    ensures r.loading && r.raw == st.raw && r.error == st.error
  {
    st.(loading := true)
  }

  /** The message of a failed load: `HTTP <status>` for a non-OK response, else the thrown message or a default. */
  function FailureMessage(outcome: LoadOutcome): string
    requires outcome.Threw? || !outcome.response.ok
  {
    match outcome
    case Responded(r) => "HTTP " + NatText(r.status)
    case Threw(m) => if m == "" then "Failed to load CSV" else m
  }

  /** The load settles; after the effect is cleaned up (`cancelled`) nothing changes. */
  function FinishLoad(st: LoadState, cancelled: bool, outcome: LoadOutcome, parse: Parser): (r: LoadState)
    ensures cancelled ==> r == st
    ensures !cancelled ==> !r.loading
    ensures !cancelled && outcome.Responded? && outcome.response.ok ==>
      r == LoadState(ParseBody(outcome.response.body, parse), None, false)
    ensures !cancelled && (outcome.Threw? || !outcome.response.ok) ==>
      r.raw == st.raw && r.error == Some(FailureMessage(outcome))
  {
    if cancelled then st
    else if outcome.Responded? && outcome.response.ok then
      LoadState(ParseBody(outcome.response.body, parse), None, false)
    else
      st.(error := Some(FailureMessage(outcome)), loading := false)
  }

  /** A failed load always leaves a non-empty message, so the error is shown. */
  lemma {:induction false} FailureMessageNonEmpty(outcome: LoadOutcome)
    requires outcome.Threw? || !outcome.response.ok
    ensures FailureMessage(outcome) != ""
  {
  }

  // ---------------------------------------------------------------------------------------------
  // Preparation

  /** `Number(row[k])`: a missing cell is `undefined` (NaN); a text cell goes through `Number`. */
  function CellNumber(c: Option<Cell>): Number {
    match c
    case None => NaN
    case Some(cell) => if cell.Num? then Finite(cell.v) else ToNumber(cell.s)
  }

  /** The header names that mark the index column, compared trimmed and lower-cased. */
  predicate IsIndexName(k: string) {
    var l := LowerAscii(Trim(k));
    l == "district" || l == "grower type" || l == "metric"
  }

  /** The index column: the first header that is an index name, else the first header, else "district". */
  function IndexKey(allKeys: seq<string>): (r: string)
    ensures r in allKeys || (allKeys == [] && r == "district")
  {
    match FindIndex(allKeys, IsIndexName)
    case Some(i) => allKeys[i]
    case None => if allKeys == [] then "district" else allKeys[0]
  }

  /** A header that is an index name, with none before it, is the index column. */
  lemma {:induction false} IndexKeyFirstMatch(allKeys: seq<string>, i: nat)
    requires i < |allKeys| && IsIndexName(allKeys[i])
    requires forall j :: 0 <= j < i ==> !IsIndexName(allKeys[j])
    ensures IndexKey(allKeys) == allKeys[i]
  {
    FindIndexFirst(allKeys, IsIndexName, i);
  }

  /** Without an index name the first header is the index column, and "district" without headers. */
  lemma {:induction false} IndexKeyFallback(allKeys: seq<string>)
    requires forall i :: 0 <= i < |allKeys| ==> !IsIndexName(allKeys[i])
    ensures IndexKey(allKeys) == if allKeys == [] then "district" else allKeys[0]
  {
  }

  /** The series columns: every other header, in row-0 order. */
  function SeriesKeys(allKeys: seq<string>, idx: string): (r: seq<string>)
    ensures idx !in r
    ensures forall k :: k in r <==> k in allKeys && k != idx
    ensures IsSubsequence(r, allKeys)
  {
    FilterIsSubsequence(allKeys, k => k != idx);
    Filter(allKeys, k => k != idx)
  }

  /** The finite values of a row's series cells, in column order. */
  function RowFinite(row: Record, keys: seq<string>): seq<real> {
    if keys == [] then []
    else
      var n := CellNumber(Lookup(row, keys[|keys| - 1]));
      RowFinite(row, keys[..|keys| - 1]) + (if n.Finite? then [n.v] else [])
  }

  /** The finite series values of all rows, row by row. */
  function AllFinite(rows: seq<Record>, keys: seq<string>): seq<real> {
    if rows == [] then [] else AllFinite(rows[..|rows| - 1], keys) + RowFinite(rows[|rows| - 1], keys)
  }

  function Max(a: real, b: real): real {
    if a >= b then a else b
  }

  /** `Math.max` folded over the values, starting from 0. */
  function MaxOf(xs: seq<real>): real {
    if xs == [] then 0.0 else Max(MaxOf(xs[..|xs| - 1]), xs[|xs| - 1])
  }

  /** The fold is at least 0, bounds every value, and is 0 or one of the values. */
  lemma {:induction false} MaxOfBounds(xs: seq<real>)
    ensures MaxOf(xs) >= 0.0
    ensures forall i :: 0 <= i < |xs| ==> xs[i] <= MaxOf(xs)
    ensures MaxOf(xs) == 0.0 || MaxOf(xs) in xs
  {
    if xs != [] {
      var init := xs[..|xs| - 1];
      MaxOfBounds(init);
      assert xs == init + [xs[|xs| - 1]];
    }
  }

  /** The scan over every row and series column for the largest finite value. */
  method LargestSeriesValue(rows: seq<Record>, keys: seq<string>) returns (m: real)
    ensures m == MaxOf(AllFinite(rows, keys))
  {
    m := 0.0;
    var i := 0;
    while i < |rows|
      invariant i <= |rows|
      invariant m == MaxOf(AllFinite(rows[..i], keys))
    {
      var j := 0;
      assert AllFinite(rows[..i], keys) + RowFinite(rows[i], keys[..0]) == AllFinite(rows[..i], keys) by {
        assert keys[..0] == [];
      }
      while j < |keys|
        invariant j <= |keys|
        invariant m == MaxOf(AllFinite(rows[..i], keys) + RowFinite(rows[i], keys[..j]))
      {
        var v := CellNumber(Lookup(rows[i], keys[j]));
        ghost var seen := AllFinite(rows[..i], keys) + RowFinite(rows[i], keys[..j]);
        assert keys[..j + 1][..j] == keys[..j];
        if v.Finite? {
          assert seen + [v.v] == AllFinite(rows[..i], keys) + RowFinite(rows[i], keys[..j + 1]);
          assert (seen + [v.v])[..|seen|] == seen;
          m := Max(m, v.v);
        } else {
          assert seen == AllFinite(rows[..i], keys) + RowFinite(rows[i], keys[..j + 1]);
        }
        j := j + 1;
      }
      assert keys[..j] == keys;
      assert rows[..i + 1][..i] == rows[..i];
      i := i + 1;
    }
    assert rows[..i] == rows;
  }

  /** Values that look like proportions (largest in (0, 1.000001]) are rescaled to percentages. */
  predicate ScaleToPercent(maxVal: real) {
    0.0 < maxVal <= 1.000001
  }

  function Scaled(v: real, scale: bool): real {
    if scale then v * 100.0 else v
  }

  /** A row after rescaling: each series cell with a finite value becomes that (scaled) number. */
  function Normalized(row: Record, keys: seq<string>, scale: bool): Record {
    if keys == [] then row
    else
      var out := Normalized(row, keys[..|keys| - 1], scale);
      var k := keys[|keys| - 1];
      var n := CellNumber(Lookup(row, k));
      if n.Finite? then Put(out, k, Cell.Num(Scaled(n.v, scale))) else out
  }

  /** The rescaling loop over one row. */
  method NormalizeRow(row: Record, keys: seq<string>, scale: bool) returns (out: Record)
    ensures out == Normalized(row, keys, scale)
  {
    out := row;
    var j := 0;
    while j < |keys|
      invariant j <= |keys|
      invariant out == Normalized(row, keys[..j], scale)
    {
      var v := CellNumber(Lookup(row, keys[j]));
      if v.Finite? {
        out := Put(out, keys[j], Cell.Num(if scale then v.v * 100.0 else v.v));
      }
      assert keys[..j + 1][..j] == keys[..j];
      j := j + 1;
    }
    assert keys[..j] == keys;
  }

  /**
   * Rescaling keeps the column order, rewrites exactly the series cells with a finite value, and
   * leaves the index column and every non-finite cell as they were.
   */
  lemma {:induction false} NormalizedCells(row: Record, keys: seq<string>, scale: bool, k: string)
    ensures Normalized(row, keys, scale).order == row.order
    ensures row.entries.Keys <= Normalized(row, keys, scale).entries.Keys
    ensures Lookup(Normalized(row, keys, scale), k) ==
      if k in keys && CellNumber(Lookup(row, k)).Finite? then Some(Cell.Num(Scaled(CellNumber(Lookup(row, k)).v, scale)))
      else Lookup(row, k)
  {
    if keys != [] {
      var init := keys[..|keys| - 1];
      var last := keys[|keys| - 1];
      NormalizedCells(row, init, scale, k);
      NormalizedCells(row, init, scale, last);
      assert keys == init + [last];
    }
  }

  /** The label and total of one row, for the imbalance check. */
  datatype Check = Check(rowLabel: string, total: real)

  /** `String(row[idx] ?? '')`. */
  function LabelOf(row: Record, idx: string, finiteText: real -> string): string {
    match Lookup(row, idx)
    case None => ""
    case Some(cell) => if cell.Num? then finiteText(cell.v) else cell.s
  }

  /** The sum of the finite series values of a row. */
  function Total(row: Record, keys: seq<string>): real {
    Sum(RowFinite(row, keys))
  }

  /** A row whose total is more than `tolerance` away from 100. */
  predicate Imbalanced(c: Check, tolerance: real) {
    var d := c.total - 100.0;
    (if d < 0.0 then -d else d) > tolerance
  }

  /** One reported row: its label ("Row" when empty) and its total; the `toFixed(1)` text is not modelled. */
  datatype Imbalance = Imbalance(rowLabel: string, total: real)

  function Report(c: Check): Imbalance {
    Imbalance(if c.rowLabel == "" then "Row" else c.rowLabel, c.total)
  }

  /** The reports of the imbalanced rows, in row order. */
  function Imbalances(checks: seq<Check>, tolerance: real): seq<Imbalance> {
    if checks == [] then []
    else (if Imbalanced(checks[0], tolerance) then [Report(checks[0])] else []) + Imbalances(checks[1..], tolerance)
  }

  /** The positions `from + i` of the imbalanced rows `checks[i]`, in row order. */
  function ImbalancedRows(checks: seq<Check>, tolerance: real, from: nat): (r: seq<nat>)
    ensures forall k :: 0 <= k < |r| ==> from <= r[k] < from + |checks|
  {
    if checks == [] then []
    else (if Imbalanced(checks[0], tolerance) then [from] else []) + ImbalancedRows(checks[1..], tolerance, from + 1)
  }

  /** The listed positions rise strictly. */
  lemma {:induction false} ImbalancedRowsAscending(checks: seq<Check>, tolerance: real, from: nat)
    ensures forall k, l :: 0 <= k < l < |ImbalancedRows(checks, tolerance, from)| ==>
      ImbalancedRows(checks, tolerance, from)[k] < ImbalancedRows(checks, tolerance, from)[l]
  {
    if checks != [] {
      ImbalancedRowsAscending(checks[1..], tolerance, from + 1);
      var rest := ImbalancedRows(checks[1..], tolerance, from + 1);
      assert forall a, b :: 0 <= a < b < |rest| ==> rest[a] < rest[b];
      var head: seq<nat> := if Imbalanced(checks[0], tolerance) then [from] else [];
      var r := head + rest;
      forall k, l | 0 <= k < l < |r|
        ensures r[k] < r[l]
      {
        assert r[l] == rest[l - |head|] && from + 1 <= rest[l - |head|];
        if k < |head| {
          assert r[k] == from;
        } else {
          assert r[k] == rest[k - |head|];
          assert rest[k - |head|] < rest[l - |head|];
        }
      }
    }
  }

  /** A position is listed exactly when its row is imbalanced. */
  lemma {:induction false} ImbalancedRowsExact(checks: seq<Check>, tolerance: real, from: nat)
    ensures forall i :: 0 <= i < |checks| ==> (from + i in ImbalancedRows(checks, tolerance, from) <==> Imbalanced(checks[i], tolerance))
  {
    if checks != [] {
      var tail := checks[1..];
      ImbalancedRowsExact(tail, tolerance, from + 1);
      var rest := ImbalancedRows(tail, tolerance, from + 1);
      forall i | 0 <= i < |checks|
        ensures from + i in ImbalancedRows(checks, tolerance, from) <==> Imbalanced(checks[i], tolerance)
      {
        if i > 0 {
          assert checks[i] == tail[i - 1];
          assert from + i == (from + 1) + (i - 1);
        } else {
          assert from !in rest;
        }
      }
    }
  }

  /** The k-th report is the report of the k-th imbalanced row. */
  lemma {:induction false} ImbalancesFollowRows(checks: seq<Check>, tolerance: real, from: nat)
    ensures var rows := ImbalancedRows(checks, tolerance, from);
      var reports := Imbalances(checks, tolerance);
      && |reports| == |rows|
      && forall k :: 0 <= k < |rows| ==> reports[k] == Report(checks[rows[k] - from])
  {
    if checks != [] {
      var tail := checks[1..];
      ImbalancesFollowRows(tail, tolerance, from + 1);
      var rest := ImbalancedRows(tail, tolerance, from + 1);
      var head := if Imbalanced(checks[0], tolerance) then 1 else 0;
      var rows := ImbalancedRows(checks, tolerance, from);
      var reports := Imbalances(checks, tolerance);
      forall k | 0 <= k < |rows|
        ensures reports[k] == Report(checks[rows[k] - from])
      {
        if k >= head {
          assert rows[k] == rest[k - head];
          assert checks[rows[k] - from] == tail[rest[k - head] - (from + 1)];
        }
      }
    }
  }

  /**
   * The reports follow the rows: one report per imbalanced row, in row order, each row reported
   * once, and no other row.
   */
  lemma ImbalancesInRowOrder(checks: seq<Check>, tolerance: real)
    ensures var rows := ImbalancedRows(checks, tolerance, 0);
      var reports := Imbalances(checks, tolerance);
      && |reports| == |rows|
      && (forall k :: 0 <= k < |rows| ==> rows[k] < |checks| && reports[k] == Report(checks[rows[k]]))
      && (forall k, l :: 0 <= k < l < |rows| ==> rows[k] < rows[l])
      && (forall i :: 0 <= i < |checks| ==> (i in rows <==> Imbalanced(checks[i], tolerance)))
  {
    ImbalancesFollowRows(checks, tolerance, 0);
    ImbalancedRowsAscending(checks, tolerance, 0);
    ImbalancedRowsExact(checks, tolerance, 0);
  }

  /** A row is reported exactly when it is imbalanced, and every report comes from such a row. */
  lemma {:induction false} ImbalancesReportRows(checks: seq<Check>, tolerance: real)
    ensures forall i :: 0 <= i < |checks| ==> (Report(checks[i]) in Imbalances(checks, tolerance) <==> Imbalanced(checks[i], tolerance))
    ensures forall m :: m in Imbalances(checks, tolerance) ==>
      exists i :: 0 <= i < |checks| && m == Report(checks[i]) && Imbalanced(checks[i], tolerance)
  {
    if checks != [] {
      ImbalancesReportRows(checks[1..], tolerance);
      var rest := Imbalances(checks[1..], tolerance);
      forall i | 0 <= i < |checks|
        ensures Report(checks[i]) in Imbalances(checks, tolerance) <==> Imbalanced(checks[i], tolerance)
      {
        if Report(checks[i]) in Imbalances(checks, tolerance) {
          if Imbalanced(checks[0], tolerance) && Report(checks[i]) == Report(checks[0]) {
            assert checks[i].total == checks[0].total;
          } else {
            assert Report(checks[i]) in rest;
            var j :| 0 <= j < |checks[1..]| && Report(checks[i]) == Report(checks[1..][j]) && Imbalanced(checks[1..][j], tolerance);
          }
        }
        if i > 0 {
          assert checks[i] == checks[1..][i - 1];
        }
      }
      forall m | m in Imbalances(checks, tolerance)
        ensures exists i :: 0 <= i < |checks| && m == Report(checks[i]) && Imbalanced(checks[i], tolerance)
      {
        if m in rest {
          var j :| 0 <= j < |checks[1..]| && m == Report(checks[1..][j]) && Imbalanced(checks[1..][j], tolerance);
          assert checks[1..][j] == checks[j + 1];
        } else {
          assert m == Report(checks[0]);
        }
      }
    }
  }

  /** A header that mentions "big" in any letter case. */
  predicate MentionsBig(k: string) {
    Contains(LowerAscii(k), "big")
  }

  /** The sort column: the first series key mentioning "big", else the last series key. */
  function BigKey(keys: seq<string>): (r: string)
    ensures forall i :: (0 <= i < |keys| && MentionsBig(keys[i]) && forall j :: 0 <= j < i ==> !MentionsBig(keys[j])) ==>
      r == keys[i]
    ensures (keys != [] && forall i :: 0 <= i < |keys| ==> !MentionsBig(keys[i])) ==> r == keys[|keys| - 1]
    ensures keys == [] ==> r == "undefined"
  {
    match FindIndex(keys, MentionsBig)
    case Some(i) => keys[i]
    // With no series keys `keys[0]` is undefined, and `row[undefined]` reads the property "undefined".
    case None => if keys == [] then "undefined" else keys[|keys| - 1]
  }

  /** The result of the preparation. */
  datatype Prepared = Prepared(data: seq<Record>, idxKey: string, seriesKeys: seq<string>, imbalances: seq<Imbalance>)

  /** Every raw row after rescaling. */
  function NormalizedRows(raw: seq<Record>, keys: seq<string>, scale: bool): (rows: seq<Record>)
    ensures |rows| == |raw| && forall i :: 0 <= i < |raw| ==> rows[i] == Normalized(raw[i], keys, scale)
  {
    seq(|raw|, i requires 0 <= i < |raw| => Normalized(raw[i], keys, scale))
  }

  /** The values the sort compares: each row's `Number(row[bigKey])`. */
  function SortKeys(rows: seq<Record>, big: string): (ks: seq<Number>)
    ensures |ks| == |rows| && forall i :: 0 <= i < |rows| ==> ks[i] == CellNumber(Lookup(rows[i], big))
  {
    seq(|rows|, i requires 0 <= i < |rows| => CellNumber(Lookup(rows[i], big)))
  }

  /** The per-row label and total the imbalance check reads. */
  function Checks(rows: seq<Record>, idx: string, keys: seq<string>, finiteText: real -> string): (cs: seq<Check>)
    ensures |cs| == |rows|
    ensures forall i :: 0 <= i < |rows| ==> cs[i] == Check(LabelOf(rows[i], idx, finiteText), Total(rows[i], keys))
  {
    seq(|rows|, i requires 0 <= i < |rows| => Check(LabelOf(rows[i], idx, finiteText), Total(rows[i], keys)))
  }

  /** The preparation after rescaling: the imbalance reports and the sorted rows. */
  function Arrange(normalized: seq<Record>, idx: string, keys: seq<string>, tolerance: real, finiteText: real -> string): Prepared {
    var ks := SortKeys(normalized, BigKey(keys));
    Prepared(Pick(normalized, SortPositions(ks, |ks|)), idx, keys, Imbalances(Checks(normalized, idx, keys, finiteText), tolerance))
  }

  /** The `useMemo` transform; `tolerance` is the `tolerancePct` prop (2 by default). */
  function Preparation(raw: seq<Record>, tolerance: real, finiteText: real -> string): Prepared {
    if raw == [] then Prepared([], "district", [], [])
    else
      var allKeys := OwnKeys(raw[0].order);
      var idx := IndexKey(allKeys);
      var keys := SeriesKeys(allKeys, idx);
      var scale := ScaleToPercent(MaxOf(AllFinite(raw, keys)));
      Arrange(NormalizedRows(raw, keys, scale), idx, keys, tolerance, finiteText)
  }

  const DefaultTolerance: real := 2.0

  /** The preparation as the component runs it: the scan for the largest value, then the row loop. */
  method Prepare(raw: seq<Record>, tolerance: real, finiteText: real -> string) returns (p: Prepared)
    ensures p == Preparation(raw, tolerance, finiteText)
  {
    if |raw| == 0 {
      return Prepared([], "district", [], []);
    }
    var allKeys := OwnKeys(raw[0].order);
    var idx := IndexKey(allKeys);
    var keys := SeriesKeys(allKeys, idx);
    var maxVal := LargestSeriesValue(raw, keys);
    var normalized := NormalizeRows(raw, keys, ScaleToPercent(maxVal));
    p := Arrange(normalized, idx, keys, tolerance, finiteText);
  }

  /** `raw.map(...)` with the rescaling loop for each row. */
  method NormalizeRows(raw: seq<Record>, keys: seq<string>, scale: bool) returns (normalized: seq<Record>)
    ensures normalized == NormalizedRows(raw, keys, scale)
  {
    normalized := [];
    var i := 0;
    while i < |raw|
      invariant i <= |raw|
      invariant normalized == NormalizedRows(raw[..i], keys, scale)
    {
      var out := NormalizeRow(raw[i], keys, scale);
      NormalizedRowsStep(raw, keys, scale, i);
      normalized := normalized + [out];
      i := i + 1;
    }
    assert raw[..i] == raw;
  }

  lemma {:induction false} NormalizedRowsStep(raw: seq<Record>, keys: seq<string>, scale: bool, i: nat)
    requires i < |raw|
    ensures NormalizedRows(raw[..i + 1], keys, scale) == NormalizedRows(raw[..i], keys, scale) + [Normalized(raw[i], keys, scale)]
  {
  }

  /** Without rows there is nothing to prepare: no data, "district" as index column, no series, no reports. */
  lemma {:induction false} EmptyPreparation(tolerance: real, finiteText: real -> string)
    ensures Preparation([], tolerance, finiteText) == Prepared([], "district", [], [])
  {
  }

  /**
   * The arranged data holds every rescaled row exactly once, ordered by the "big" column: rows
   * without a finite value first, then finite values from largest to smallest, ties in input order.
   */
  lemma {:induction false} ArrangedOrder(normalized: seq<Record>, idx: string, keys: seq<string>, tolerance: real, finiteText: real -> string, p: nat, q: nat)
    requires p < q < |normalized|
    ensures var data := Arrange(normalized, idx, keys, tolerance, finiteText).data;
      var a := CellNumber(Lookup(data[p], BigKey(keys)));
      var b := CellNumber(Lookup(data[q], BigKey(keys)));
      |data| == |normalized| &&
      multiset(data) == multiset(normalized) &&
      (a.Finite? && b.Finite? ==> a.v >= b.v) &&
      (!b.Finite? ==> !a.Finite?) &&
      (Tied(a, b) ==> exists i, j :: 0 <= i < j < |normalized| && data[p] == normalized[i] && data[q] == normalized[j])
  {
    var ks := SortKeys(normalized, BigKey(keys));
    var positions := SortPositions(ks, |ks|);
    var data := Pick(normalized, positions);
    SortedIsPermutation(normalized, ks, |ks|);
    assert normalized[..|ks|] == normalized;
    SortedOrder(ks, p, q);
    assert data[p] == normalized[positions[p]];
    assert data[q] == normalized[positions[q]];
  }

  /** The prepared data has one row per raw row. */
  lemma {:induction false} PreparedLength(raw: seq<Record>, tolerance: real, finiteText: real -> string)
    ensures |Preparation(raw, tolerance, finiteText).data| == |raw|
  {
  }

  // ---------------------------------------------------------------------------------------------
  // Rendering

  /** What the component shows: a status message (muted or error) or the chart. */
  datatype View = StatusView(message: string, isError: bool) | ChartView

  function StatusOf(st: LoadState, prep: Prepared): View {
    if st.loading then StatusView("Loading chart...", false)
    else if st.error.Some? && st.error.value != "" then StatusView("Error: " + st.error.value, true)
    else if |prep.data| == 0 then StatusView("No data available", false)
    else if |prep.seriesKeys| == 0 then
      var columns := if |st.raw| > 0 then Join(OwnKeys(st.raw[0].order), ", ") else "—";
      StatusView("No chartable series found. Columns available: " + columns, false)
    else ChartView
  }

  /** An error message that is not empty. */
  predicate HasError(st: LoadState) {
    st.error.Some? && st.error.value != ""
  }

  /**
   * Loading wins over an error, an error over missing data, missing data over missing series; the
   * chart is drawn exactly when none of them holds.
   */
  lemma {:induction false} StatusPrecedence(st: LoadState, prep: Prepared)
    requires |prep.data| == |st.raw|
    ensures var v := StatusOf(st, prep);
      (st.loading ==> v == StatusView("Loading chart...", false)) &&
      (v.StatusView? && v.isError <==> !st.loading && HasError(st)) &&
      (v == StatusView("No data available", false) <==> !st.loading && !HasError(st) && st.raw == []) &&
      (v == ChartView <==> !st.loading && !HasError(st) && st.raw != [] && prep.seriesKeys != [])
  {
  }

  /** After a failed load the error is what the component shows. */
  lemma {:induction false} FailedLoadShowsError(st: LoadState, outcome: LoadOutcome, parse: Parser, tolerance: real, finiteText: real -> string)
    requires outcome.Threw? || !outcome.response.ok
    ensures var after := FinishLoad(st, false, outcome, parse);
      StatusOf(after, Preparation(after.raw, tolerance, finiteText)) == StatusView("Error: " + FailureMessage(outcome), true)
  {
    FailureMessageNonEmpty(outcome);
  }

  /** The four series colours, cycled by series position. */
  const Palette: seq<string> := ["#2B3C63", "#0FA77E", "#F36D52", "#6B7280"]
  const BigColor: string := "#2B3C63"

  /** No key after position `p` and before `n` repeats the key at `p`. */
  predicate LastBefore(keys: seq<string>, p: nat, n: nat)
    requires p < n <= |keys|
  {
    forall j :: p < j < n ==> keys[j] != keys[p]
  }

  /** The colour map: series key at position `i` gets `Palette[i % 4]` (a repeated key keeps its last colour). */
  method BuildColorMap(keys: seq<string>) returns (m: map<string, string>)
    ensures forall k :: k in m <==> k in keys
    ensures forall i :: 0 <= i < |keys| && LastBefore(keys, i, |keys|) ==> m[keys[i]] == Palette[i % 4]
  {
    m := map[];
    var i := 0;
    while i < |keys|
      invariant i <= |keys|
      invariant forall k :: k in m <==> k in keys[..i]
      invariant forall p :: 0 <= p < i && LastBefore(keys, p, i) ==> keys[p] in m && m[keys[p]] == Palette[p % 4]
    {
      var key := keys[i];
      var m' := m[key := Palette[i % 4]];
      assert keys[..i + 1] == keys[..i] + [key];
      forall p | 0 <= p < i + 1 && LastBefore(keys, p, i + 1)
        ensures keys[p] in m' && m'[keys[p]] == Palette[p % 4]
      {
        if p < i {
          assert LastBefore(keys, p, i);
          assert keys[i] != keys[p];
        }
      }
      m := m';
      i := i + 1;
    }
    assert keys[..i] == keys;
  }

  /** A series' bar colour: its entry in the map, or the "big" colour. */
  function BarColor(colors: map<string, string>, id: string): (c: string)
    ensures id in colors ==> c == colors[id]
    ensures id !in colors ==> c == BigColor
  {
    if id in colors then colors[id] else BigColor
  }

  /** The bar label: empty for non-finite values and values up to 5, else the rounded value and '%'. */
  function BarLabel(n: Number): string {
    if !n.Finite? || n.v <= 5.0 then "" else NatText(Round(n.v)) + "%"
  }

  /** A label appears only on segments above 5, and it reads back as the value to within one half. */
  lemma {:induction false} BarLabelMeaning(n: Number)
    ensures BarLabel(n) == "" <==> !n.Finite? || n.v <= 5.0
    ensures BarLabel(n) != "" ==>
      var digits := BarLabel(n)[..|BarLabel(n)| - 1];
      BarLabel(n)[|BarLabel(n)| - 1] == '%' &&
      (forall k :: 0 <= k < |digits| ==> IsDigit(digits[k])) &&
      n.v - 0.5 < DigitsValue(digits) as real <= n.v + 0.5
  {
    if n.Finite? && n.v > 5.0 {
      var t := NatText(Round(n.v));
      assert BarLabel(n)[..|BarLabel(n)| - 1] == t;
      NatTextValue(Round(n.v));
    }
  }

  /** The tooltip value: the rounded value, or '-' when it is not finite. */
  function TooltipValue(n: Number): string {
    if n.Finite? then IntText(Round(n.v)) else "-"
  }

  /**
   * The tooltip shows '-' exactly for a value that is not finite; otherwise an optional minus sign
   * and digits whose signed value lies within one half of the value.
   */
  lemma {:induction false} TooltipValueMeaning(n: Number)
    ensures TooltipValue(n) == "-" <==> !n.Finite?
    ensures n.Finite? && n.v >= 0.0 ==> n.v - 0.5 < DigitsValue(TooltipValue(n)) as real <= n.v + 0.5
    ensures n.Finite? && Round(n.v) < 0 ==>
      var t := TooltipValue(n);
      && t[0] == '-' && (forall k :: 1 <= k < |t| ==> IsDigit(t[k]))
      && n.v - 0.5 < -(DigitsValue(t[1..]) as real) <= n.v + 0.5
    ensures n.Finite? && n.v < 0.0 && Round(n.v) == 0 ==> TooltipValue(n) == "0"
  {
    if n.Finite? {
      IntTextValue(Round(n.v));
      if Round(n.v) == 0 {
        assert NatText(0) == "0";
      }
    }
  }
}
