/**
 * The loading half of src/components/charts/BarStacked.tsx: choosing between the TSV and the
 * CSV parser from the first line of the text, and cleaning each parsed row into a record whose
 * keys are normalised headers and whose cells are numbers where the text holds one.
 *
 * The CSV/TSV parsers themselves are outside the model; a parsed row is given as its list of
 * (header, cell text) columns in column order, from which the parser builds the row object by
 * assigning each column in turn. The cleaning loop visits that object's `Object.entries`, so
 * headers that are array indices come first.
 */
module BarStackedParse {
  import opened Wrappers
  import opened Js
  import opened JsNumber
  import opened Seqs
  import opened Objects

  /** The text up to (not including) the first line feed, or all of it when there is none. */
  function FirstLine(text: string): (r: string)
    ensures r <= text
    ensures forall i :: 0 <= i < |r| ==> r[i] != '\n'
    ensures |r| < |text| ==> text[|r|] == '\n'
  {
    if text == [] || text[0] == '\n' then [] else [text[0]] + FirstLine(text[1..])
  }

  /** `s.split(c)` for a one-character separator. */
  function Split(s: string, c: char): (r: seq<string>)
    ensures |r| >= 1
  {
    if s == [] then [""]
    else if s[0] == c then [""] + Split(s[1..], c)
    else
      var rest := Split(s[1..], c);
      [[s[0]] + rest[0]] + rest[1..]
  }

  /** Splitting gives one piece more than there are separators. */
  lemma {:induction false} SplitLength(s: string, c: char)
    ensures |Split(s, c)| == Count(s, c) + 1
  {
    if s != [] {
      SplitLength(s[1..], c);
    }
  }

  /** Joining the pieces with the separator gives the text back. */
  lemma {:induction false} SplitJoin(s: string, c: char)
    ensures Join(Split(s, c), [c]) == s
  {
    if s != [] {
      SplitJoin(s[1..], c);
      var rest := Split(s[1..], c);
      if s[0] == c {
        assert Split(s, c)[1..] == rest;
      } else {
        assert Split(s, c)[1..] == rest[1..];
        if |rest| > 1 {
          assert Join(rest, [c]) == rest[0] + [c] + Join(rest[1..], [c]);
        }
      }
    }
  }

  datatype Delimiter = Tab | Comma

  /** TSV only when the first line has more tab-separated pieces than comma-separated ones. */
  function ChooseDelimiter(text: string): Delimiter {
    var line := FirstLine(text);
    if |Split(line, '\t')| > |Split(line, ',')| then Tab else Comma
  }

  /** The choice compares the separator counts of the first line; a tie goes to CSV. */
  lemma {:induction false} DelimiterByCount(text: string)
    ensures ChooseDelimiter(text) == Tab <==> Count(FirstLine(text), '\t') > Count(FirstLine(text), ',')
  {
    SplitLength(FirstLine(text), '\t');
    SplitLength(FirstLine(text), ',');
  }

  /** A header with every U+FEFF removed, then trimmed. */
  function NormalizeKey(key: string): string {
    Trim(Without(key, '\U{FEFF}'))
  }

  /** A normalised header holds no U+FEFF and neither starts nor ends with whitespace. */
  lemma {:induction false} NormalizeKeyClean(key: string)
    ensures var r := NormalizeKey(key);
      '\U{FEFF}' !in r && (r == [] || (!IsSpace(r[0]) && !IsSpace(r[|r| - 1])))
  {
    TrimLacks(Without(key, '\U{FEFF}'), '\U{FEFF}');
  }

  /** The characters of `s` that are digits, '.', '+' or '-', in order. */
  function KeepNumeral(s: string): (r: string)
    ensures |r| <= |s|
    ensures forall i :: 0 <= i < |r| ==> IsNumeralChar(r[i])
  {
    if s == [] then [] else (if IsNumeralChar(s[0]) then [s[0]] else []) + KeepNumeral(s[1..])
  }

  /** The cell text cleaning: drop NBSP, trim, drop '%' and ',', drop everything outside [0-9.+-]. */
  function CleanText(val: string): string {
    KeepNumeral(Without(Without(Trim(Without(val, '\U{00A0}')), '%'), ','))
  }

  /** A cleaned cell: a finite number when the cleaned text is one, otherwise the original text. */
  datatype Cell = Num(v: real) | Text(s: string)

  function ClassifyCell(val: string): Cell {
    var cleaned := CleanText(val);
    var n := ToNumber(cleaned);
    if n.Finite? && cleaned != "" then Cell.Num(n.v) else Text(val)
  }

  /** A cell is a number exactly when its cleaned text is a non-empty finite numeral; otherwise it keeps its text. */
  lemma {:induction false} ClassifyCellCases(val: string)
    ensures ClassifyCell(val).Num? <==> CleanText(val) != "" && ToNumber(CleanText(val)).Finite?
    ensures ClassifyCell(val).Num? ==> Finite(ClassifyCell(val).v) == ToNumber(CleanText(val))
    ensures ClassifyCell(val).Text? ==> ClassifyCell(val).s == val
  {
  }

  lemma {:induction false} KeepNumeralAppend(a: string, b: string)
    ensures KeepNumeral(a + b) == KeepNumeral(a) + KeepNumeral(b)
  {
    if a != [] {
      assert (a + b)[1..] == a[1..] + b;
      KeepNumeralAppend(a[1..], b);
    } else {
      assert a + b == b;
    }
  }

  lemma {:induction false} KeepNumeralOfNone(s: string)
    requires forall i :: 0 <= i < |s| ==> !IsNumeralChar(s[i])
    ensures KeepNumeral(s) == []
  {
    if s != [] {
      KeepNumeralOfNone(s[1..]);
    }
  }

  lemma {:induction false} KeepNumeralWithout(s: string, c: char)
    requires !IsNumeralChar(c)
    ensures KeepNumeral(Without(s, c)) == KeepNumeral(s)
  {
    if s != [] {
      KeepNumeralWithout(s[1..], c);
      KeepNumeralAppend(if s[0] == c then [] else [s[0]], Without(s[1..], c));
    }
  }

  lemma {:induction false} KeepNumeralTrimStart(s: string)
    ensures KeepNumeral(TrimStart(s)) == KeepNumeral(s)
  {
    var t := TrimStart(s);
    var lead := s[..|s| - |t|];
    assert s == lead + t;
    KeepNumeralOfNone(lead);
    KeepNumeralAppend(lead, t);
  }

  lemma {:induction false} KeepNumeralTrimEnd(t: string)
    ensures KeepNumeral(TrimEnd(t)) == KeepNumeral(t)
  {
    var u := TrimEnd(t);
    var trail := t[|u|..];
    assert t == u + trail;
    KeepNumeralOfNone(trail);
    KeepNumeralAppend(u, trail);
  }

  lemma {:induction false} KeepNumeralTrim(s: string)
    ensures KeepNumeral(Trim(s)) == KeepNumeral(s)
  {
    KeepNumeralTrimStart(s);
    KeepNumeralTrimEnd(TrimStart(s));
  }

  /** Cleaning keeps exactly the digits, dots and signs of the cell text. */
  lemma {:induction false} CleanTextKeepsNumerals(val: string)
    ensures CleanText(val) == KeepNumeral(val)
  {
    var a := Without(val, '\U{00A0}');
    KeepNumeralWithout(val, '\U{00A0}');
    KeepNumeralTrim(a);
    KeepNumeralWithout(Trim(a), '%');
    KeepNumeralWithout(Without(Trim(a), '%'), ',');
  }

  /** A cleaned cell is never an infinity, so the finiteness test only rules out NaN. */
  lemma {:induction false} CleanCellNeverInfinite(val: string)
    ensures ToNumber(CleanText(val)) != PosInf && ToNumber(CleanText(val)) != NegInf
  {
    NumeralTextIsNeverInfinite(CleanText(val));
  }

  /** A cell of plain digits becomes that number; so does one with a '%' sign or thousands separators. */
  lemma {:induction false} DigitCellIsNumber(val: string, d: string)
    requires d != [] && forall i :: 0 <= i < |d| ==> IsDigit(d[i])
    requires KeepNumeral(val) == d
    ensures ClassifyCell(val) == Cell.Num(DigitsValue(d) as real)
  {
    CleanTextKeepsNumerals(val);
    DigitsConvert(d);
  }

  /** A cleaned row: normalised headers, created in the order the loop meets them, each with its cell. */
  type Record = Object<string, Cell>

  /** The (normalised header, cleaned cell) pair of each entry; a blank header is skipped. */
  function CleanPairs(entries: seq<(string, string)>): (r: seq<(string, Cell)>)
    ensures |r| == |entries|
    ensures forall i :: 0 <= i < |entries| ==> r[i] == (NormalizeKey(entries[i].0), ClassifyCell(entries[i].1))
  {
    seq(|entries|, i requires 0 <= i < |entries| => (NormalizeKey(entries[i].0), ClassifyCell(entries[i].1)))
  }

  /** The row as the cleaning loop leaves it. */
  function Cleaned(entries: seq<(string, string)>): Record {
    Assign(CleanPairs(entries), Some(""))
  }

  /** The cleaning loop over one parsed row. */
  method CleanRow(entries: seq<(string, string)>) returns (r: Record)
    ensures r == Cleaned(entries)
  {
    r := Empty();
    var i := 0;
    while i < |entries|
      invariant i <= |entries|
      invariant r == Assign(CleanPairs(entries)[..i], Some(""))
    {
      var key := NormalizeKey(entries[i].0);
      CleanStep(entries, r, i);
      if key != "" {
        r := Put(r, key, ClassifyCell(entries[i].1));
      }
      i := i + 1;
    }
    assert CleanPairs(entries)[..i] == CleanPairs(entries);
  }

  /** One pass of the cleaning loop assigns the next pair, unless its header is blank. */
  lemma {:induction false} CleanStep(entries: seq<(string, string)>, r: Record, i: nat)
    requires i < |entries| && r == Assign(CleanPairs(entries)[..i], Some(""))
    ensures Assign(CleanPairs(entries)[..i + 1], Some("")) ==
      if NormalizeKey(entries[i].0) == "" then r else Put(r, NormalizeKey(entries[i].0), ClassifyCell(entries[i].1))
  {
    AssignStep(CleanPairs(entries), Some(""), i);
  }

  /** The normalised header of each entry, in column order. */
  function Headers(entries: seq<(string, string)>): (r: seq<string>)
    ensures |r| == |entries|
  {
    seq(|entries|, i requires 0 <= i < |entries| => NormalizeKey(entries[i].0))
  }

  /** The record lists the non-empty normalised headers once each, in first-occurrence order. */
  lemma {:induction false} CleanedOrder(entries: seq<(string, string)>)
    ensures WellFormed(Cleaned(entries))
    ensures Cleaned(entries).order == FirstOccurrences(Headers(entries), Some(""))
    ensures forall k :: k in Cleaned(entries).order <==> k != "" && k in Headers(entries)
  {
    AssignOrder(CleanPairs(entries), Some(""));
    assert Keys(CleanPairs(entries)) == Headers(entries);
  }

  /** A header holds the cleaned cell of the last entry whose header normalises to it. */
  lemma {:induction false} CleanedCell(entries: seq<(string, string)>, i: nat)
    requires i < |entries| && NormalizeKey(entries[i].0) != ""
    requires forall j :: i < j < |entries| ==> NormalizeKey(entries[j].0) != NormalizeKey(entries[i].0)
    ensures Lookup(Cleaned(entries), NormalizeKey(entries[i].0)) == Some(ClassifyCell(entries[i].1))
  {
    AssignLastWins(CleanPairs(entries), Some(""), i);
  }

  /** The row object the parser builds from the columns: a later column with the same header overwrites. */
  function RowObject(columns: seq<(string, string)>): (d: Object<string, string>)
    ensures WellFormed(d)
  {
    AssignOrder(columns, None);
    FromEntries(columns)
  }

  /** `Object.entries(d)` of the parsed row: what the cleaning loop visits. */
  function ParsedEntries(columns: seq<(string, string)>): seq<(string, string)> {
    EntryList(RowObject(columns))
  }

  /** The cleaned record of one parsed row. */
  function CleanedRow(columns: seq<(string, string)>): Record {
    Cleaned(ParsedEntries(columns))
  }

  /**
   * `Object.keys` of a cleaned row lists each non-blank normalised header once, and no other key:
   * those that are array indices first, by ascending value, then the others in the order the loop
   * first met them.
   */
  lemma {:induction false} CleanedKeys(columns: seq<(string, string)>)
    ensures var entries := ParsedEntries(columns);
      var keys := OwnKeys(CleanedRow(columns).order);
      var created := FirstOccurrences(Headers(entries), Some(""));
      var n := |Filter(created, IsArrayIndex)|;
      && Distinct(keys)
      && (forall k :: k in keys <==> k != "" && exists i :: 0 <= i < |entries| && NormalizeKey(entries[i].0) == k)
      && n <= |keys|
      && (forall i :: 0 <= i < n ==> IsArrayIndex(keys[i]))
      && (forall i, j :: 0 <= i < j < n ==> IndexRank(keys[i]) <= IndexRank(keys[j]))
      && keys[n..] == Filter(created, NotArrayIndex)
  {
    var entries := ParsedEntries(columns);
    CleanedOrder(entries);
    var created := FirstOccurrences(Headers(entries), Some(""));
    OwnKeysOrder(created);
    OwnKeysSameKeys(created);
    var hs := Headers(entries);
    forall k
      ensures k in hs <==> exists i :: 0 <= i < |entries| && NormalizeKey(entries[i].0) == k
    {
      if k in hs {
        var i :| 0 <= i < |hs| && hs[i] == k;
        assert NormalizeKey(entries[i].0) == k;
      }
      if exists i :: 0 <= i < |entries| && NormalizeKey(entries[i].0) == k {
        var i :| 0 <= i < |entries| && NormalizeKey(entries[i].0) == k;
        assert hs[i] == k;
      }
    }
  }
}
