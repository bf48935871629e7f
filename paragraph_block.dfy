/**
 * The paragraph block of src/components/article-blocks/ParagraphBlock.tsx: a paragraph's text is
 * split into plain runs and `<em>…</em>` emphasis runs by scanning, left to right, for the
 * regular expression `<em>(.*?)</em>` with the global flag.
 *
 * The regular expression is modelled directly: a match starts at an `<em>` and ends at the first
 * `</em>` after it, provided no line terminator comes between (`.` does not match one).
 */
module ParagraphBlock {
  import opened Wrappers

  const Open: string := "<em>"
  const Close: string := "</em>"

  /** `t` occurs in `s` at position `i`. */
  predicate At(s: string, i: nat, t: string) {
    i + |t| <= |s| && s[i..i + |t|] == t
  }

  /** `s.includes(t)`. */
  predicate Contains(s: string, t: string) {
    exists i: nat :: i <= |s| && At(s, i, t)
  }

  /** `<em>` at position `i`, compared character by character. */
  predicate OpenAt(s: string, i: nat) {
    i + 4 <= |s| && s[i] == '<' && s[i + 1] == 'e' && s[i + 2] == 'm' && s[i + 3] == '>'
  }

  /** `</em>` at position `i`, compared character by character. */
  predicate CloseAt(s: string, i: nat) {
    i + 5 <= |s| && s[i] == '<' && s[i + 1] == '/' && s[i + 2] == 'e' && s[i + 3] == 'm' && s[i + 4] == '>'
  }

  /** The character tests are the tag occurrences. */
  lemma TagsAt(s: string, i: nat)
    ensures OpenAt(s, i) <==> At(s, i, Open)
    ensures CloseAt(s, i) <==> At(s, i, Close)
  {
    if i + 4 <= |s| {
      var w := s[i..i + 4];
      assert w[0] == s[i] && w[1] == s[i + 1] && w[2] == s[i + 2] && w[3] == s[i + 3];
      if OpenAt(s, i) {
        assert w == [w[0], w[1], w[2], w[3]];
      }
    }
    if i + 5 <= |s| {
      var w := s[i..i + 5];
      assert w[0] == s[i] && w[1] == s[i + 1] && w[2] == s[i + 2] && w[3] == s[i + 3] && w[4] == s[i + 4];
      if CloseAt(s, i) {
        assert w == [w[0], w[1], w[2], w[3], w[4]];
      }
    }
  }

  /** The characters the regular-expression `.` does not match. */
  predicate IsLineTerminator(c: char) {
    c == '\n' || c == '\r' || c == '\U{2028}' || c == '\U{2029}'
  }

  /**
   * Where the lazy `(.*?)</em>` starting at `i` stops: the first `</em>` at or after `i`, unless a
   * line terminator comes before it.
   */
  function CloseFrom(s: string, i: nat): (r: Option<nat>)
    decreases |s| - i
    ensures r.Some? ==> i <= r.value && CloseAt(s, r.value)
  {
    if i >= |s| then None
    else if CloseAt(s, i) then Some(i)
    else if IsLineTerminator(s[i]) then None
    else CloseFrom(s, i + 1)
  }

  /**
   * The lazy match is the shortest one: nothing before its `</em>` is a line terminator or another
   * `</em>`; and when there is none, every later `</em>` has a line terminator in front of it.
   */
  lemma {:induction false} CloseFromShortest(s: string, i: nat)
    decreases |s| - i
    ensures var r := CloseFrom(s, i);
      (r.Some? ==> (forall j :: i <= j < r.value ==> !IsLineTerminator(s[j])) && (forall j :: i <= j < r.value ==> !CloseAt(s, j))) &&
      (r.None? ==> forall k: nat :: i <= k && CloseAt(s, k) ==> exists j :: i <= j < k && IsLineTerminator(s[j]))
  {
    if i < |s| && !CloseAt(s, i) && !IsLineTerminator(s[i]) {
      CloseFromShortest(s, i + 1);
    }
  }

  /** The end of the inner text of a match that starts at `start`, if one does. */
  function MatchAt(s: string, start: nat): (r: Option<nat>)
    ensures r.Some? ==> OpenAt(s, start) && start + 4 <= r.value && CloseAt(s, r.value)
  {
    if OpenAt(s, start) then CloseFrom(s, start + 4) else None
  }

  /** `emRegex.exec(s)` with `lastIndex` at `from`: the leftmost match at or after `from`, as (start, end of inner text). */
  function NextMatch(s: string, from: nat): (r: Option<(nat, nat)>)
    decreases |s| - from
    ensures r.Some? ==> from <= r.value.0 && MatchAt(s, r.value.0) == Some(r.value.1)
  {
    if from >= |s| then None
    else match MatchAt(s, from)
      case Some(k) => Some((from, k))
      case None => NextMatch(s, from + 1)
  }

  /** The match found is the leftmost one: no match starts between `from` and it, and none at all when none is found. */
  lemma {:induction false} NextMatchLeftmost(s: string, from: nat)
    decreases |s| - from
    ensures var r := NextMatch(s, from);
      (r.Some? ==> forall j :: from <= j < r.value.0 ==> MatchAt(s, j).None?) &&
      (r.None? ==> forall j :: from <= j < |s| ==> MatchAt(s, j).None?)
  {
    if from < |s| && MatchAt(s, from).None? {
      NextMatchLeftmost(s, from + 1);
    }
  }

  /** The inner text of a match, from `i` up to `k`, holds no line terminator and no `</em>`. */
  predicate InnerFree(s: string, i: nat, k: nat)
    requires k <= |s|
  {
    (forall j :: i <= j < k ==> !IsLineTerminator(s[j])) && (forall j :: i <= j < k ==> !CloseAt(s, j))
  }

  /**
   * `ms` lists matches, as (start, end of inner text), in the text from `from` on: each one an
   * `<em>`, an inner text free of line terminators and `</em>`, then a `</em>`, left to right and
   * without overlap.
   */
  predicate Ordered(s: string, from: nat, ms: seq<(nat, nat)>)
    decreases |ms|
  {
    ms == [] ||
    (from <= ms[0].0 && ms[0].0 + 4 <= ms[0].1 && ms[0].1 + 5 <= |s| &&
     OpenAt(s, ms[0].0) && CloseAt(s, ms[0].1) && InnerFree(s, ms[0].0 + 4, ms[0].1) &&
     Ordered(s, ms[0].1 + 5, ms[1..]))
  }

  /** Every match `emRegex.exec` finds from `from` on, in the order the loop meets them. */
  function Matches(s: string, from: nat): (r: seq<(nat, nat)>)
    requires from <= |s|
    decreases |s| - from
  {
    match NextMatch(s, from)
    case None => []
    case Some((start, k)) => [(start, k)] + Matches(s, k + 5)
  }

  /** The matches found are well placed, non-overlapping and each the shortest one. */
  lemma {:induction false} MatchesOrdered(s: string, from: nat)
    requires from <= |s|
    decreases |s| - from
    ensures Ordered(s, from, Matches(s, from))
  {
    match NextMatch(s, from)
    case None =>
    case Some((start, k)) =>
      MatchesOrdered(s, k + 5);
      CloseFromShortest(s, start + 4);
      var ms := Matches(s, from);
      assert ms[0] == (start, k) && ms[1..] == Matches(s, k + 5);
  }

  /** A piece of a rendered paragraph; an emphasis run remembers where its match started (its key). */
  datatype Part = Plain(text: string) | Emph(text: string, start: nat)

  /** What one match adds: the plain text since `from` when there is any, then the emphasis run. */
  function Segment(s: string, from: nat, start: nat, k: nat): seq<Part>
    requires from <= start && start + 4 <= k <= |s|
  {
    (if start > from then [Plain(s[from..start])] else []) + [Emph(s[start + 4..k], start)]
  }

  /** The parts for a list of matches: each match's segment, then the text after the last one, if any. */
  function Build(s: string, from: nat, ms: seq<(nat, nat)>): seq<Part>
    requires from <= |s| && Ordered(s, from, ms)
    decreases |ms|
  {
    if ms == [] then (if from < |s| then [Plain(s[from..])] else [])
    else Segment(s, from, ms[0].0, ms[0].1) + Build(s, ms[0].1 + 5, ms[1..])
  }

  /** The parts the loop emits for the text from `from` on. */
  function Parts(s: string, from: nat): seq<Part>
    requires from <= |s|
  {
    MatchesOrdered(s, from);
    Build(s, from, Matches(s, from))
  }

  /** After a match, the parts are its segment followed by the parts of the rest. */
  lemma PartsNext(s: string, from: nat, start: nat, k: nat)
    requires from <= |s| && NextMatch(s, from) == Some((start, k))
    ensures k + 5 <= |s| && from <= start && start + 4 <= k
    ensures Parts(s, from) == Segment(s, from, start, k) + Parts(s, k + 5)
  {
    MatchesOrdered(s, from);
    var ms := Matches(s, from);
    assert ms[0] == (start, k) && ms[1..] == Matches(s, k + 5);
  }

  /** With no match left, the parts are the remaining text, if any. */
  lemma PartsLast(s: string, from: nat)
    requires from <= |s| && NextMatch(s, from).None?
    ensures Parts(s, from) == if from < |s| then [Plain(s[from..])] else []
  {
    assert Matches(s, from) == [];
  }

  /** One pass of the loop: the parts so far, this match's segment and the parts after it make up all the parts. */
  lemma LoopStep(prev: seq<Part>, seg: seq<Part>, rest: seq<Part>, all: seq<Part>, next: seq<Part>)
    requires prev + (seg + rest) == all && next == prev + seg
    ensures next + rest == all
  {
    assert (prev + seg) + rest == prev + (seg + rest);
  }

  /** What one pass of the loop pushes, followed by the parts after the match, completes the parts so far. */
  lemma Advance(s: string, prev: seq<Part>, parts: seq<Part>, from: nat, start: nat, k: nat)
    requires from <= |s| && NextMatch(s, from) == Some((start, k))
    requires prev + Parts(s, from) == Parts(s, 0)
    requires from <= start && start + 4 <= k <= |s|
    requires parts == (if start > from then prev + [Plain(s[from..start])] else prev) + [Emph(s[start + 4..k], start)]
    ensures k + 5 <= |s|
    ensures parts + Parts(s, k + 5) == Parts(s, 0)
  {
    PartsNext(s, from, start, k);
    var seg := Segment(s, from, start, k);
    assert parts == prev + seg;
    LoopStep(prev, seg, Parts(s, k + 5), Parts(s, 0), parts);
  }

  /** The `while (emRegex.exec(...))` loop and the trailing slice. */
  method SplitEmphasis(content: string) returns (parts: seq<Part>)
    ensures parts == Parts(content, 0)
  {
    parts := [];
    var lastIndex := 0;
    var m := NextMatch(content, lastIndex);
    while m.Some?
      invariant lastIndex <= |content|
      invariant m == NextMatch(content, lastIndex)
      invariant parts + Parts(content, lastIndex) == Parts(content, 0)
      decreases |content| - lastIndex
    {
      var start := m.value.0;
      var closeAt := m.value.1;
      ghost var prev := parts;
      if start > lastIndex {
        parts := parts + [Plain(content[lastIndex..start])];
      }
      parts := parts + [Emph(content[start + 4..closeAt], start)];
      Advance(content, prev, parts, lastIndex, start, closeAt);
      lastIndex := closeAt + 5;
      m := NextMatch(content, lastIndex);
    }
    PartsLast(content, lastIndex);
    if lastIndex < |content| {
      parts := parts + [Plain(content[lastIndex..])];
    }
  }

  /** `ParagraphBlock`: nothing for empty or absent content, the whole text when it lacks either tag. */
  function Paragraph(content: Option<string>): Option<seq<Part>> {
    if content.None? || content.value == "" then None
    else if !(Contains(content.value, Open) && Contains(content.value, Close)) then Some([Plain(content.value)])
    else Some(Parts(content.value, 0))
  }

  /** The text a part stands for: an emphasis run wrapped back in its tags. */
  function PartText(p: Part): string {
    match p
    case Plain(t) => t
    case Emph(t, _) => Open + t + Close
  }

  /** The text a list of parts stands for. */
  function Rejoin(parts: seq<Part>): string {
    if parts == [] then "" else PartText(parts[0]) + Rejoin(parts[1..])
  }

  lemma {:induction false} RejoinAppend(a: seq<Part>, b: seq<Part>)
    ensures Rejoin(a + b) == Rejoin(a) + Rejoin(b)
  {
    if a != [] {
      assert (a + b)[1..] == a[1..] + b;
      RejoinAppend(a[1..], b);
    } else {
      assert a + b == b;
    }
  }

  lemma SliceSplit(s: string, i: nat, j: nat, k: nat)
    requires i <= j <= k <= |s|
    ensures s[i..k] == s[i..j] + s[j..k]
  {
  }

  /** An emphasis run wrapped back in its tags is the text of its match. */
  lemma {:induction false} EmphRoundTrip(s: string, start: nat, k: nat)
    requires start + 4 <= k && OpenAt(s, start) && CloseAt(s, k)
    ensures Rejoin([Emph(s[start + 4..k], start)]) == s[start..k + 5]
  {
    TagsAt(s, start);
    TagsAt(s, k);
    assert Rejoin([Emph(s[start + 4..k], start)]) == PartText(Emph(s[start + 4..k], start)) + Rejoin([]);
    SliceSplit(s, start, start + 4, k + 5);
    SliceSplit(s, start + 4, k, k + 5);
  }

  /** One match's parts rejoin to the text from `from` up to the end of its `</em>`. */
  lemma {:induction false} SegmentRoundTrip(s: string, from: nat, start: nat, k: nat)
    requires from <= start && start + 4 <= k && OpenAt(s, start) && CloseAt(s, k)
    ensures Rejoin(Segment(s, from, start, k)) == s[from..k + 5]
  {
    var before: seq<Part> := if start > from then [Plain(s[from..start])] else [];
    var em := [Emph(s[start + 4..k], start)];
    assert Segment(s, from, start, k) == before + em;
    RejoinAppend(before, em);
    assert Rejoin(before) == s[from..start] by {
      if start > from {
        assert Rejoin(before) == s[from..start] + Rejoin([]);
      }
    }
    EmphRoundTrip(s, start, k);
    SliceSplit(s, from, start, k + 5);
  }

  /** Rejoining the parts built from any well-placed matches gives back the text. */
  lemma {:induction false} BuildRoundTrip(s: string, from: nat, ms: seq<(nat, nat)>)
    requires from <= |s| && Ordered(s, from, ms)
    decreases |ms|
    ensures Rejoin(Build(s, from, ms)) == s[from..]
  {
    if ms == [] {
      if from < |s| {
        assert Rejoin([Plain(s[from..])]) == s[from..] + Rejoin([]);
      }
    } else {
      var start, k := ms[0].0, ms[0].1;
      var seg := Segment(s, from, start, k);
      var rest := Build(s, k + 5, ms[1..]);
      assert Build(s, from, ms) == seg + rest;
      BuildRoundTrip(s, k + 5, ms[1..]);
      SegmentRoundTrip(s, from, start, k);
      RoundTripStep(s, from, k + 5, seg, rest);
    }
  }

  lemma RoundTripStep(s: string, from: nat, mid: nat, seg: seq<Part>, rest: seq<Part>)
    requires from <= mid <= |s| && Rejoin(seg) == s[from..mid] && Rejoin(rest) == s[mid..]
    ensures Rejoin(seg + rest) == s[from..]
  {
    RejoinAppend(seg, rest);
    DropSplit(s, from, mid);
  }

  lemma DropSplit(s: string, i: nat, j: nat)
    requires i <= j <= |s|
    ensures s[i..] == s[i..j] + s[j..]
  {
  }

  /** Rejoining the parts gives back the text they were cut from. */
  lemma PartsRoundTrip(s: string)
    ensures Rejoin(Parts(s, 0)) == s
  {
    MatchesOrdered(s, 0);
    BuildRoundTrip(s, 0, Matches(s, 0));
  }

  /** The paragraph shows exactly the content: its parts rejoin to it. */
  lemma ParagraphRoundTrip(content: string)
    requires content != ""
    ensures Paragraph(Some(content)).Some?
    ensures Rejoin(Paragraph(Some(content)).value) == content
  {
    if Contains(content, Open) && Contains(content, Close) {
      PartsRoundTrip(content);
    } else {
      assert Rejoin([Plain(content)]) == content + Rejoin([]);
    }
  }

  /** A plain part is never empty; an emphasis text holds no line terminator and no `</em>`. */
  predicate PartOk(p: Part) {
    (p.Plain? ==> p.text != "") &&
    (p.Emph? ==> (forall j :: 0 <= j < |p.text| ==> !IsLineTerminator(p.text[j])) && !Contains(p.text, Close))
  }

  predicate AllOk(r: seq<Part>) {
    forall i :: 0 <= i < |r| ==> PartOk(r[i])
  }

  /** The inner text of a match holds no `</em>` and no line terminator. */
  lemma {:induction false} InnerTextOk(s: string, start: nat, k: nat)
    requires start + 4 <= k <= |s| && InnerFree(s, start + 4, k)
    ensures PartOk(Emph(s[start + 4..k], start))
  {
    var t := s[start + 4..k];
    forall j: nat | j <= |t| && At(t, j, Close)
      ensures false
    {
      TagsAt(t, j);
      assert CloseAt(s, start + 4 + j);
    }
    forall j | 0 <= j < |t|
      ensures !IsLineTerminator(t[j])
    {
      assert t[j] == s[start + 4 + j];
    }
  }

  lemma AllOkAppend(a: seq<Part>, b: seq<Part>)
    requires AllOk(a) && AllOk(b)
    ensures AllOk(a + b)
  {
    forall i | 0 <= i < |a + b|
      ensures PartOk((a + b)[i])
    {
      if i >= |a| {
        assert (a + b)[i] == b[i - |a|];
      }
    }
  }

  /** No plain part is empty; no emphasis text holds a line terminator or a `</em>`. */
  lemma {:induction false} BuildWellFormed(s: string, from: nat, ms: seq<(nat, nat)>)
    requires from <= |s| && Ordered(s, from, ms)
    decreases |ms|
    ensures AllOk(Build(s, from, ms))
  {
    if ms != [] {
      var start, k := ms[0].0, ms[0].1;
      BuildWellFormed(s, k + 5, ms[1..]);
      InnerTextOk(s, start, k);
      AllOkAppend(Segment(s, from, start, k), Build(s, k + 5, ms[1..]));
    }
  }

  /** The parts of any paragraph are well formed. */
  lemma PartsWellFormed(s: string)
    ensures AllOk(Parts(s, 0))
  {
    MatchesOrdered(s, 0);
    BuildWellFormed(s, 0, Matches(s, 0));
  }

  /** Every emphasis run of `r` starts at or after `from`. */
  predicate StartsFrom(r: seq<Part>, from: nat) {
    forall i :: 0 <= i < |r| && r[i].Emph? ==> from <= r[i].start
  }

  /** The emphasis runs of `r` start at strictly increasing positions. */
  predicate StartsIncrease(r: seq<Part>) {
    forall i, j :: 0 <= i < j < |r| && r[i].Emph? && r[j].Emph? ==> r[i].start < r[j].start
  }

  /** A segment ends with its one emphasis run. */
  lemma SegmentShape(s: string, from: nat, start: nat, k: nat)
    requires from <= start && start + 4 <= k <= |s|
    ensures var seg := Segment(s, from, start, k);
      seg[|seg| - 1] == Emph(s[start + 4..k], start) &&
      forall i :: 0 <= i < |seg| - 1 ==> seg[i].Plain?
  {
  }

  /** Joining a segment to later runs keeps both facts. */
  lemma OrderAppend(s: string, from: nat, start: nat, k: nat, rest: seq<Part>)
    requires from <= start && start + 4 <= k && k + 5 <= |s|
    requires StartsFrom(rest, k + 5) && StartsIncrease(rest)
    ensures StartsFrom(Segment(s, from, start, k) + rest, from)
    ensures StartsIncrease(Segment(s, from, start, k) + rest)
  {
    SegmentShape(s, from, start, k);
    var head := Segment(s, from, start, k);
    forall i | 0 <= i < |head + rest| && (head + rest)[i].Emph?
      ensures from <= (head + rest)[i].start
    {
      if i >= |head| {
        assert (head + rest)[i] == rest[i - |head|];
      }
    }
    forall i, j | 0 <= i < j < |head + rest| && (head + rest)[i].Emph? && (head + rest)[j].Emph?
      ensures (head + rest)[i].start < (head + rest)[j].start
    {
      if i >= |head| {
        assert (head + rest)[i] == rest[i - |head|];
        assert (head + rest)[j] == rest[j - |head|];
      } else if j >= |head| {
        assert (head + rest)[i] == head[i];
        assert (head + rest)[j] == rest[j - |head|];
      }
    }
  }

  /** The emphasis runs built from well-placed matches start in strictly increasing order. */
  lemma {:induction false} BuildStartsIncrease(s: string, from: nat, ms: seq<(nat, nat)>)
    requires from <= |s| && Ordered(s, from, ms)
    decreases |ms|
    ensures StartsFrom(Build(s, from, ms), from) && StartsIncrease(Build(s, from, ms))
  {
    if ms != [] {
      var start, k := ms[0].0, ms[0].1;
      BuildStartsIncrease(s, k + 5, ms[1..]);
      OrderAppend(s, from, start, k, Build(s, k + 5, ms[1..]));
    }
  }

  /** The emphasis runs come in strictly increasing start order, so their keys are distinct. */
  lemma EmphasisStartsIncrease(s: string)
    ensures StartsIncrease(Parts(s, 0))
  {
    MatchesOrdered(s, 0);
    BuildStartsIncrease(s, 0, Matches(s, 0));
  }

  /** Text lacking either tag holds no match, so the loop emits the whole text as one plain part. */
  lemma NoTagSinglePart(s: string)
    requires s != ""
    requires !Contains(s, Open) || !Contains(s, Close)
    ensures Parts(s, 0) == [Plain(s)]
  {
    MatchesOrdered(s, 0);
    var ms := Matches(s, 0);
    if ms != [] {
      OrderedTags(s, 0, ms);
    }
  }

  /** A match needs both tags in the text. */
  lemma OrderedTags(s: string, from: nat, ms: seq<(nat, nat)>)
    requires Ordered(s, from, ms) && ms != []
    ensures Contains(s, Open) && Contains(s, Close)
  {
    TagsAt(s, ms[0].0);
    TagsAt(s, ms[0].1);
    assert ms[0].0 <= |s| && At(s, ms[0].0, Open);
    assert ms[0].1 <= |s| && At(s, ms[0].1, Close);
  }

  /** The shortcut for text lacking a tag renders what the loop would: Paragraph always equals the scan. */
  lemma ParagraphIsScan(content: string)
    requires content != ""
    ensures Paragraph(Some(content)) == Some(Parts(content, 0))
  {
    if !(Contains(content, Open) && Contains(content, Close)) {
      NoTagSinglePart(content);
    }
  }

  /** Empty or absent content renders nothing; anything else renders a paragraph. */
  lemma ParagraphEmpty(content: Option<string>)
    ensures Paragraph(content).None? <==> content.None? || content.value == ""
  {
  }
}
