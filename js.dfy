/**
 * The small part of JavaScript's value and string semantics that the site's code relies on:
 * numbers with their non-finite values, loosely typed cell values, truthiness, `trim`,
 * `replace(/c/g, '')`, `toLowerCase` on ASCII, `startsWith`, `endsWith`, `includes` and `String(v)`.
 */
module Js {
  import opened Wrappers

  /** A JavaScript number: finite values are exact reals; NaN and the two infinities are kept apart. */
  datatype Number = Finite(v: real) | NaN | PosInf | NegInf

  /** A value read from a parsed row or a JSON body. */
  datatype Value = Undefined | Null | Num(n: Number) | Str(s: string) | Bool(b: bool)

  /** `v == null` (loose equality: both `null` and `undefined`). */
  predicate IsNullish(v: Value) {
    v.Undefined? || v.Null?
  }

  /** A parsed row: an object from column name to cell. */
  type Row = map<string, Value>

  /** `row[key]`: a missing property reads as `undefined`. */
  function Get(row: Row, key: string): Value {
    if key in row then row[key] else Undefined
  }

  /** Truthiness of an optional string: `undefined` and `''` are falsy. */
  predicate Truthy(s: Option<string>) {
    s.Some? && s.value != ""
  }

  /** `a || b` on optional strings. */
  function Or(a: Option<string>, b: Option<string>): (r: Option<string>)
    ensures Truthy(a) ==> r == a
    ensures !Truthy(a) ==> r == b
  {
    if Truthy(a) then a else b
  }

  predicate IsLineTerminator(c: char) {
    c == '\n' || c == '\r' || c == '\U{2028}' || c == '\U{2029}'
  }

  /** The characters `String.prototype.trim` removes: WhiteSpace and LineTerminator. */
  predicate IsSpace(c: char) {
    c == '\t' || c == '\U{000B}' || c == '\U{000C}' || c == ' ' || c == '\U{00A0}' || c == '\U{FEFF}'
    || c == '\U{1680}' || ('\U{2000}' <= c <= '\U{200A}') || c == '\U{202F}' || c == '\U{205F}'
    || c == '\U{3000}' || IsLineTerminator(c)
  }

  /** `s.trimStart()`. */
  function TrimStart(s: string): (r: string)
    ensures |r| <= |s| && r == s[|s| - |r|..]
    ensures forall i :: 0 <= i < |s| - |r| ==> IsSpace(s[i])
    ensures r == [] || !IsSpace(r[0])
  {
    if s != [] && IsSpace(s[0]) then TrimStart(s[1..]) else s
  }

  /** `s.trimEnd()`. */
  function TrimEnd(s: string): (r: string)
    ensures |r| <= |s| && r == s[..|r|]
    ensures forall i :: |r| <= i < |s| ==> IsSpace(s[i])
    ensures r == [] || !IsSpace(r[|r| - 1])
  {
    if s != [] && IsSpace(s[|s| - 1]) then TrimEnd(s[..|s| - 1]) else s
  }

  /** `s.trim()`: the text between the leading and the trailing whitespace. */
  function Trim(s: string): (r: string)
    ensures r == [] || (!IsSpace(r[0]) && !IsSpace(r[|r| - 1]))
    ensures r == [] <==> forall i :: 0 <= i < |s| ==> IsSpace(s[i])
  {
    var t := TrimStart(s);
    var r := TrimEnd(t);
    assert r == [] ==> t == [];
    r
  }

  /** Trimming only removes characters: one absent from `s` is absent from `s.trim()`. */
  lemma {:induction false} TrimLacks(s: string, c: char)
    requires c !in s
    ensures c !in Trim(s)
  {
    var t := TrimStart(s);
    var r := TrimEnd(t);
    SliceLacks(s, c, |s| - |t|, |s|);
    SliceLacks(t, c, 0, |r|);
  }

  lemma {:induction false} SliceLacks(s: string, c: char, i: nat, j: nat)
    requires i <= j <= |s| && c !in s
    ensures c !in s[i..j]
  {
  }

  /** `s.replace(/c/g, '')`. */
  function Without(s: string, c: char): (r: string)
    ensures |r| <= |s|
    ensures forall x :: x in r <==> x in s && x != c
  {
    if s == [] then [] else (if s[0] == c then [] else [s[0]]) + Without(s[1..], c)
  }

  /** Removing a character from two joined strings removes it from each. */
  lemma {:induction false} WithoutConcat(a: string, b: string, c: char)
    ensures Without(a + b, c) == Without(a, c) + Without(b, c)
  {
    if a != [] {
      WithoutConcat(a[1..], b, c);
      assert (a + b)[1..] == a[1..] + b;
    } else {
      assert a + b == b;
    }
  }

  /** Removing a character that does not occur changes nothing. */
  lemma {:induction false} WithoutAbsent(s: string, c: char)
    requires c !in s
    ensures Without(s, c) == s
  {
    if s != [] {
      WithoutAbsent(s[1..], c);
    }
  }

  /** Trimming text wrapped in whitespace gives the text back when it neither starts nor ends with a blank. */
  lemma {:induction false} TrimAround(pre: string, t: string, post: string)
    requires forall i :: 0 <= i < |pre| ==> IsSpace(pre[i])
    requires forall i :: 0 <= i < |post| ==> IsSpace(post[i])
    requires t != [] && !IsSpace(t[0]) && !IsSpace(t[|t| - 1])
    ensures Trim(pre + t + post) == t
  {
    TrimStartBlanks(pre, t + post);
    assert pre + t + post == pre + (t + post);
    TrimEndBlanks(t, post);
  }

  lemma {:induction false} TrimStartBlanks(pre: string, s: string)
    requires forall i :: 0 <= i < |pre| ==> IsSpace(pre[i])
    requires s != [] && !IsSpace(s[0])
    ensures TrimStart(pre + s) == s
  {
    if pre != [] {
      TrimStartBlanks(pre[1..], s);
      assert (pre + s)[1..] == pre[1..] + s;
    } else {
      assert pre + s == s;
    }
  }

  lemma {:induction false} TrimEndBlanks(s: string, post: string)
    requires forall i :: 0 <= i < |post| ==> IsSpace(post[i])
    requires s != [] && !IsSpace(s[|s| - 1])
    ensures TrimEnd(s + post) == s
  {
    if post != [] {
      var shorter := post[..|post| - 1];
      TrimEndBlanks(s, shorter);
      assert (s + post)[..|s + post| - 1] == s + shorter;
    } else {
      assert s + post == s;
    }
  }

  /** `s.toLowerCase()` for the ASCII letters (other characters unchanged). */
  function LowerAscii(s: string): (r: string)
    ensures |r| == |s|
    ensures forall i :: 0 <= i < |s| ==> r[i] == LowerChar(s[i])
  {
    if s == [] then [] else [LowerChar(s[0])] + LowerAscii(s[1..])
  }

  function LowerChar(c: char): char {
    if 'A' <= c <= 'Z' then (c as int + 32) as char else c
  }

  predicate StartsWith(s: string, prefix: string) {
    |prefix| <= |s| && s[..|prefix|] == prefix
  }

  predicate EndsWith(s: string, suffix: string) {
    |suffix| <= |s| && s[|s| - |suffix|..] == suffix
  }

  /** `s.includes(part)`. */
  predicate Contains(s: string, part: string)
    decreases |s|
  {
    StartsWith(s, part) || (s != [] && Contains(s[1..], part))
  }

  /** `parts.join(sep)`. */
  function Join(parts: seq<string>, sep: string): string {
    if parts == [] then "" else if |parts| == 1 then parts[0] else parts[0] + sep + Join(parts[1..], sep)
  }

  /** Number of occurrences of `c` in `s`. */
  function Count(s: string, c: char): (n: nat)
    ensures n <= |s|
  {
    if s == [] then 0 else (if s[0] == c then 1 else 0) + Count(s[1..], c)
  }

  /**
   * `String(n)`. Producing the shortest round-tripping decimal text of a finite number is left
   * to the caller's `finiteText`; the non-finite values have their fixed spellings.
   */
  function NumberText(n: Number, finiteText: real -> string): string {
    if n.Finite? then finiteText(n.v) else NonFiniteText(n)
  }

  /** The fixed spellings of `NaN`, `Infinity` and `-Infinity`. */
  function NonFiniteText(n: Number): string
    requires !n.Finite?
  {
    match n
    case NaN => "NaN"
    case PosInf => "Infinity"
    case NegInf => "-Infinity"
  }

  /** `String(v)`. */
  function ToText(v: Value, finiteText: real -> string): string {
    match v
    case Undefined => "undefined"
    case Null => "null"
    case Num(n) => NumberText(n, finiteText)
    case Str(s) => s
    case Bool(b) => BoolText(b)
  }

  /** `String(b)` for a boolean. */
  function BoolText(b: bool): string {
    if b then "true" else "false"
  }
}
