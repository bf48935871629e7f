/**
 * A JavaScript object used as a dictionary: assigning `o[k] = v` to a new key creates it after
 * the existing ones and leaves the place of an existing key unchanged. `Object.keys`,
 * `Object.entries` and `Object.fromEntries` do not list string keys in that creation order: the
 * keys that name array indices come first, by ascending value, then the others in creation order
 * (`OwnKeys`, after section 10.1.11.1 of ECMA-262, OrdinaryOwnPropertyKeys).
 */
module Objects {
  import opened Wrappers
  import opened Seqs
  import opened JsNumber

  /** The keys in creation order, and the value of each key. */
  datatype Object<K, V> = Object(order: seq<K>, entries: map<K, V>)

  function Empty<K, V>(): Object<K, V> {
    Object([], map[])
  }

  /** Every key is listed once, and the listed keys are exactly the keys holding a value. */
  ghost predicate WellFormed<K(!new), V>(o: Object<K, V>) {
    Distinct(o.order) && forall k :: k in o.entries <==> k in o.order
  }

  /** `o[k] = v`. */
  function Put<K(==,!new), V>(o: Object<K, V>, k: K, v: V): (r: Object<K, V>)
    ensures WellFormed(o) ==> WellFormed(r)
    ensures r.entries == o.entries[k := v]
    ensures k in o.entries ==> r.order == o.order
    ensures k !in o.entries ==> r.order == o.order + [k]
  {
    if k in o.entries then o.(entries := o.entries[k := v]) else Object(o.order + [k], o.entries[k := v])
  }

  /** `o[k]`, absent for a key the object does not hold. */
  function Lookup<K, V>(o: Object<K, V>, k: K): Option<V>
  {
    if k in o.entries then Some(o.entries[k]) else None
  }

  /** The object built by assigning the pairs in order, skipping those whose key is `skip`. */
  function Assign<K(==,!new), V>(pairs: seq<(K, V)>, skip: Option<K>): Object<K, V>
  {
    if pairs == [] then Empty()
    else
      var o := Assign(pairs[..|pairs| - 1], skip);
      var p := pairs[|pairs| - 1];
      if Some(p.0) == skip then o else Put(o, p.0, p.1)
  }

  /** The keys other than `skip`, each once, in order of first occurrence. */
  function FirstOccurrences<K(==,!new)>(keys: seq<K>, skip: Option<K>): (r: seq<K>)
    ensures Distinct(r)
    ensures forall k :: k in r <==> Some(k) != skip && k in keys
  {
    if keys == [] then []
    else
      var prev := FirstOccurrences(keys[..|keys| - 1], skip);
      var k := keys[|keys| - 1];
      assert keys == keys[..|keys| - 1] + [k];
      if Some(k) == skip || k in prev then prev else prev + [k]
  }

  function Keys<K, V>(pairs: seq<(K, V)>): (r: seq<K>)
    ensures |r| == |pairs|
    ensures forall i :: 0 <= i < |pairs| ==> r[i] == pairs[i].0
  {
    seq(|pairs|, i requires 0 <= i < |pairs| => pairs[i].0)
  }

  /** `Object.fromEntries(pairs)`. */
  function FromEntries<K(==,!new), V>(pairs: seq<(K, V)>): Object<K, V> {
    Assign(pairs, None)
  }

  /** Assigning one more pair. */
  lemma {:induction false} AssignStep<K(!new), V>(pairs: seq<(K, V)>, skip: Option<K>, i: nat)
    requires i < |pairs|
    ensures Assign(pairs[..i + 1], skip) ==
      if Some(pairs[i].0) == skip then Assign(pairs[..i], skip) else Put(Assign(pairs[..i], skip), pairs[i].0, pairs[i].1)
  {
    assert pairs[..i + 1][..i] == pairs[..i];
  }

  /** The assigned object is well formed and lists its keys in order of first assignment. */
  lemma {:induction false} AssignOrder<K(!new), V>(pairs: seq<(K, V)>, skip: Option<K>)
    ensures WellFormed(Assign(pairs, skip))
    ensures Assign(pairs, skip).order == FirstOccurrences(Keys(pairs), skip)
  {
    if pairs != [] {
      var init := pairs[..|pairs| - 1];
      AssignOrder(init, skip);
      assert Keys(pairs)[..|pairs| - 1] == Keys(init);
    }
  }

  /** A key holds the value of its last assignment. */
  lemma {:induction false} AssignLastWins<K(!new), V>(pairs: seq<(K, V)>, skip: Option<K>, i: nat)
    requires i < |pairs| && Some(pairs[i].0) != skip
    requires forall j :: i < j < |pairs| ==> pairs[j].0 != pairs[i].0
    ensures Lookup(Assign(pairs, skip), pairs[i].0) == Some(pairs[i].1)
  {
    if i < |pairs| - 1 {
      AssignLastWins(pairs[..|pairs| - 1], skip, i);
    }
  }

  // ---------------------------------------------------------------------------------------------
  // The order in which string keys are listed

  /**
   * A key that names an array index: the canonical decimal numeral ("0", or digits without a
   * leading zero) of a value below 2^32 - 1.
   */
  predicate IsArrayIndex(k: string) {
    && k != []
    && (forall i :: 0 <= i < |k| ==> IsDigit(k[i]))
    && (|k| == 1 || k[0] != '0')
    && DigitsValue(k) < 0xFFFF_FFFF
  }

  predicate NotArrayIndex(k: string) {
    !IsArrayIndex(k)
  }

  /** The value an array-index key names (0 for the keys that are never compared by value). */
  function IndexRank(k: string): nat {
    if IsArrayIndex(k) then DigitsValue(k) else 0
  }

  predicate Ascending(ks: seq<string>) {
    forall i, j :: 0 <= i < j < |ks| ==> IndexRank(ks[i]) <= IndexRank(ks[j])
  }

  /** Inserting `k` before the first key of larger or equal value. */
  function InsertByRank(k: string, ks: seq<string>): (r: seq<string>)
    ensures multiset(r) == multiset(ks) + multiset{k}
  {
    if ks == [] || IndexRank(k) <= IndexRank(ks[0]) then [k] + ks
    else
      assert ks == [ks[0]] + ks[1..];
      [ks[0]] + InsertByRank(k, ks[1..])
  }

  function SortByRank(ks: seq<string>): (r: seq<string>)
    ensures multiset(r) == multiset(ks)
  {
    if ks == [] then []
    else
      assert ks == [ks[0]] + ks[1..];
      InsertByRank(ks[0], SortByRank(ks[1..]))
  }

  lemma {:induction false} InsertAscending(k: string, ks: seq<string>)
    requires Ascending(ks)
    ensures Ascending(InsertByRank(k, ks))
  {
    if ks != [] && IndexRank(k) > IndexRank(ks[0]) {
      InsertAscending(k, ks[1..]);
      var rest := InsertByRank(k, ks[1..]);
      forall j | 0 <= j < |rest|
        ensures IndexRank(ks[0]) <= IndexRank(rest[j])
      {
        assert rest[j] in multiset(rest);
        if rest[j] != k {
          assert rest[j] in multiset(ks[1..]);
          var m :| 0 <= m < |ks[1..]| && ks[1..][m] == rest[j];
          assert ks[m + 1] == rest[j];
        }
      }
    }
  }

  lemma {:induction false} SortAscending(ks: seq<string>)
    ensures Ascending(SortByRank(ks))
  {
    if ks != [] {
      SortAscending(ks[1..]);
      InsertAscending(ks[0], SortByRank(ks[1..]));
    }
  }

  /**
   * `Object.keys` of an ordinary object whose keys were created in `order`: the array-index keys
   * by ascending value, then the other keys in creation order.
   */
  function OwnKeys(order: seq<string>): seq<string> {
    SortByRank(Filter(order, IsArrayIndex)) + Filter(order, NotArrayIndex)
  }

  /** Splitting a list into its array-index keys and the others keeps every key, as often. */
  lemma {:induction false} IndexSplit(order: seq<string>)
    ensures multiset(Filter(order, IsArrayIndex)) + multiset(Filter(order, NotArrayIndex)) == multiset(order)
  {
    if order != [] {
      var rest := order[1..];
      IndexSplit(rest);
      FilterStep(order, IsArrayIndex);
      FilterStep(order, NotArrayIndex);
      SplitStep(order, Filter(rest, IsArrayIndex), Filter(rest, NotArrayIndex), IsArrayIndex(order[0]));
    }
  }

  /**
   * The listed keys are the created keys, each as often as it was created: first the array-index
   * keys by ascending value, then the other keys in the order they were created.
   */
  lemma {:induction false} OwnKeysOrder(order: seq<string>)
    ensures var r := OwnKeys(order);
      var n := |Filter(order, IsArrayIndex)|;
      && n <= |r|
      && multiset(r) == multiset(order)
      && (Distinct(order) ==> Distinct(r))
      && (forall i :: 0 <= i < n ==> IsArrayIndex(r[i]))
      && (forall i, j :: 0 <= i < j < n ==> IndexRank(r[i]) <= IndexRank(r[j]))
      && r[n..] == Filter(order, NotArrayIndex)
  {
    var idx := Filter(order, IsArrayIndex);
    var sorted := SortByRank(idx);
    var r := OwnKeys(order);
    IndexSplit(order);
    SortAscending(idx);
    assert |sorted| == |idx| by {
      assert |multiset(sorted)| == |multiset(idx)|;
    }
    forall i | 0 <= i < |idx|
      ensures IsArrayIndex(r[i])
    {
      assert r[i] == sorted[i];
      assert sorted[i] in multiset(idx);
    }
    if Distinct(order) {
      DistinctPermutation(order, r);
    }
  }

  /** Without array-index keys, the keys are listed in creation order. */
  lemma {:induction false} OwnKeysPlain(order: seq<string>)
    requires forall k :: k in order ==> NotArrayIndex(k)
    ensures OwnKeys(order) == order
  {
    NoIndices(order);
  }

  lemma {:induction false} NoIndices(order: seq<string>)
    requires forall k :: k in order ==> NotArrayIndex(k)
    ensures Filter(order, IsArrayIndex) == []
    ensures Filter(order, NotArrayIndex) == order
  {
    if order != [] {
      var x, rest := order[0], order[1..];
      assert x in order;
      assert forall k :: k in rest ==> k in order;
      NoIndices(rest);
      assert Filter(order, IsArrayIndex) == Filter(rest, IsArrayIndex);
      assert Filter(order, NotArrayIndex) == [x] + Filter(rest, NotArrayIndex);
    }
  }

  /** The listed keys are exactly the created keys. */
  lemma {:induction false} OwnKeysSameKeys(order: seq<string>)
    ensures forall k :: k in OwnKeys(order) <==> k in order
  {
    IndexSplit(order);
    var r := OwnKeys(order);
    assert multiset(r) == multiset(order);
    forall k
      ensures k in r <==> k in order
    {
      assert k in r <==> k in multiset(r);
      assert k in order <==> k in multiset(order);
    }
  }

  /** `Object.entries(o)`: each key with its value, keys in the order `Object.keys` lists them. */
  function EntryList<V>(o: Object<string, V>): (r: seq<(string, V)>)
    requires WellFormed(o)
    ensures Keys(r) == OwnKeys(o.order)
    ensures forall i :: 0 <= i < |r| ==> r[i].0 in o.entries && r[i].1 == o.entries[r[i].0]
  {
    var ks := OwnKeys(o.order);
    OwnKeysSameKeys(o.order);
    seq(|ks|, i requires 0 <= i < |ks| => (ks[i], o.entries[ks[i]]))
  }

  /** The two year headers name array indices. */
  lemma YearsAreIndices()
    ensures IsArrayIndex("2011") && IndexRank("2011") == 2011
    ensures IsArrayIndex("2024") && IndexRank("2024") == 2024
  {
    assert "2011"[..3] == "201" && "201"[..2] == "20" && "20"[..1] == "2" && "2"[..0] == "";
    assert "2024"[..3] == "202" && "202"[..2] == "20";
    assert DigitsValue("2") == 2;
    assert DigitsValue("20") == 20;
    assert DigitsValue("201") == 201;
    assert DigitsValue("202") == 202;
  }

  lemma {:induction false} SortTwo(a: string, b: string)
    requires IndexRank(a) < IndexRank(b)
    ensures SortByRank([b, a]) == [a, b]
  {
    var none: seq<string> := [];
    assert [a][1..] == none && [b, a][1..] == [a];
    assert SortByRank([a]) == [a];
  }

  lemma {:induction false} SplitThree(w: string, a: string, b: string)
    requires !IsArrayIndex(w) && IsArrayIndex(a) && IsArrayIndex(b)
    ensures Filter([w, b, a], IsArrayIndex) == [b, a]
    ensures Filter([w, b, a], NotArrayIndex) == [w]
  {
    assert [w, b, a][1..] == [b, a] && [b, a][1..] == [a] && [a][1..] == [];
    assert Filter([a], IsArrayIndex) == [a];
    assert Filter([b, a], IsArrayIndex) == [b, a];
    assert Filter([a], NotArrayIndex) == [];
    assert Filter([b, a], NotArrayIndex) == [];
  }

  /**
   * Two array-index keys created after another key are listed before it, smaller value first:
   * with the headers `State,2024,2011`, `Object.keys` gives `2011,2024,State`.
   */
  lemma {:induction false} IndicesListedFirst(w: string, a: string, b: string)
    requires !IsArrayIndex(w) && IsArrayIndex(a) && IsArrayIndex(b) && IndexRank(a) < IndexRank(b)
    ensures OwnKeys([w, b, a]) == [a, b, w]
  {
    SplitThree(w, a, b);
    SortTwo(a, b);
  }

  /** The header row `State,2024,2011` is listed as `2011,2024,State`. */
  lemma YearsListedFirst()
    ensures OwnKeys(["State", "2024", "2011"]) == ["2011", "2024", "State"]
  {
    YearsAreIndices();
    assert !IsDigit("State"[0]);
    IndicesListedFirst("State", "2011", "2024");
  }
}
