/**
 * The row order of src/components/charts/BarStacked.tsx: `Array.prototype.sort` (stable) with a
 * comparator on the numeric value of the "big" column. Both finite: larger first. Exactly one
 * finite: the comparator returns -1 when only `b` is finite, so the row WITHOUT a finite value
 * goes first. Neither finite: tied.
 *
 * A stable sort under a consistent comparator has exactly one result, so the model sorts the row
 * positions by insertion, and the rows are then read in that order.
 */
module BarStackedSort {
  import opened Js

  /** The comparator returns a negative number: `a` goes before `b`. */
  predicate Ahead(a: Number, b: Number) {
    (a.Finite? && b.Finite? && b.v - a.v < 0.0) || (!a.Finite? && b.Finite?)
  }

  /** Neither value goes before the other: a stable sort keeps their input order. */
  predicate Tied(a: Number, b: Number) {
    !Ahead(a, b) && !Ahead(b, a)
  }

  /** Row `i` precedes row `j` in the sorted output. */
  predicate Precedes(ks: seq<Number>, i: nat, j: nat)
    requires i < |ks| && j < |ks|
  {
    Ahead(ks[i], ks[j]) || (Tied(ks[i], ks[j]) && i < j)
  }

  lemma {:induction false} PrecedesTransitive(ks: seq<Number>, i: nat, j: nat, k: nat)
    requires i < |ks| && j < |ks| && k < |ks|
    requires Precedes(ks, i, j) && Precedes(ks, j, k)
    ensures Precedes(ks, i, k)
  {
  }

  lemma {:induction false} PrecedesTotal(ks: seq<Number>, i: nat, j: nat)
    requires i < |ks| && j < |ks| && i != j
    ensures Precedes(ks, i, j) != Precedes(ks, j, i)
  {
  }

  /** Every position precedes every later one. */
  predicate InOrder(ks: seq<Number>, idx: seq<nat>) {
    (forall p :: 0 <= p < |idx| ==> idx[p] < |ks|) &&
    forall p, q :: 0 <= p < q < |idx| ==> Precedes(ks, idx[p], idx[q])
  }

  /** Insert row `x` before the first row it goes ahead of. */
  function Insert(ks: seq<Number>, x: nat, l: seq<nat>): (r: seq<nat>)
    requires x < |ks|
    requires forall p :: 0 <= p < |l| ==> l[p] < x
    ensures multiset(r) == multiset(l) + multiset{x}
    ensures |r| == |l| + 1
    ensures forall p :: 0 <= p < |r| ==> r[p] <= x
  {
    if l == [] then [x]
    else if Ahead(ks[x], ks[l[0]]) then [x] + l
    else
      assert l == [l[0]] + l[1..];
      [l[0]] + Insert(ks, x, l[1..])
  }

  /** The positions `0 .. n-1` in sorted order. */
  function SortPositions(ks: seq<Number>, n: nat): (r: seq<nat>)
    requires n <= |ks|
    ensures |r| == n
    ensures forall p :: 0 <= p < n ==> r[p] < n
  {
    if n == 0 then [] else Insert(ks, n - 1, SortPositions(ks, n - 1))
  }

  /** The positions `0 .. n-1`. */
  function Range(n: nat): (r: seq<nat>)
    ensures |r| == n && forall i :: 0 <= i < n ==> r[i] == i
  {
    seq(n, i requires 0 <= i < n => i)
  }

  /** Inserting a row later than all of `l` keeps the order. */
  lemma {:induction false} InsertInOrder(ks: seq<Number>, x: nat, l: seq<nat>)
    requires x < |ks| && InOrder(ks, l)
    requires forall p :: 0 <= p < |l| ==> l[p] < x
    ensures InOrder(ks, Insert(ks, x, l))
  {
    if l != [] {
      if Ahead(ks[x], ks[l[0]]) {
        InsertAtFront(ks, x, l);
      } else {
        var tail := l[1..];
        TailInOrder(ks, l);
        InsertInOrder(ks, x, tail);
        InsertBehind(ks, x, l);
      }
    }
  }

  lemma {:induction false} TailInOrder(ks: seq<Number>, l: seq<nat>)
    requires l != [] && InOrder(ks, l)
    ensures InOrder(ks, l[1..])
  {
    var tail := l[1..];
    forall p, q | 0 <= p < q < |tail|
      ensures Precedes(ks, tail[p], tail[q])
    {
      assert tail[p] == l[p + 1] && tail[q] == l[q + 1];
    }
  }

  /** `x` goes ahead of the first row, hence (by transitivity) of all of them. */
  lemma {:induction false} InsertAtFront(ks: seq<Number>, x: nat, l: seq<nat>)
    requires x < |ks| && InOrder(ks, l) && l != [] && Ahead(ks[x], ks[l[0]])
    requires forall p :: 0 <= p < |l| ==> l[p] < x
    ensures InOrder(ks, Insert(ks, x, l))
  {
    var r := Insert(ks, x, l);
    assert r == [x] + l;
    forall p, q | 0 <= p < q < |r|
      ensures Precedes(ks, r[p], r[q])
    {
      if p == 0 {
        if q > 1 {
          assert Precedes(ks, l[0], l[q - 1]);
          PrecedesTransitive(ks, x, l[0], l[q - 1]);
        }
      } else {
        assert r[p] == l[p - 1] && r[q] == l[q - 1];
      }
    }
  }

  /** `x` is not ahead of the first row and comes later, so the first row stays first. */
  lemma {:induction false} InsertBehind(ks: seq<Number>, x: nat, l: seq<nat>)
    requires x < |ks| && InOrder(ks, l) && l != [] && !Ahead(ks[x], ks[l[0]])
    requires forall p :: 0 <= p < |l| ==> l[p] < x
    requires InOrder(ks, Insert(ks, x, l[1..]))
    ensures InOrder(ks, Insert(ks, x, l))
  {
    var tail := l[1..];
    var rest := Insert(ks, x, tail);
    var r := Insert(ks, x, l);
    assert r == [l[0]] + rest;
    assert Precedes(ks, l[0], x);
    forall p | 0 <= p < |rest|
      ensures Precedes(ks, l[0], rest[p])
    {
      assert rest[p] in multiset(rest);
      if rest[p] != x {
        assert rest[p] in multiset(tail);
        var t :| 0 <= t < |tail| && tail[t] == rest[p];
        assert Precedes(ks, l[0], l[t + 1]);
      }
    }
    forall p, q | 0 <= p < q < |r|
      ensures Precedes(ks, r[p], r[q])
    {
      if p > 0 {
        assert r[p] == rest[p - 1] && r[q] == rest[q - 1];
      } else {
        assert r[q] == rest[q - 1];
      }
    }
  }

  /** The sorted positions are a permutation of `0 .. n-1`. */
  lemma {:induction false} SortPositionsPermutation(ks: seq<Number>, n: nat)
    requires n <= |ks|
    ensures multiset(SortPositions(ks, n)) == multiset(Range(n))
  {
    if n > 0 {
      SortPositionsPermutation(ks, n - 1);
      RangeSplit(n);
    }
  }

  lemma {:induction false} RangeSplit(n: nat)
    requires n > 0
    ensures multiset(Range(n)) == multiset(Range(n - 1)) + multiset{(n - 1) as nat}
  {
    assert Range(n) == Range(n - 1) + [n - 1];
  }

  /** The sorted positions follow the comparator, ties by position. */
  lemma {:induction false} SortPositionsInOrder(ks: seq<Number>, n: nat)
    requires n <= |ks|
    ensures InOrder(ks, SortPositions(ks, n))
  {
    if n > 0 {
      SortPositionsInOrder(ks, n - 1);
      InsertInOrder(ks, n - 1, SortPositions(ks, n - 1));
    }
  }

  /** The permutation has no repeated position, so each row appears exactly once. */
  lemma {:induction false} SortPositionsDistinct(ks: seq<Number>, n: nat, p: nat, q: nat)
    requires n <= |ks| && p < q < n
    ensures SortPositions(ks, n)[p] != SortPositions(ks, n)[q]
  {
    SortPositionsInOrder(ks, n);
    var r := SortPositions(ks, n);
    assert Precedes(ks, r[p], r[q]);
  }

  /** What the comparator promises about any two rows of the output. */
  lemma {:induction false} SortedOrder(ks: seq<Number>, p: nat, q: nat)
    requires p < q < |ks|
    ensures var r := SortPositions(ks, |ks|);
      var a := ks[r[p]];
      var b := ks[r[q]];
      (a.Finite? && b.Finite? ==> a.v >= b.v) &&
      (!b.Finite? ==> !a.Finite?) &&
      (Tied(a, b) ==> r[p] < r[q])
  {
    SortPositionsInOrder(ks, |ks|);
    var r := SortPositions(ks, |ks|);
    assert Precedes(ks, r[p], r[q]);
  }

  /** The items at the given positions, in that order. */
  function Pick<T>(xs: seq<T>, idx: seq<nat>): (r: seq<T>)
    requires forall p :: 0 <= p < |idx| ==> idx[p] < |xs|
    ensures |r| == |idx|
  {
    seq(|idx|, p requires 0 <= p < |idx| => xs[idx[p]])
  }

  lemma {:induction false} PickInsert<T>(xs: seq<T>, ks: seq<Number>, x: nat, l: seq<nat>)
    requires |xs| == |ks| && x < |ks| && forall p :: 0 <= p < |l| ==> l[p] < x
    ensures multiset(Pick(xs, Insert(ks, x, l))) == multiset(Pick(xs, l)) + multiset{xs[x]}
  {
    if l == [] {
      assert Pick(xs, Insert(ks, x, l)) == [xs[x]];
    } else if Ahead(ks[x], ks[l[0]]) {
      PickCons(xs, x, l);
    } else {
      PickInsert(xs, ks, x, l[1..]);
      PickInsertBehind(xs, ks, x, l);
    }
  }

  lemma {:induction false} PickInsertBehind<T>(xs: seq<T>, ks: seq<Number>, x: nat, l: seq<nat>)
    requires |xs| == |ks| && x < |ks| && forall p :: 0 <= p < |l| ==> l[p] < x
    requires l != [] && !Ahead(ks[x], ks[l[0]])
    requires multiset(Pick(xs, Insert(ks, x, l[1..]))) == multiset(Pick(xs, l[1..])) + multiset{xs[x]}
    ensures multiset(Pick(xs, Insert(ks, x, l))) == multiset(Pick(xs, l)) + multiset{xs[x]}
  {
    var rest := Insert(ks, x, l[1..]);
    InsertKeepsHead(ks, x, l);
    PickCons(xs, l[0], rest);
    PickHead(xs, l);
    UnionRegroup(multiset{xs[l[0]]}, multiset(Pick(xs, l[1..])), multiset{xs[x]});
  }

  /** The first position's item, then the rest. */
  lemma {:induction false} PickHead<T>(xs: seq<T>, idx: seq<nat>)
    requires idx != [] && forall p :: 0 <= p < |idx| ==> idx[p] < |xs|
    ensures multiset(Pick(xs, idx)) == multiset{xs[idx[0]]} + multiset(Pick(xs, idx[1..]))
  {
    assert Pick(xs, idx) == [xs[idx[0]]] + Pick(xs, idx[1..]);
  }

  lemma {:induction false} InsertKeepsHead(ks: seq<Number>, x: nat, l: seq<nat>)
    requires x < |ks| && forall p :: 0 <= p < |l| ==> l[p] < x
    requires l != [] && !Ahead(ks[x], ks[l[0]])
    ensures Insert(ks, x, l) == [l[0]] + Insert(ks, x, l[1..])
  {
  }

  lemma {:induction false} UnionRegroup<T>(a: multiset<T>, b: multiset<T>, c: multiset<T>)
    ensures a + (b + c) == (a + b) + c
  {
  }

  lemma {:induction false} PickCons<T>(xs: seq<T>, y: nat, idx: seq<nat>)
    requires y < |xs| && forall p :: 0 <= p < |idx| ==> idx[p] < |xs|
    ensures multiset(Pick(xs, [y] + idx)) == multiset{xs[y]} + multiset(Pick(xs, idx))
  {
    assert Pick(xs, [y] + idx) == [xs[y]] + Pick(xs, idx);
  }

  /** Reading the rows in sorted order gives back every row exactly as often as it occurs. */
  lemma {:induction false} SortedIsPermutation<T>(xs: seq<T>, ks: seq<Number>, n: nat)
    requires |xs| == |ks| && n <= |ks|
    ensures multiset(Pick(xs, SortPositions(ks, n))) == multiset(xs[..n])
  {
    if n == 0 {
      assert xs[..n] == [];
    } else {
      SortedIsPermutation(xs, ks, n - 1);
      var l := SortPositions(ks, n - 1);
      assert SortPositions(ks, n) == Insert(ks, n - 1, l);
      InsertPermutation(xs, ks, n, l);
    }
  }

  /** Inserting row `n-1` into a permutation of the first `n-1` rows gives one of the first `n`. */
  lemma {:induction false} InsertPermutation<T>(xs: seq<T>, ks: seq<Number>, n: nat, l: seq<nat>)
    requires |xs| == |ks| && 0 < n <= |ks|
    requires forall p :: 0 <= p < |l| ==> l[p] < n - 1
    requires multiset(Pick(xs, l)) == multiset(xs[..n - 1])
    ensures multiset(Pick(xs, Insert(ks, n - 1, l))) == multiset(xs[..n])
  {
    PickInsert(xs, ks, n - 1, l);
    PrefixMultiset(xs, n);
  }

  lemma {:induction false} PrefixMultiset<T>(xs: seq<T>, n: nat)
    requires 0 < n <= |xs|
    ensures multiset(xs[..n]) == multiset(xs[..n - 1]) + multiset{xs[n - 1]}
  {
    assert xs[..n] == xs[..n - 1] + [xs[n - 1]];
  }
}
