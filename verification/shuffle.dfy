/** The Fisher–Yates shuffle. The same loop appears in five places of the
    program (the state utilities, the app state, and three mini-games); it
    is defined once here. Each call of `Math.random()` is an element of a
    draw sequence, a real in [0, 1). */
module Shuffle {

  /** Every draw is a value `Math.random()` can return. */
  predicate ValidDraws(rs: seq<real>)
  {
    forall k :: 0 <= k < |rs| ==> 0.0 <= rs[k] < 1.0
  }

  /** The number of draws a shuffle of `n` items consumes: one per index
      from n-1 down to 1. */
  function DrawsNeeded(n: nat): nat
  {
    if n <= 1 then 0 else n - 1
  }

  /** `Math.floor(r * n)`: an index in [0, n). */
  function Pick(r: real, n: nat): (j: nat)
    requires 0.0 <= r < 1.0 && n > 0
    ensures j < n
  {
    PickBound(r, n);
    (r * n as real).Floor
  }

  lemma PickBound(r: real, n: nat)
    requires 0.0 <= r < 1.0 && n > 0
    ensures 0.0 <= r * n as real < n as real
  {
    assert r * n as real <= 1.0 * n as real - (1.0 - r) * n as real;
  }

  /** The array-destructuring swap `[a[i], a[j]] = [a[j], a[i]]`. */
  function Swap<T>(a: seq<T>, i: nat, j: nat): (b: seq<T>)
    requires i < |a| && j < |a|
    ensures |b| == |a|
    ensures b[i] == a[j] && b[j] == a[i]
    ensures forall k :: 0 <= k < |a| && k != i && k != j ==> b[k] == a[k]
  {
    a[i := a[j]][j := a[i]]
  }

  lemma SwapPermutes<T>(a: seq<T>, i: nat, j: nat)
    requires i < |a| && j < |a|
    ensures multiset(Swap(a, i, j)) == multiset(a)
  {
    var b := a[i := a[j]];
    assert multiset(b) == multiset(a) - multiset{a[i]} + multiset{a[j]};
  }

  /** The loop body run for index i, then for i-1, ..., down to 1,
      consuming one draw per index. */
  function ShuffleFrom<T>(a: seq<T>, i: nat, rs: seq<real>): (r: seq<T>)
    requires i < |a| && i <= |rs| && ValidDraws(rs)
    ensures |r| == |a|
    ensures multiset(r) == multiset(a)
    decreases i
  {
    if i == 0 then a
    else
      var j := Pick(rs[0], i + 1);
      SwapPermutes(a, i, j);
      ShuffleFrom(Swap(a, i, j), i - 1, rs[1..])
  }

  /** `shuffle(arr)`: copy the input, then swap from the last index down. */
  function FisherYates<T>(a: seq<T>, rs: seq<real>): (r: seq<T>)
    requires |rs| >= DrawsNeeded(|a|) && ValidDraws(rs)
    ensures |r| == |a|
    ensures multiset(r) == multiset(a)
    ensures |a| <= 1 ==> r == a
  {
    if |a| == 0 then a else ShuffleFrom(a, |a| - 1, rs)
  }

  /** Every element of a shuffle comes from the input, and every input
      element is in the shuffle. */
  lemma SameElements<T>(a: seq<T>, rs: seq<real>, x: T)
    requires |rs| >= DrawsNeeded(|a|) && ValidDraws(rs)
    ensures x in FisherYates(a, rs) <==> x in a
  {
    var r := FisherYates(a, rs);
    assert x in r <==> x in multiset(r);
    assert x in a <==> x in multiset(a);
  }

  /** Apply `f` to every element: used to look at one field of a shuffled record. */
  function MapSeq<T, U>(f: T -> U, a: seq<T>): (b: seq<U>)
    ensures |b| == |a|
    ensures forall k :: 0 <= k < |a| ==> b[k] == f(a[k])
  {
    if a == [] then [] else [f(a[0])] + MapSeq(f, a[1..])
  }

  /** Shuffling preserves the multiset of every projection of the elements,
      so a field's value counts are the same before and after. */
  lemma {:induction false} ShufflePreservesProjection<T, U>(f: T -> U, a: seq<T>, i: nat, rs: seq<real>)
    requires i < |a| && i <= |rs| && ValidDraws(rs)
    ensures multiset(MapSeq(f, ShuffleFrom(a, i, rs))) == multiset(MapSeq(f, a))
    decreases i
  {
    if i > 0 {
      var j := Pick(rs[0], i + 1);
      var b := Swap(a, i, j);
      ShufflePreservesProjection(f, b, i - 1, rs[1..]);
      SwapKeepsProjection(f, a, i, j);
    }
  }

  /** A swap keeps the multiset of every projection. */
  lemma SwapKeepsProjection<T, U>(f: T -> U, a: seq<T>, i: nat, j: nat)
    requires i < |a| && j < |a|
    ensures multiset(MapSeq(f, Swap(a, i, j))) == multiset(MapSeq(f, a))
  {
    MapSwap(f, a, i, j);
    SwapPermutes(MapSeq(f, a), i, j);
  }

  /** Projecting after a swap is swapping after the projection. */
  lemma MapSwap<T, U>(f: T -> U, a: seq<T>, i: nat, j: nat)
    requires i < |a| && j < |a|
    ensures MapSeq(f, Swap(a, i, j)) == Swap(MapSeq(f, a), i, j)
  {
    var l := MapSeq(f, Swap(a, i, j));
    var r := Swap(MapSeq(f, a), i, j);
    forall k | 0 <= k < |a| ensures l[k] == r[k] {
    }
  }

  lemma FisherYatesPreservesProjection<T, U>(f: T -> U, a: seq<T>, rs: seq<real>)
    requires |rs| >= DrawsNeeded(|a|) && ValidDraws(rs)
    ensures multiset(MapSeq(f, FisherYates(a, rs))) == multiset(MapSeq(f, a))
  {
    if |a| > 0 {
      ShufflePreservesProjection(f, a, |a| - 1, rs);
      assert FisherYates(a, rs) == ShuffleFrom(a, |a| - 1, rs);
    } else {
      assert FisherYates(a, rs) == a;
    }
  }

  /** No element occurs twice. */
  predicate Distinct<T(==)>(a: seq<T>)
  {
    forall i, j :: 0 <= i < j < |a| ==> a[i] != a[j]
  }

  lemma DistinctCount<T>(a: seq<T>, x: T)
    requires Distinct(a)
    ensures multiset(a)[x] <= 1
  {
    if a != [] {
      DistinctCount(a[1..], x);
      assert a == [a[0]] + a[1..];
      assert a[0] !in a[1..] by {
        forall k | 0 <= k < |a[1..]| ensures a[1..][k] != a[0] {
          assert a[1..][k] == a[k + 1];
        }
      }
    }
  }

  lemma RepeatCounts<T>(a: seq<T>, i: nat, j: nat)
    requires i < j < |a|
    ensures a[i] == a[j] ==> multiset(a)[a[i]] >= 2
  {
    assert a == a[..j] + a[j..];
    assert a[i] in a[..j];
    assert a[j] in a[j..];
    assert multiset(a) == multiset(a[..j]) + multiset(a[j..]);
  }

  lemma CountDistinct<T>(a: seq<T>)
    requires forall x :: multiset(a)[x] <= 1
    ensures Distinct(a)
  {
    forall i, j | 0 <= i < j < |a| ensures a[i] != a[j] {
      RepeatCounts(a, i, j);
    }
  }

  /** A shuffle of an input without repeats has no repeats. */
  lemma FisherYatesKeepsDistinct<T>(a: seq<T>, rs: seq<real>)
    requires |rs| >= DrawsNeeded(|a|) && ValidDraws(rs)
    requires Distinct(a)
    ensures Distinct(FisherYates(a, rs))
  {
    var r := FisherYates(a, rs);
    forall x ensures multiset(r)[x] <= 1 {
      DistinctCount(a, x);
    }
    CountDistinct(r);
  }

  /** The first n elements of a shuffle of a repeat-free input are n
      different elements of the input. */
  lemma FisherYatesPrefix<T>(a: seq<T>, rs: seq<real>, n: nat)
    requires |rs| >= DrawsNeeded(|a|) && ValidDraws(rs)
    requires Distinct(a) && n <= |a|
    ensures Distinct(FisherYates(a, rs)[..n])
    ensures forall k :: 0 <= k < n ==> FisherYates(a, rs)[..n][k] in a
  {
    var r := FisherYates(a, rs);
    FisherYatesKeepsDistinct(a, rs);
    forall k | 0 <= k < n ensures r[..n][k] in a {
      SameElements(a, rs, r[k]);
    }
  }
}
