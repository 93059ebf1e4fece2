/** Sums over sequences and over the values of a map. */
module Aggregates {

  function Sum(xs: seq<int>): int
  {
    if xs == [] then 0 else Sum(xs[..|xs| - 1]) + xs[|xs| - 1]
  }

  lemma {:induction false} SumConcat(xs: seq<int>, ys: seq<int>)
    ensures Sum(xs + ys) == Sum(xs) + Sum(ys)
  {
    if ys == [] {
      assert xs + ys == xs;
    } else {
      var y, init := ys[|ys| - 1], ys[..|ys| - 1];
      assert (xs + ys)[..|xs + ys| - 1] == xs + init;
      SumConcat(xs, init);
    }
  }

  lemma SumSnoc(xs: seq<int>, x: int)
    ensures Sum(xs + [x]) == Sum(xs) + x
  {
    assert (xs + [x])[..|xs|] == xs;
  }

  lemma SumOfPrefix(xs: seq<int>, k: nat)
    requires k < |xs|
    ensures Sum(xs[..k + 1]) == Sum(xs[..k]) + xs[k]
  {
    assert xs[..k + 1][..k] == xs[..k];
  }

  /** The last element of xs, found and taken out of a rearrangement of xs. */
  lemma TakeOut<T>(xs: seq<T>, ys: seq<T>) returns (left: seq<T>, right: seq<T>)
    requires multiset(xs) == multiset(ys) && xs != []
    ensures ys == left + [xs[|xs| - 1]] + right
    ensures multiset(xs[..|xs| - 1]) == multiset(left + right)
  {
    var x, init := xs[|xs| - 1], xs[..|xs| - 1];
    assert xs == init + [x];
    assert x in multiset(ys);
    var k :| 0 <= k < |ys| && ys[k] == x;
    left, right := ys[..k], ys[k + 1..];
    assert ys == left + [x] + right;
    assert multiset(xs) == multiset(init) + multiset{x};
    assert multiset(ys) == multiset(left) + multiset{x} + multiset(right);
    assert multiset(left + right) == multiset(left) + multiset(right);
    assert multiset(init) == multiset(xs) - multiset{x};
  }

  /** A sum depends on the elements and not on their order. */
  lemma {:induction false} SumOfPermutation(xs: seq<int>, ys: seq<int>)
    requires multiset(xs) == multiset(ys)
    ensures Sum(xs) == Sum(ys)
    decreases |xs|
  {
    if xs == [] {
      assert |multiset(ys)| == |ys|;
    } else {
      var x, init := xs[|xs| - 1], xs[..|xs| - 1];
      var left, right := TakeOut(xs, ys);
      SumOfPermutation(init, left + right);
      SumConcat(left, right);
      SumConcat(left + [x], right);
      SumSnoc(left, x);
    }
  }

  lemma SumUpdate(xs: seq<int>, i: nat, v: int)
    requires i < |xs|
    ensures Sum(xs[i := v]) == Sum(xs) - xs[i] + v
  {
    var left, right := xs[..i], xs[i + 1..];
    assert xs == left + [xs[i]] + right && xs[i := v] == left + [v] + right;
    SumConcat(left + [xs[i]], right);
    SumConcat(left + [v], right);
    SumSnoc(left, xs[i]);
    SumSnoc(left, v);
  }

  function Map<T, U>(f: T -> U, xs: seq<T>): seq<U> {
    seq(|xs|, i requires 0 <= i < |xs| => f(xs[i]))
  }

  lemma MapConcat<T, U>(f: T -> U, xs: seq<T>, ys: seq<T>)
    ensures Map(f, xs + ys) == Map(f, xs) + Map(f, ys)
    ensures multiset(Map(f, xs + ys)) == multiset(Map(f, xs)) + multiset(Map(f, ys))
  {
    assert Map(f, xs + ys) == Map(f, xs) + Map(f, ys);
  }

  /** Mapping a function over a rearranged sequence gives the rearranged results. */
  lemma {:induction false} MapOfPermutation<T, U>(f: T -> U, xs: seq<T>, ys: seq<T>)
    requires multiset(xs) == multiset(ys)
    ensures multiset(Map(f, xs)) == multiset(Map(f, ys))
    decreases |xs|
  {
    if xs == [] {
      assert |multiset(ys)| == |ys|;
    } else {
      var x, init := xs[|xs| - 1], xs[..|xs| - 1];
      var left, right := TakeOut(xs, ys);
      MapOfPermutation(f, init, left + right);
      assert xs == init + [x];
      MapConcat(f, init, [x]);
      MapConcat(f, left + [x], right);
      MapConcat(f, left, [x]);
      MapConcat(f, left, right);
    }
  }

  ghost predicate NoDuplicates<T>(xs: seq<T>) {
    forall i, j :: 0 <= i < j < |xs| ==> xs[i] != xs[j]
  }

  lemma {:induction false} NoDuplicatesMultiplicity<T>(xs: seq<T>)
    ensures NoDuplicates(xs) <==> forall x :: x in multiset(xs) ==> multiset(xs)[x] == 1
  {
    if xs != [] {
      var x, init := xs[|xs| - 1], xs[..|xs| - 1];
      assert xs == init + [x];
      NoDuplicatesMultiplicity(init);
      assert multiset(xs) == multiset(init) + multiset{x};
      if NoDuplicates(xs) {
        assert NoDuplicates(init) && x !in init;
      } else if NoDuplicates(init) {
        assert x in init;
        assert multiset(xs)[x] == multiset(init)[x] + 1;
      } else {
        var y :| y in multiset(init) && multiset(init)[y] != 1;
        assert multiset(xs)[y] >= multiset(init)[y] > 1;
      }
    }
  }

  lemma {:induction false} SumNonNegative(xs: seq<int>)
    requires forall i :: 0 <= i < |xs| ==> 0 <= xs[i]
    ensures 0 <= Sum(xs)
  {
    if xs != [] { SumNonNegative(xs[..|xs| - 1]); }
  }

  /** The sum of the values of a map, taken in whatever order. */
  ghost function MapSum<K>(m: map<K, int>): int
  {
    if m == map[] then 0 else
      var k :| k in m;
      m[k] + MapSum(m - {k})
  }

  lemma {:induction false} MapSumRemove<K>(m: map<K, int>, k: K)
    requires k in m
    ensures MapSum(m) == m[k] + MapSum(m - {k})
    decreases |m|
  {
    var j :| j in m && MapSum(m) == m[j] + MapSum(m - {j});
    if j != k {
      MapSumRemove(m - {j}, k);
      MapSumRemove(m - {k}, j);
      assert (m - {j}) - {k} == (m - {k}) - {j};
    }
  }

  /** Storing v under k moves the sum by v minus what k held before. */
  lemma MapSumUpdate<K>(m: map<K, int>, k: K, v: int)
    ensures MapSum(m[k := v]) == MapSum(m) + v - (if k in m then m[k] else 0)
  {
    MapSumRemove(m[k := v], k);
    assert m[k := v] - {k} == m - {k};
    if k in m {
      MapSumRemove(m, k);
    } else {
      assert m - {k} == m;
    }
  }

  lemma {:induction false} MapSumNonNegative<K>(m: map<K, int>)
    requires forall k :: k in m ==> 0 <= m[k]
    ensures 0 <= MapSum(m)
    decreases |m|
  {
    if m != map[] {
      var k :| k in m && MapSum(m) == m[k] + MapSum(m - {k});
      MapSumNonNegative(m - {k});
    }
  }

}
