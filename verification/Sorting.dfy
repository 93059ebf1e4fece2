/**
 * What `sort.Slice` promises, and why its result does not depend on the order
 * the elements came in: a map is iterated in an arbitrary order, but its keys
 * are distinct.
 */
module Sorting {
  import opened Aggregates
  import Hex

  ghost predicate Sorted<T>(xs: seq<T>, less: (T, T) -> bool) {
    forall i, j :: 0 <= i < j < |xs| ==> less(xs[i], xs[j])
  }

  ghost predicate SameElements<T>(xs: seq<T>, ys: seq<T>) {
    (forall i :: 0 <= i < |xs| ==> xs[i] in ys) && (forall j :: 0 <= j < |ys| ==> ys[j] in xs)
  }

  ghost predicate Asymmetric<T(!new)>(less: (T, T) -> bool) {
    forall x, y :: less(x, y) ==> !less(y, x)
  }

  ghost predicate Transitive<T>(xs: seq<T>, less: (T, T) -> bool) {
    forall x, y, z :: x in xs && y in xs && z in xs && less(x, y) && less(y, z) ==> less(x, z)
  }

  /** Any two different elements of xs can be told apart by the order. */
  ghost predicate Connected<T>(xs: seq<T>, less: (T, T) -> bool) {
    forall i, j :: 0 <= i < j < |xs| ==> less(xs[i], xs[j]) || less(xs[j], xs[i])
  }

  /** There is only one way to put the same elements in order. */
  lemma {:induction false} SortedIsUnique<T(!new)>(xs: seq<T>, ys: seq<T>, less: (T, T) -> bool)
    requires Asymmetric(less) && Sorted(xs, less) && Sorted(ys, less) && SameElements(xs, ys)
    ensures xs == ys
    decreases |xs|
  {
    if ys != [] { assert ys[0] in xs; }
    if xs != [] {
      assert xs[0] in ys;
      var j :| 0 <= j < |ys| && ys[j] == xs[0];
      var i :| 0 <= i < |xs| && xs[i] == ys[0];
      assert xs[0] == ys[0];
      var xt, yt := xs[1..], ys[1..];
      forall k | 0 <= k < |xt| ensures xt[k] in yt {
        assert xs[k + 1] in ys && less(xs[0], xs[k + 1]);
        var m :| 0 <= m < |ys| && ys[m] == xs[k + 1];
        assert m != 0;
        assert yt[m - 1] == xt[k];
      }
      forall k | 0 <= k < |yt| ensures yt[k] in xt {
        assert ys[k + 1] in xs && less(ys[0], ys[k + 1]);
        var m :| 0 <= m < |xs| && xs[m] == ys[k + 1];
        assert m != 0;
        assert xt[m - 1] == yt[k];
      }
      SortedIsUnique(xt, yt, less);
    }
  }

  function Insert<T>(x: T, ys: seq<T>, less: (T, T) -> bool): (r: seq<T>)
    ensures multiset(r) == multiset(ys) + multiset{x}
  {
    if ys == [] || less(x, ys[0]) then [x] + ys
    else assert ys == [ys[0]] + ys[1..]; [ys[0]] + Insert(x, ys[1..], less)
  }

  /** Some sorting of xs: which algorithm is used makes no difference. */
  function Sort<T>(xs: seq<T>, less: (T, T) -> bool): (r: seq<T>)
    ensures multiset(r) == multiset(xs)
  {
    if xs == [] then [] else
      assert xs == [xs[0]] + xs[1..];
      Insert(xs[0], Sort(xs[1..], less), less)
  }

  lemma {:induction false} InsertSorted<T>(x: T, ys: seq<T>, less: (T, T) -> bool)
    requires Transitive([x] + ys, less) && Sorted(ys, less)
    requires forall j :: 0 <= j < |ys| ==> less(x, ys[j]) || less(ys[j], x)
    ensures Sorted(Insert(x, ys, less), less)
  {
    if ys != [] {
      var rest := Insert(x, ys[1..], less);
      if less(x, ys[0]) {
        assert x in [x] + ys;
        forall j | 0 < j < |ys| ensures less(x, ys[j]) {
          assert ys[0] in [x] + ys && ys[j] in [x] + ys;
        }
      } else {
        InsertSorted(x, ys[1..], less);
        forall j | 0 <= j < |rest| ensures less(ys[0], rest[j]) {
          assert rest[j] in multiset(rest);
          if rest[j] != x {
            assert rest[j] in multiset(ys[1..]);
            var k :| 0 <= k < |ys[1..]| && ys[1..][k] == rest[j];
            assert ys[k + 1] == rest[j];
          }
        }
      }
    }
  }

  lemma SameMultiset<T>(xs: seq<T>, ys: seq<T>)
    requires multiset(xs) == multiset(ys)
    ensures SameElements(xs, ys) && |xs| == |ys|
  {
    forall i | 0 <= i < |xs| ensures xs[i] in ys { assert xs[i] in multiset(xs); }
    forall i | 0 <= i < |ys| ensures ys[i] in xs { assert ys[i] in multiset(ys); }
    assert |xs| == |multiset(xs)| && |ys| == |multiset(ys)|;
  }

  lemma {:induction false} SortSorts<T>(xs: seq<T>, less: (T, T) -> bool)
    requires Transitive(xs, less) && Connected(xs, less)
    ensures Sorted(Sort(xs, less), less) && SameElements(Sort(xs, less), xs) && |Sort(xs, less)| == |xs|
  {
    SameMultiset(Sort(xs, less), xs);
    if xs != [] {
      SortSorts(xs[1..], less);
      var ys := Sort(xs[1..], less);
      forall j | 0 <= j < |ys| ensures less(xs[0], ys[j]) || less(ys[j], xs[0]) {
        assert ys[j] in xs[1..];
        var k :| 0 <= k < |xs[1..]| && xs[1..][k] == ys[j];
        assert xs[k + 1] == ys[j];
      }
      forall x | x in [xs[0]] + ys ensures x in xs {
        if x in ys { assert x in xs[1..]; }
      }
      InsertSorted(xs[0], ys, less);
    }
  }

  // ------------------------------------------------------------ keyed orders

  /** Order by a string key. */
  function ByKey<T>(key: T -> string): (T, T) -> bool {
    (x, y) => Hex.StringLess(key(x), key(y))
  }

  lemma ByKeyIsOrder<T>(key: T -> string, xs: seq<T>)
    requires forall i, j :: 0 <= i < j < |xs| ==> key(xs[i]) != key(xs[j])
    ensures Transitive(xs, ByKey(key)) && Connected(xs, ByKey(key))
  {
    var less := ByKey(key);
    forall x, y, z | x in xs && y in xs && z in xs && less(x, y) && less(y, z) ensures less(x, z) {
      Hex.StringLessTransitive(key(x), key(y), key(z));
    }
    forall i, j | 0 <= i < j < |xs| ensures less(xs[i], xs[j]) || less(xs[j], xs[i]) {
      Hex.StringLessConnected(key(xs[i]), key(xs[j]));
    }
  }

  lemma ByKeyIsAsymmetric<T(!new)>(key: T -> string)
    ensures Asymmetric(ByKey(key))
  {
    forall x, y | ByKey(key)(x, y) ensures !ByKey(key)(y, x) {
      Hex.StringLessAsymmetric(key(x), key(y));
    }
  }

  // ----------------------------------------------------------- range of maps

  /** One order in which a range over the map may deliver its entries. */
  ghost predicate RangeOf<K, V>(es: seq<(K, V)>, m: map<K, V>) {
    && (forall i :: 0 <= i < |es| ==> es[i].0 in m && m[es[i].0] == es[i].1)
    && (forall k :: k in m ==> (k, m[k]) in es)
    && (forall i, j :: 0 <= i < j < |es| ==> es[i].0 != es[j].0)
  }

  /** Ranging over a map: the entries come in an arbitrary order. */
  method Range<K(==), V>(m: map<K, V>) returns (es: seq<(K, V)>)
    ensures RangeOf(es, m)
  {
    es := [];
    var keys := m.Keys;
    while keys != {}
      invariant keys <= m.Keys
      invariant forall i :: 0 <= i < |es| ==> es[i].0 in m && es[i].0 !in keys && m[es[i].0] == es[i].1
      invariant forall k :: k in m && k !in keys ==> (k, m[k]) in es
      invariant forall i, j :: 0 <= i < j < |es| ==> es[i].0 != es[j].0
      decreases keys
    {
      var k :| k in keys;
      es := es + [(k, m[k])];
      keys := keys - {k};
    }
  }

  /** There is such an order for every map. */
  lemma {:induction false} SomeRange<K, V>(m: map<K, V>) returns (es: seq<(K, V)>)
    ensures RangeOf(es, m)
    decreases |m|
  {
    if m == map[] {
      es := [];
    } else {
      var k :| k in m;
      var rest := SomeRange(m - {k});
      es := rest + [(k, m[k])];
      forall j | j in m ensures (j, m[j]) in es {
        if j != k { assert (j, (m - {k})[j]) in rest; }
      }
    }
  }

  function Values<K>(es: seq<(K, int)>): seq<int> {
    seq(|es|, i requires 0 <= i < |es| => es[i].1)
  }

  lemma RangeWithoutLast<K, V>(es: seq<(K, V)>, m: map<K, V>)
    requires RangeOf(es, m) && es != []
    ensures RangeOf(es[..|es| - 1], m - {es[|es| - 1].0})
  {
    var n := |es| - 1;
    var init, rest := es[..n], m - {es[n].0};
    forall j | j in rest ensures (j, rest[j]) in init {
      assert (j, m[j]) in es;
      var i :| 0 <= i < |es| && es[i] == (j, m[j]);
      assert init[i] == (j, rest[j]);
    }
  }

  /** Whatever the order of a range, the values add up to the sum over the map. */
  lemma {:induction false} RangeSum<K>(es: seq<(K, int)>, m: map<K, int>)
    requires RangeOf(es, m)
    ensures Sum(Values(es)) == MapSum(m)
    decreases |es|
  {
    if es == [] {
      assert m == map[];
    } else {
      var n := |es| - 1;
      RangeWithoutLast(es, m);
      RangeSum(es[..n], m - {es[n].0});
      MapSumRemove(m, es[n].0);
      ValuesSnoc(es);
    }
  }

  lemma ValuesSnoc<K>(es: seq<(K, int)>)
    requires es != []
    ensures Sum(Values(es)) == Sum(Values(es[..|es| - 1])) + es[|es| - 1].1
  {
    var n := |es| - 1;
    assert Values(es) == Values(es[..n]) + [es[n].1];
    SumSnoc(Values(es[..n]), es[n].1);
  }

  // ------------------------------------------------------- lists out of maps

  ghost predicate MadeFrom<K, V, T>(x: T, m: map<K, V>, make: (K, V) -> T) {
    exists k :: k in m && x == make(k, m[k])
  }

  /** The list holds what `make` makes of the entries of the map, and nothing else. */
  ghost predicate Lists<K, V, T>(list: seq<T>, m: map<K, V>, make: (K, V) -> T) {
    && (forall i :: 0 <= i < |list| ==> MadeFrom(list[i], m, make))
    && (forall k :: k in m ==> make(k, m[k]) in list)
  }

  function Made<K, V, T>(es: seq<(K, V)>, make: (K, V) -> T): seq<T> {
    seq(|es|, i requires 0 <= i < |es| => make(es[i].0, es[i].1))
  }

  lemma MadeStep<K, V, T>(es: seq<(K, V)>, i: nat, make: (K, V) -> T)
    requires i < |es|
    ensures Made(es[..i + 1], make) == Made(es[..i], make) + [make(es[i].0, es[i].1)]
  {}

  lemma RangeLists<K, V, T>(es: seq<(K, V)>, m: map<K, V>, make: (K, V) -> T)
    requires RangeOf(es, m)
    ensures Lists(Made(es, make), m, make)
  {
    forall i | 0 <= i < |es| ensures MadeFrom(Made(es, make)[i], m, make) {
      assert es[i].0 in m && Made(es, make)[i] == make(es[i].0, m[es[i].0]);
    }
    forall k | k in m ensures make(k, m[k]) in Made(es, make) {
      assert (k, m[k]) in es;
      var i :| 0 <= i < |es| && es[i] == (k, m[k]);
      assert Made(es, make)[i] == make(k, m[k]);
    }
  }

  /** Sorting what was made of a range gives the one sorted list of the map. */
  lemma SortedRange<V, T>(es: seq<(string, V)>, m: map<string, V>, make: (string, V) -> T, key: T -> string)
    requires RangeOf(es, m) && (forall k :: k in m ==> key(make(k, m[k])) == k)
    ensures var list := Sort(Made(es, make), ByKey(key));
            Lists(list, m, make) && Sorted(list, ByKey(key)) && |list| == |es|
  {
    var xs := Made(es, make);
    RangeLists(es, m, make);
    ByKeyIsOrder(key, xs);
    SortSorts(xs, ByKey(key));
    var list := Sort(xs, ByKey(key));
    forall i | 0 <= i < |list| ensures MadeFrom(list[i], m, make) {
      assert list[i] in xs;
    }
    forall k | k in m ensures make(k, m[k]) in list {
      assert make(k, m[k]) in xs;
    }
  }

  /** There is only one sorted list of a map. */
  lemma ListIsUnique<V, T(!new)>(xs: seq<T>, ys: seq<T>, m: map<string, V>, make: (string, V) -> T, key: T -> string)
    requires Lists(xs, m, make) && Lists(ys, m, make)
    requires Sorted(xs, ByKey(key)) && Sorted(ys, ByKey(key))
    ensures xs == ys
  {
    ByKeyIsAsymmetric(key);
    SortedIsUnique(xs, ys, ByKey(key));
  }

  /** The map a list is loaded into, later elements replacing earlier ones. */
  function Load<K, V, T>(list: seq<T>, key: T -> K, value: T -> V): map<K, V> {
    if list == [] then map[] else
      Load(list[..|list| - 1], key, value)[key(list[|list| - 1]) := value(list[|list| - 1])]
  }

  lemma {:induction false} LoadAgrees<K, V, T>(list: seq<T>, key: T -> K, value: T -> V, m: map<K, V>)
    requires forall i :: 0 <= i < |list| ==> key(list[i]) in m && m[key(list[i])] == value(list[i])
    ensures forall k :: k in Load(list, key, value) ==> k in m && Load(list, key, value)[k] == m[k]
    ensures forall i :: 0 <= i < |list| ==> key(list[i]) in Load(list, key, value)
  {
    if list != [] { LoadAgrees(list[..|list| - 1], key, value, m); }
  }

  /** Loading the list of a map gives the map back. */
  lemma LoadInvertsList<K, V, T>(list: seq<T>, m: map<K, V>, make: (K, V) -> T, key: T -> K, value: T -> V)
    requires Lists(list, m, make)
    requires forall k :: k in m ==> key(make(k, m[k])) == k && value(make(k, m[k])) == m[k]
    ensures Load(list, key, value) == m
  {
    forall i | 0 <= i < |list| ensures key(list[i]) in m && m[key(list[i])] == value(list[i]) {
      assert MadeFrom(list[i], m, make);
    }
    LoadAgrees(list, key, value, m);
    forall k | k in m ensures k in Load(list, key, value) {
      assert make(k, m[k]) in list;
    }
  }

}
