/** Sums of reals, and of their floors. */
module Reals {
  import opened Aggregates

  function SumReal(xs: seq<real>): real {
    if xs == [] then 0.0 else SumReal(xs[..|xs| - 1]) + xs[|xs| - 1]
  }

  lemma SumRealSnoc(xs: seq<real>, x: real)
    ensures SumReal(xs + [x]) == SumReal(xs) + x
  {
    assert (xs + [x])[..|xs|] == xs;
  }

  lemma {:induction false} SumRealConcat(xs: seq<real>, ys: seq<real>)
    ensures SumReal(xs + ys) == SumReal(xs) + SumReal(ys)
  {
    if ys == [] {
      assert xs + ys == xs;
    } else {
      assert (xs + ys)[..|xs + ys| - 1] == xs + ys[..|ys| - 1];
      SumRealConcat(xs, ys[..|ys| - 1]);
    }
  }

  function Without<T>(xs: seq<T>, r: nat): seq<T>
    requires r < |xs|
  {
    xs[..r] + xs[r + 1..]
  }

  lemma {:induction false} SumRealWithout(xs: seq<real>, r: nat)
    requires r < |xs|
    ensures SumReal(xs) == SumReal(Without(xs, r)) + xs[r]
  {
    var n := |xs| - 1;
    if r == n {
      assert Without(xs, r) == xs[..n];
    } else {
      SumRealWithout(xs[..n], r);
      assert Without(xs, r) == Without(xs[..n], r) + [xs[n]];
      SumRealSnoc(Without(xs[..n], r), xs[n]);
    }
  }

  /** The sum of all elements but the one at position r. */
  function SumBut(xs: seq<int>, r: nat): int {
    if xs == [] then 0 else
      SumBut(xs[..|xs| - 1], r) + if |xs| - 1 == r then 0 else xs[|xs| - 1]
  }

  lemma {:induction false} SumButOne(xs: seq<int>, r: nat)
    ensures SumBut(xs, r) == Sum(xs) - if r < |xs| then xs[r] else 0
  {
    if xs != [] { SumButOne(xs[..|xs| - 1], r); }
  }

  ghost predicate NonNegative(xs: seq<real>) {
    forall i :: 0 <= i < |xs| ==> xs[i] >= 0.0
  }

  lemma {:induction false} SumRealNonNegative(xs: seq<real>)
    requires NonNegative(xs)
    ensures SumReal(xs) >= 0.0
    ensures forall i :: 0 <= i < |xs| ==> xs[i] <= SumReal(xs)
  {
    if xs != [] { SumRealNonNegative(xs[..|xs| - 1]); }
  }

  function Scale(xs: seq<real>, c: real): seq<real> {
    seq(|xs|, i requires 0 <= i < |xs| => xs[i] * c)
  }

  lemma {:induction false} SumRealScale(xs: seq<real>, c: real)
    ensures SumReal(Scale(xs, c)) == SumReal(xs) * c
  {
    if xs != [] {
      var n := |xs| - 1;
      SumRealScale(xs[..n], c);
      forall i | 0 <= i < n ensures Scale(xs, c)[..n][i] == Scale(xs[..n], c)[i] {
        assert xs[..n][i] == xs[i];
      }
      assert Scale(xs, c)[..n] == Scale(xs[..n], c);
      assert (SumReal(xs[..n]) + xs[n]) * c == SumReal(xs[..n]) * c + xs[n] * c;
    }
  }

  ghost predicate Below(xs: seq<real>, ys: seq<real>) {
    |xs| == |ys| && forall i :: 0 <= i < |xs| ==> xs[i] <= ys[i]
  }

  /** Pointwise smaller sequences have smaller sums. */
  lemma {:induction false} SumRealMonotone(xs: seq<real>, ys: seq<real>)
    requires Below(xs, ys)
    ensures SumReal(xs) <= SumReal(ys)
  {
    if xs != [] { SumRealMonotone(xs[..|xs| - 1], ys[..|ys| - 1]); }
  }

  function Floors(xs: seq<real>): seq<int> {
    seq(|xs|, i requires 0 <= i < |xs| => xs[i].Floor)
  }

  ghost predicate Whole(xs: seq<real>) {
    forall i :: 0 <= i < |xs| ==> xs[i] == xs[i].Floor as real
  }

  /** Flooring every term loses less than one per term, and loses nothing exactly
      when there is nothing to lose. */
  lemma {:induction false} FloorLoss(xs: seq<real>)
    ensures 0.0 <= SumReal(xs) - Sum(Floors(xs)) as real
    ensures xs != [] ==> SumReal(xs) - Sum(Floors(xs)) as real < |xs| as real
    ensures SumReal(xs) == Sum(Floors(xs)) as real <==> Whole(xs)
  {
    if xs != [] {
      var n := |xs| - 1;
      var init := xs[..n];
      FloorLoss(init);
      assert Floors(xs)[..n] == Floors(init);
      assert 0.0 <= xs[n] - xs[n].Floor as real < 1.0;
      assert Whole(xs) <==> Whole(init) && xs[n] == xs[n].Floor as real by {
        if Whole(init) && xs[n] == xs[n].Floor as real {
          forall i | 0 <= i < |xs| ensures xs[i] == xs[i].Floor as real {
            if i < n { assert init[i] == xs[i]; }
          }
        }
      }
    }
  }

}
