/** Conservation, decoupling and headroom of the closed-form balances. */
module ClosedFormLaws {
  import opened Uint64
  import opened Aggregates
  import opened Bytes
  import opened Reals
  import opened ClosedForm

  // ----------------------------------------------------------- conservation

  /** Reals that sum to at most a word are stored as their floors. */
  lemma WordsAreFloors(over: real -> U64, xs: seq<real>, total: U64)
    requires NonNegative(xs) && SumReal(xs) <= total as real
    ensures Words(over, xs) == Floors(xs)
    ensures 0 <= Sum(Floors(xs)) <= total
  {
    SumRealNonNegative(xs);
    FloorLoss(xs);
    SumNonNegative(Floors(xs));
    forall i | 0 <= i < |xs| ensures Words(over, xs)[i] == Floors(xs)[i] {
      assert 0.0 <= xs[i] < MOD as real;
    }
  }

  /** Leaving out a zero changes neither the sum nor the sum of the floors. */
  lemma LeaveOutZero(xs: seq<real>, r: nat)
    requires r < |xs| && xs[r] == 0.0
    ensures SumReal(Without(xs, r)) == SumReal(xs)
    ensures Sum(Floors(Without(xs, r))) == Sum(Floors(xs))
  {
    SumRealWithout(xs, r);
    FloorsLeftOut(xs, r);
  }

  lemma {:induction false} FloorsLeftOut(xs: seq<real>, r: nat)
    requires r < |xs|
    ensures Sum(Floors(Without(xs, r))) == Sum(Floors(xs)) - xs[r].Floor
  {
    var n := |xs| - 1;
    assert Floors(xs)[..n] == Floors(xs[..n]);
    if r == n {
      assert Without(xs, r) == xs[..n];
    } else {
      FloorsLeftOut(xs[..n], r);
      assert Without(xs, r) == Without(xs[..n], r) + [xs[n]];
      assert Floors(Without(xs, r)) == Floors(Without(xs[..n], r)) + [xs[n].Floor];
      SumSnoc(Floors(Without(xs[..n], r)), xs[n].Floor);
    }
  }

  /** The residual gets what the floors of the others leave: at least as much as
      their prices leave. The subtraction never wraps around. */
  lemma ResidualBalance(d: Draws, addrs: seq<Bytes>, chainId: nat, height: nat)
    requires Positive(d) && |addrs| >= 2 && !Fallback(d, addrs, chainId, height)
    ensures var total, r := TotalSupplyAt(d, chainId, height), Residual(d, addrs);
            var priced := Priced(d, addrs, chainId, height);
            var out := Balances(d, addrs, chainId, height);
            && 0 <= Sum(Floors(priced)) <= total
            && out == Floors(priced)[r := total - Sum(Floors(priced))]
            && out[r] as real >= total as real - SumReal(priced)
  {
    var total, r := TotalSupplyAt(d, chainId, height), Residual(d, addrs);
    var priced := Priced(d, addrs, chainId, height);
    PricedNonNegative(d, addrs, chainId, height);
    WordsAreFloors(d.over, priced, total);
    FloorLoss(priced);
    var sum := Sum(Floors(priced));
    SumButOne(Words(d.over, priced), r);
    assert SumBut(Words(d.over, priced), r) == sum;
    SmallWord(sum);
    SmallWord(total - sum);
  }

  /** When the prices fit, the balances sum to the supply exactly. */
  lemma Conservation(d: Draws, addrs: seq<Bytes>, chainId: nat, height: nat)
    requires Positive(d) && addrs != [] && !Fallback(d, addrs, chainId, height)
    ensures Sum(Balances(d, addrs, chainId, height)) == TotalSupplyAt(d, chainId, height)
  {
    var total := TotalSupplyAt(d, chainId, height);
    if |addrs| == 1 {
      SumSnoc([], total);
      assert [] + [total] == [total];
    } else {
      var r, floors := Residual(d, addrs), Floors(Priced(d, addrs, chainId, height));
      ResidualBalance(d, addrs, chainId, height);
      ResidualIsNotPriced(d, addrs, chainId, height);
      FillUp(floors, r, total);
    }
  }

  lemma ResidualIsNotPriced(d: Draws, addrs: seq<Bytes>, chainId: nat, height: nat)
    requires Positive(d) && addrs != []
    ensures Floors(Priced(d, addrs, chainId, height))[Residual(d, addrs)] == 0
  {
    PricedNonNegative(d, addrs, chainId, height);
  }

  lemma FillUp(xs: seq<int>, r: nat, total: int)
    requires r < |xs| && xs[r] == 0
    ensures Sum(xs[r := total - Sum(xs)]) == total
  {
    SumUpdate(xs, r, total - Sum(xs));
  }

  lemma ScaledDownSum(d: Draws, addrs: seq<Bytes>, chainId: nat, height: nat)
    requires Positive(d) && Fallback(d, addrs, chainId, height)
    ensures var xs := ScaledDown(d, addrs, chainId, height);
            && NonNegative(xs) && |xs| == |addrs| && xs[Residual(d, addrs)] == 0.0
            && SumReal(xs) == TotalSupplyAt(d, chainId, height) as real
  {
    PricedNonNegative(d, addrs, chainId, height);
    ScaledTo(Priced(d, addrs, chainId, height), TotalSupplyAt(d, chainId, height) as real, Residual(d, addrs));
  }

  lemma ScaledTo(xs: seq<real>, total: real, r: nat)
    requires NonNegative(xs) && SumReal(xs) > 0.0 && total >= 0.0 && r < |xs| && xs[r] == 0.0
    ensures var ys := Scale(xs, total / SumReal(xs));
            NonNegative(ys) && ys[r] == 0.0 && SumReal(ys) == total
  {
    var c := total / SumReal(xs);
    SumRealScale(xs, c);
    DivideBack(SumReal(xs), total);
    forall i | 0 <= i < |xs| ensures Scale(xs, c)[i] >= 0.0 && (xs[i] == 0.0 ==> Scale(xs, c)[i] == 0.0) {
      MulNonNegative(xs[i], total, SumReal(xs));
    }
  }

  lemma DivideBack(x: real, y: real)
    requires x > 0.0
    ensures x * (y / x) == y
  {}

  /** In the fallback the balances never exceed the supply and fall short of it by
      less than n - 1 units, and by none exactly when every scaled balance is whole. */
  lemma FallbackShortfall(d: Draws, addrs: seq<Bytes>, chainId: nat, height: nat)
    requires Positive(d) && Fallback(d, addrs, chainId, height)
    ensures var total := TotalSupplyAt(d, chainId, height);
            var sum := Sum(Balances(d, addrs, chainId, height));
            && 0 <= total - sum < |addrs| - 1
            && (sum == total <==> Whole(ScaledDown(d, addrs, chainId, height)))
    ensures Balances(d, addrs, chainId, height)[Residual(d, addrs)] == 0
  {
    var total, r := TotalSupplyAt(d, chainId, height), Residual(d, addrs);
    var xs := ScaledDown(d, addrs, chainId, height);
    ScaledDownSum(d, addrs, chainId, height);
    WordsAreFloors(d.over, xs, total);
    FloorLoss(xs);
    LeaveOutZero(xs, r);
    FloorLoss(Without(xs, r));
  }

  /** The balances sum to the supply exactly when the prices fit it, or else every
      scaled balance happens to be whole. */
  lemma ConservedExactly(d: Draws, addrs: seq<Bytes>, chainId: nat, height: nat)
    requires Positive(d) && addrs != []
    ensures Sum(Balances(d, addrs, chainId, height)) == TotalSupplyAt(d, chainId, height)
       <==> (Fallback(d, addrs, chainId, height) ==> Whole(ScaledDown(d, addrs, chainId, height)))
  {
    if Fallback(d, addrs, chainId, height) {
      FallbackShortfall(d, addrs, chainId, height);
    } else {
      Conservation(d, addrs, chainId, height);
    }
  }

  /** At every height the balances are within the supply by fewer units than
      there are addresses. */
  lemma WithinTolerance(d: Draws, addrs: seq<Bytes>, chainId: nat, height: nat)
    requires Positive(d) && addrs != []
    ensures 0 <= TotalSupplyAt(d, chainId, height) - Sum(Balances(d, addrs, chainId, height)) < |addrs|
  {
    if Fallback(d, addrs, chainId, height) {
      FallbackShortfall(d, addrs, chainId, height);
    } else {
      Conservation(d, addrs, chainId, height);
    }
  }

  /** Draws under which the fallback loses two units of a supply of 1.4 billion. */
  function LossyDraws(): Draws {
    Draws(_ => 1.0, (_, _) => true, (_, _) => 3.0, _ => 0)
  }

  lemma FallbackLosesUnits()
    ensures var addrs: seq<Bytes> := [[0], [1], [2], [3]];
            && Positive(LossyDraws())
            && TotalSupplyAt(LossyDraws(), 1, 0) == 1_400_000_000
            && Fallback(LossyDraws(), addrs, 1, 0)
            && Balances(LossyDraws(), addrs, 1, 0) == [0, 466_666_666, 466_666_666, 466_666_666]
            && Sum(Balances(LossyDraws(), addrs, 1, 0)) == 1_399_999_998
  {
    var d := LossyDraws();
    var addrs: seq<Bytes> := [[0], [1], [2], [3]];
    assert SupplyCurve(1, 0) == 1_400_000_000.0;
    var bases := Bases(d, addrs);
    assert bases == [1.0, 1.0, 1.0, 1.0];
    SumOfFour(1.0, 1.0, 1.0, 1.0);
    FirstMaxUnique(bases, 0);
    assert Rate(d, addrs, 1) == 350_000_000.0;
    var priced := Priced(d, addrs, 1, 0);
    assert priced == [0.0, 1_050_000_000.0, 1_050_000_000.0, 1_050_000_000.0];
    SumOfFour(0.0, 1_050_000_000.0, 1_050_000_000.0, 1_050_000_000.0);
    assert SumReal(priced) == 3_150_000_000.0;
    var xs := ScaledDown(d, addrs, 1, 0);
    var share := 1_050_000_000.0 * (1_400_000_000.0 / 3_150_000_000.0);
    assert xs == [0.0 * (1_400_000_000.0 / 3_150_000_000.0), share, share, share];
    assert 466_666_666.0 <= share < 466_666_667.0;
    assert share.Floor == 466_666_666;
    assert Balances(d, addrs, 1, 0) == [0, 466_666_666, 466_666_666, 466_666_666];
    SumOfFourInts(0, 466_666_666, 466_666_666, 466_666_666);
  }

  lemma SumOfFourInts(a: int, b: int, c: int, e: int)
    ensures Sum([a, b, c, e]) == a + b + c + e
  {
    SumSnoc([], a);
    SumSnoc([a], b);
    SumSnoc([a, b], c);
    SumSnoc([a, b, c], e);
    assert [] + [a] == [a] && [a] + [b] == [a, b];
    assert [a, b] + [c] == [a, b, c] && [a, b, c] + [e] == [a, b, c, e];
  }

  lemma SumOfFour(a: real, b: real, c: real, e: real)
    ensures SumReal([a, b, c, e]) == a + b + c + e
  {
    SumRealSnoc([], a);
    SumRealSnoc([a], b);
    SumRealSnoc([a, b], c);
    SumRealSnoc([a, b, c], e);
    assert [] + [a] == [a] && [a] + [b] == [a, b];
    assert [a, b] + [c] == [a, b, c] && [a, b, c] + [e] == [a, b, c, e];
  }

  // ------------------------------------------------------ one at a time

  /** What BalanceAt answers for the addresses of the list, one by one. */
  function OneByOne(d: Draws, addrs: seq<Bytes>, chainId: nat, height: nat): seq<U64> {
    seq(|addrs|, i requires 0 <= i < |addrs| =>
      Balances(d, addrs, chainId, height)[FirstIndex(addrs, addrs[i])])
  }

  /** For distinct addresses asking one by one gives the same balances. */
  lemma OneByOneAgrees(d: Draws, addrs: seq<Bytes>, chainId: nat, height: nat)
    requires NoDuplicates(addrs)
    ensures OneByOne(d, addrs, chainId, height) == Balances(d, addrs, chainId, height)
  {
    forall i | 0 <= i < |addrs| ensures FirstIndex(addrs, addrs[i]) == i {
      assert FirstIndex(addrs, addrs[i]) <= i;
    }
  }

  // ------------------------------------------------------------- decoupling

  function BalanceOf(d: Draws, addrs: seq<Bytes>, chainId: nat, height: nat, i: nat): int
    requires i < |addrs|
  {
    Balances(d, addrs, chainId, height)[i]
  }

  lemma BalanceIsFloor(d: Draws, addrs: seq<Bytes>, chainId: nat, height: nat, i: nat)
    requires Positive(d) && |addrs| >= 2 && !Fallback(d, addrs, chainId, height)
    requires i < |addrs| && i != Residual(d, addrs)
    ensures BalanceOf(d, addrs, chainId, height, i) == Floors(Priced(d, addrs, chainId, height))[i]
  {
    ResidualBalance(d, addrs, chainId, height);
  }

  lemma SamePrice(d: Draws, addrs: seq<Bytes>, chainId: nat, h1: nat, h2: nat, i: nat)
    requires i < |addrs| && !d.active(addrs[i], h1) && !d.active(addrs[i], h2)
    ensures Priced(d, addrs, chainId, h1)[i] == Priced(d, addrs, chainId, h2)[i]
  {
    assert RawValue(d, addrs[i], h1) == RawValue(d, addrs[i], h2);
  }

  /** An inactive account other than the residual keeps its balance between any
      two heights that both fit, whatever everybody else does. */
  lemma InactiveKeepsBalance(d: Draws, addrs: seq<Bytes>, chainId: nat, h1: nat, h2: nat, i: nat)
    requires Positive(d) && |addrs| >= 2 && i < |addrs| && i != Residual(d, addrs)
    requires !Fallback(d, addrs, chainId, h1) && !Fallback(d, addrs, chainId, h2)
    requires !d.active(addrs[i], h1) && !d.active(addrs[i], h2)
    ensures BalanceOf(d, addrs, chainId, h1, i) == BalanceOf(d, addrs, chainId, h2, i)
  {
    BalanceIsFloor(d, addrs, chainId, h1, i);
    BalanceIsFloor(d, addrs, chainId, h2, i);
    SamePrice(d, addrs, chainId, h1, h2, i);
    var p1, p2 := Priced(d, addrs, chainId, h1), Priced(d, addrs, chainId, h2);
    assert Floors(p1)[i] == p1[i].Floor && Floors(p2)[i] == p2[i].Floor;
  }

  /** True for the accounts that may change between two heights. */
  predicate Touched(d: Draws, a: Bytes, h1: nat, h2: nat) {
    d.active(a, h1) || d.active(a, h2)
  }

  /** Balance changes of the non-residual accounts active at either height. */
  function ActiveChanges(d: Draws, addrs: seq<Bytes>, chainId: nat, h1: nat, h2: nat): seq<int>
    requires addrs != []
  {
    seq(|addrs|, i requires 0 <= i < |addrs| =>
      if i != Residual(d, addrs) && Touched(d, addrs[i], h1, h2)
      then BalanceOf(d, addrs, chainId, h2, i) - BalanceOf(d, addrs, chainId, h1, i)
      else 0)
  }

  /** The residual absorbs exactly the growth of the supply less the net change of
      the active accounts. */
  lemma ResidualAbsorbs(d: Draws, addrs: seq<Bytes>, chainId: nat, h1: nat, h2: nat)
    requires Positive(d) && |addrs| >= 2
    requires !Fallback(d, addrs, chainId, h1) && !Fallback(d, addrs, chainId, h2)
    ensures var r, growth := Residual(d, addrs),
                TotalSupplyAt(d, chainId, h2) as int - TotalSupplyAt(d, chainId, h1) as int;
            BalanceOf(d, addrs, chainId, h2, r) - BalanceOf(d, addrs, chainId, h1, r)
              == growth - Sum(ActiveChanges(d, addrs, chainId, h1, h2))
  {
    var r := Residual(d, addrs);
    var changes := ActiveChanges(d, addrs, chainId, h1, h2);
    var change := BalanceOf(d, addrs, chainId, h2, r) - BalanceOf(d, addrs, chainId, h1, r);
    var diff := Difference(Balances(d, addrs, chainId, h2), Balances(d, addrs, chainId, h1));
    Conservation(d, addrs, chainId, h1);
    Conservation(d, addrs, chainId, h2);
    SumDifference(Balances(d, addrs, chainId, h2), Balances(d, addrs, chainId, h1));
    forall i | 0 <= i < |addrs| ensures diff[i] == changes[r := change][i] {
      assert diff[i] == BalanceOf(d, addrs, chainId, h2, i) - BalanceOf(d, addrs, chainId, h1, i);
      if i != r && !Touched(d, addrs[i], h1, h2) { InactiveKeepsBalance(d, addrs, chainId, h1, h2, i); }
    }
    assert diff == changes[r := change];
    SumUpdate(changes, r, change);
  }

  function Difference(xs: seq<int>, ys: seq<int>): seq<int>
    requires |xs| == |ys|
  {
    seq(|xs|, i requires 0 <= i < |xs| => xs[i] - ys[i])
  }

  lemma {:induction false} SumDifference(xs: seq<int>, ys: seq<int>)
    requires |xs| == |ys|
    ensures Sum(Difference(xs, ys)) == Sum(xs) - Sum(ys)
  {
    if xs != [] {
      var n := |xs| - 1;
      SumDifference(xs[..n], ys[..n]);
      assert Difference(xs, ys)[..n] == Difference(xs[..n], ys[..n]);
    }
  }

  // --------------------------------------------------------------- headroom

  /** The supply never shrinks while it fits a word. */
  lemma SupplyMonotone(d: Draws, chainId: nat, h1: nat, h2: nat)
    requires h1 <= h2 && SupplyCurve(chainId, h2) < MOD as real
    ensures TotalSupplyAt(d, chainId, h1) <= TotalSupplyAt(d, chainId, h2)
  {
    assert INFLATION_RATE * h1 as real <= INFLATION_RATE * h2 as real;
    assert SupplyCurve(chainId, h1) <= SupplyCurve(chainId, h2);
  }

  /** Every noise factor m but the residual's, which is never priced, satisfies
      m (S - max) <= S, with S the sum of all weights and max the largest. */
  ghost predicate NoiseBounded(d: Draws, addrs: seq<Bytes>)
    requires addrs != []
  {
    var S, max := SumReal(Bases(d, addrs)), Bases(d, addrs)[Residual(d, addrs)];
    forall i, h :: 0 <= i < |addrs| && i != Residual(d, addrs) ==> FactorFits(d.noise(addrs[i], h), S, max)
  }

  predicate FactorFits(m: real, S: real, max: real) {
    m * (S - max) <= S
  }

  /** The prices of the others at a height, before the exchange rate. */
  function OtherRaws(d: Draws, addrs: seq<Bytes>, height: nat): seq<real>
    requires addrs != []
  {
    seq(|addrs|, i requires 0 <= i < |addrs| =>
      if i == Residual(d, addrs) then 0.0 else RawValue(d, addrs[i], height))
  }

  lemma PricedIsScaled(d: Draws, addrs: seq<Bytes>, rate: real, height: nat)
    requires addrs != []
    ensures PricedAt(d, addrs, rate, height) == Scale(OtherRaws(d, addrs, height), rate)
  {
    var priced, scaled := PricedAt(d, addrs, rate, height), Scale(OtherRaws(d, addrs, height), rate);
    forall i | 0 <= i < |addrs| ensures priced[i] == scaled[i] {
      assert scaled[i] == OtherRaws(d, addrs, height)[i] * rate;
    }
  }

  /** The rate turns the sum of all weights into the genesis supply. */
  lemma RateTimesWeights(d: Draws, addrs: seq<Bytes>, chainId: nat)
    requires Positive(d) && addrs != []
    ensures Rate(d, addrs, chainId) > 0.0
    ensures SumReal(Bases(d, addrs)) * Rate(d, addrs, chainId) == TotalSupplyAt(d, chainId, 0) as real
  {
    PricedNonNegative(d, addrs, chainId, 0);
    DivideBack(SumReal(Bases(d, addrs)), TotalSupplyAt(d, chainId, 0) as real);
  }

  /** The weights of all but the residual sum to what is left without it. */
  lemma OtherBases(d: Draws, addrs: seq<Bytes>)
    requires Positive(d) && |addrs| >= 2
    ensures var bases, r := Bases(d, addrs), Residual(d, addrs);
            && SumReal(bases[r := 0.0]) == SumReal(bases) - bases[r]
            && SumReal(bases) - bases[r] > 0.0
            && SumReal(bases) <= |addrs| as real * bases[r]
  {
    var bases, r := Bases(d, addrs), Residual(d, addrs);
    WithoutMax(bases, r);
    AtMostMax(bases, bases[r]);
  }

  lemma WithoutMax(xs: seq<real>, r: nat)
    requires r < |xs| && |xs| >= 2 && forall i :: 0 <= i < |xs| ==> xs[i] > 0.0
    ensures SumReal(xs[r := 0.0]) == SumReal(xs) - xs[r] > 0.0
  {
    var others := Without(xs, r);
    SumRealWithout(xs, r);
    SumRealWithout(xs[r := 0.0], r);
    assert Without(xs[r := 0.0], r) == others;
    SumRealNonNegative(others);
    assert others[0] == xs[if r == 0 then 1 else 0];
  }

  lemma {:induction false} AtMostMax(xs: seq<real>, m: real)
    requires forall i :: 0 <= i < |xs| ==> xs[i] <= m
    ensures SumReal(xs) <= |xs| as real * m
  {
    if xs != [] {
      var n := |xs| - 1;
      AtMostMax(xs[..n], m);
      assert (n as real + 1.0) * m == n as real * m + m;
      assert |xs| as real == n as real + 1.0;
    }
  }

  lemma NoisyRawBounded(base: real, noise: real, others: real, sum: real)
    requires base > 0.0 && noise * others <= sum
    ensures base * noise * others <= base * sum
  {
    assert base * noise * others == base * (noise * others);
    assert base * (sum - noise * others) >= 0.0;
  }

  /** Bounded noise: the raw prices of the others never sum to more than all the weights. */
  lemma OtherRawsBounded(d: Draws, addrs: seq<Bytes>, height: nat)
    requires Positive(d) && |addrs| >= 2 && NoiseBounded(d, addrs)
    ensures SumReal(OtherRaws(d, addrs, height)) <= SumReal(Bases(d, addrs))
  {
    var bases, r := Bases(d, addrs), Residual(d, addrs);
    var raws, rest := OtherRaws(d, addrs, height), bases[r := 0.0];
    OtherBases(d, addrs);
    forall i | 0 <= i < |addrs|
      ensures Scale(raws, SumReal(bases) - bases[r])[i] <= Scale(rest, SumReal(bases))[i]
    {
      OtherRawBounded(d, addrs, height, i);
    }
    ProportionalSums(raws, rest, SumReal(bases) - bases[r], SumReal(bases));
  }

  lemma RawBounded(d: Draws, addrs: seq<Bytes>, height: nat, i: nat)
    requires Positive(d) && |addrs| >= 2 && NoiseBounded(d, addrs) && i < |addrs| && i != Residual(d, addrs)
    ensures var bases := Bases(d, addrs);
            RawValue(d, addrs[i], height) * (SumReal(bases) - bases[Residual(d, addrs)]) <= bases[i] * SumReal(bases)
  {
    var bases := Bases(d, addrs);
    var S, max := SumReal(bases), bases[Residual(d, addrs)];
    assert FactorFits(d.noise(addrs[i], height), S, max);
    RawAgainstWeight(d, addrs[i], height, S - max, S);
  }

  lemma RawAgainstWeight(d: Draws, a: Bytes, height: nat, others: real, sum: real)
    requires Positive(d) && d.noise(a, height) * others <= sum && others <= sum
    ensures RawValue(d, a, height) * others <= d.base(a) * sum
  {
    if d.active(a, height) {
      NoisyRawBounded(d.base(a), d.noise(a, height), others, sum);
    } else {
      NoisyRawBounded(d.base(a), 1.0, others, sum);
    }
  }

  lemma OtherRawBounded(d: Draws, addrs: seq<Bytes>, height: nat, i: nat)
    requires Positive(d) && |addrs| >= 2 && NoiseBounded(d, addrs) && i < |addrs|
    ensures var bases, r := Bases(d, addrs), Residual(d, addrs);
            Scale(OtherRaws(d, addrs, height), SumReal(bases) - bases[r])[i]
              <= Scale(bases[r := 0.0], SumReal(bases))[i]
  {
    var bases, r := Bases(d, addrs), Residual(d, addrs);
    if i != r { RawBounded(d, addrs, height, i); }
    ScaledTerm(OtherRaws(d, addrs, height), bases[r := 0.0], SumReal(bases) - bases[r], SumReal(bases), i);
  }

  lemma ScaledTerm(xs: seq<real>, ys: seq<real>, c: real, S: real, i: nat)
    requires |xs| == |ys| && i < |xs|
    requires xs[i] == 0.0 == ys[i] || xs[i] * c <= ys[i] * S
    ensures Scale(xs, c)[i] <= Scale(ys, S)[i]
  {}

  /** If x_i c <= y_i S term by term and the y_i sum to c, the x_i sum to at most S. */
  lemma ProportionalSums(xs: seq<real>, ys: seq<real>, c: real, S: real)
    requires SumReal(ys) == c > 0.0 && Below(Scale(xs, c), Scale(ys, S))
    ensures SumReal(xs) <= S
  {
    SumsBelow(xs, ys, c, S);
    CancelReal(SumReal(xs), S, c);
  }

  lemma SumsBelow(xs: seq<real>, ys: seq<real>, c: real, S: real)
    requires Below(Scale(xs, c), Scale(ys, S))
    ensures SumReal(xs) * c <= SumReal(ys) * S
  {
    SumRealMonotone(Scale(xs, c), Scale(ys, S));
    SumRealScale(xs, c);
    SumRealScale(ys, S);
  }

  lemma CancelReal(x: real, y: real, c: real)
    requires c > 0.0 && x * c <= c * y
    ensures x <= y
  {
    if x > y {
      MulPositive(x - y, c);
      DistributeReal(x, y, c);
    }
  }

  lemma DistributeReal(x: real, y: real, c: real)
    ensures (x - y) * c == x * c - y * c
  {}

  lemma KeepsOrder(x: real, y: real, c: real)
    requires x <= y && c > 0.0
    ensures x * c <= y * c
  {
    if x < y {
      MulPositive(y - x, c);
      DistributeReal(y, x, c);
    }
  }

  /** With bounded noise the fallback is unreachable at every height whose supply
      fits a word. */
  lemma FallbackUnreachable(d: Draws, addrs: seq<Bytes>, chainId: nat, height: nat)
    requires Positive(d) && |addrs| >= 2 && NoiseBounded(d, addrs)
    requires SupplyCurve(chainId, height) < MOD as real
    ensures !Fallback(d, addrs, chainId, height)
  {
    PricesWithinGenesis(d, addrs, chainId, height);
    SupplyMonotone(d, chainId, 0, height);
  }

  lemma PricesWithinGenesis(d: Draws, addrs: seq<Bytes>, chainId: nat, height: nat)
    requires Positive(d) && |addrs| >= 2 && NoiseBounded(d, addrs)
    ensures SumReal(Priced(d, addrs, chainId, height)) <= TotalSupplyAt(d, chainId, 0) as real
  {
    RateTimesWeights(d, addrs, chainId);
    PricesWithin(d, addrs, Rate(d, addrs, chainId), height, TotalSupplyAt(d, chainId, 0) as real);
  }

  /** At a rate that makes all the weights worth the total, the prices stay within it. */
  lemma PricesWithin(d: Draws, addrs: seq<Bytes>, rate: real, height: nat, total: real)
    requires Positive(d) && |addrs| >= 2 && NoiseBounded(d, addrs)
    requires rate > 0.0 && SumReal(Bases(d, addrs)) * rate == total
    ensures SumReal(PricedAt(d, addrs, rate, height)) <= total
  {
    OtherRawsBounded(d, addrs, height);
    PricedIsScaled(d, addrs, rate, height);
    ScaledWithin(OtherRaws(d, addrs, height), SumReal(Bases(d, addrs)), rate, total);
  }

  /** Numbers that sum to at most S are together worth at most what S is. */
  lemma ScaledWithin(raws: seq<real>, S: real, rate: real, total: real)
    requires SumReal(raws) <= S && rate > 0.0 && S * rate == total
    ensures SumReal(Scale(raws, rate)) <= total
  {
    SumRealScale(raws, rate);
    WorthAtMost(SumReal(Scale(raws, rate)), SumReal(raws), S, rate, total);
  }

  lemma WorthAtMost(p: real, x: real, S: real, rate: real, total: real)
    requires p == x * rate && x <= S && rate > 0.0 && S * rate == total
    ensures p <= total
  {
    KeepsOrder(x, S, rate);
  }

  lemma PriceSum(d: Draws, addrs: seq<Bytes>, rate: real, height: nat)
    requires addrs != []
    ensures SumReal(PricedAt(d, addrs, rate, height)) == SumReal(OtherRaws(d, addrs, height)) * rate
  {
    PricedIsScaled(d, addrs, rate, height);
    SumRealScale(OtherRaws(d, addrs, height), rate);
  }

  /** Noise of at most n/(n-1) is bounded enough, as the residual is the largest holder. */
  lemma SmallNoiseIsBounded(d: Draws, addrs: seq<Bytes>)
    requires Positive(d) && |addrs| >= 2
    requires forall i, h :: 0 <= i < |addrs| && i != Residual(d, addrs) ==>
      d.noise(addrs[i], h) * (|addrs| as real - 1.0) <= |addrs| as real
    ensures NoiseBounded(d, addrs)
  {
    var bases, r := Bases(d, addrs), Residual(d, addrs);
    OtherBases(d, addrs);
    forall i, h | 0 <= i < |addrs| && i != r ensures FactorFits(d.noise(addrs[i], h), SumReal(bases), bases[r]) {
      SmallNoise(d.noise(addrs[i], h), |addrs| as real, SumReal(bases), bases[r]);
    }
  }

  lemma SmallNoise(m: real, n: real, S: real, max: real)
    requires m > 0.0 && n >= 2.0 && m * (n - 1.0) <= n && S <= n * max && S - max > 0.0
    ensures FactorFits(m, S, max)
  {
    // n (S - max) <= (n - 1) S, hence m n (S - max) <= m (n - 1) S <= n S
    assert n * (S - max) <= (n - 1.0) * S;
    assert m * (n * (S - max)) <= m * ((n - 1.0) * S);
    assert S > 0.0;
    assert (n - m * (n - 1.0)) * S >= 0.0;
    assert (S - m * (S - max)) * n >= 0.0;
  }

  /** With nobody but the residual active the prices fit. */
  lemma QuietHeightFits(d: Draws, addrs: seq<Bytes>, chainId: nat, height: nat)
    requires Positive(d) && |addrs| >= 2 && SupplyCurve(chainId, height) < MOD as real
    requires forall i :: 0 <= i < |addrs| && i != Residual(d, addrs) ==> !d.active(addrs[i], height)
    ensures !Fallback(d, addrs, chainId, height)
  {
    var share := QuietShare(d, addrs, chainId, height);
    QuietFits(d, addrs, chainId, height, share);
  }

  /** An n-th of the total or more. */
  ghost predicate AtLeastEqualShare(kept: int, n: nat, total: int) {
    kept * n >= total
  }

  /** And then the residual keeps at least an equal share of the genesis supply. */
  lemma QuietHeadroom(d: Draws, addrs: seq<Bytes>, chainId: nat, height: nat)
    requires Positive(d) && |addrs| >= 2 && SupplyCurve(chainId, height) < MOD as real
    requires forall i :: 0 <= i < |addrs| && i != Residual(d, addrs) ==> !d.active(addrs[i], height)
    ensures AtLeastEqualShare(BalanceOf(d, addrs, chainId, height, Residual(d, addrs)), |addrs|,
                              TotalSupplyAt(d, chainId, 0))
  {
    var share := QuietShare(d, addrs, chainId, height);
    QuietFits(d, addrs, chainId, height, share);
  }

  lemma QuietShare(d: Draws, addrs: seq<Bytes>, chainId: nat, height: nat) returns (share: real)
    requires Positive(d) && |addrs| >= 2
    requires forall i :: 0 <= i < |addrs| && i != Residual(d, addrs) ==> !d.active(addrs[i], height)
    ensures share > 0.0
    ensures SumReal(Priced(d, addrs, chainId, height)) == TotalSupplyAt(d, chainId, 0) as real - share
    ensures forall kept: int :: kept as real >= share ==> AtLeastEqualShare(kept, |addrs|, TotalSupplyAt(d, chainId, 0))
  {
    RateTimesWeights(d, addrs, chainId);
    share := QuietPrices(d, addrs, Rate(d, addrs, chainId), TotalSupplyAt(d, chainId, 0) as real, height);
    EveryoneKeepsShare(|addrs|, share, TotalSupplyAt(d, chainId, 0));
  }

  lemma EveryoneKeepsShare(n: nat, share: real, T0: U64)
    requires share * n as real >= T0 as real
    ensures forall kept: int :: kept as real >= share ==> AtLeastEqualShare(kept, n, T0)
  {
    forall kept: int | kept as real >= share ensures AtLeastEqualShare(kept, n, T0) {
      KeepsShare(kept, n, share, T0);
    }
  }

  lemma KeepsShare(kept: int, n: nat, share: real, T0: U64)
    requires kept as real >= share && share * n as real >= T0 as real
    ensures AtLeastEqualShare(kept, n, T0)
  {
    assert (kept as real - share) * n as real >= 0.0;
    assert kept as real * n as real == (kept * n) as real;
  }

  lemma QuietFits(d: Draws, addrs: seq<Bytes>, chainId: nat, height: nat, share: real)
    requires Positive(d) && |addrs| >= 2 && SupplyCurve(chainId, height) < MOD as real && share > 0.0
    requires SumReal(Priced(d, addrs, chainId, height)) == TotalSupplyAt(d, chainId, 0) as real - share
    ensures !Fallback(d, addrs, chainId, height)
    ensures BalanceOf(d, addrs, chainId, height, Residual(d, addrs)) as real >= share
  {
    SupplyMonotone(d, chainId, 0, height);
    ResidualBalance(d, addrs, chainId, height);
  }

  /** With nobody but the residual active the prices are the genesis supply less the
      residual's part of it, which is at least an equal share. */
  lemma QuietPrices(d: Draws, addrs: seq<Bytes>, rate: real, T0: real, height: nat) returns (share: real)
    requires Positive(d) && |addrs| >= 2
    requires rate > 0.0 && SumReal(Bases(d, addrs)) * rate == T0
    requires forall i :: 0 <= i < |addrs| && i != Residual(d, addrs) ==> !d.active(addrs[i], height)
    ensures share > 0.0 && share * |addrs| as real >= T0
    ensures SumReal(PricedAt(d, addrs, rate, height)) == T0 - share
  {
    var bases, r := Bases(d, addrs), Residual(d, addrs);
    OtherBases(d, addrs);
    QuietSum(d, addrs, rate, height);
    share := EqualShare(bases[r], SumReal(bases), |addrs| as real, rate, T0, SumReal(bases[r := 0.0]));
  }

  lemma QuietSum(d: Draws, addrs: seq<Bytes>, rate: real, height: nat)
    requires addrs != []
    requires forall i :: 0 <= i < |addrs| && i != Residual(d, addrs) ==> !d.active(addrs[i], height)
    ensures SumReal(PricedAt(d, addrs, rate, height)) == SumReal(Bases(d, addrs)[Residual(d, addrs) := 0.0]) * rate
  {
    var weights := Bases(d, addrs)[Residual(d, addrs) := 0.0];
    assert OtherRaws(d, addrs, height) == weights;
    PriceSum(d, addrs, rate, height);
  }

  lemma EqualShare(max: real, S: real, n: real, rate: real, T0: real, others: real) returns (share: real)
    requires rate > 0.0 && max > 0.0 && n > 0.0 && S <= n * max && S * rate == T0
    requires others == S - max
    ensures others * rate == T0 - share && share * n >= T0 && share > 0.0
  {
    share := max * rate;
    assert (n * max - S) * rate >= 0.0;
    assert share * n == n * max * rate;
    assert others * rate == S * rate - max * rate;
  }

}
