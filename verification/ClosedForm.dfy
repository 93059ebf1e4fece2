/**
 * The closed-form balance ledger: what every address holds at a height,
 * computed without replaying anything. Floating point is modelled by reals
 * with truncation towards zero.
 */
module ClosedForm {
  import opened Uint64
  import opened Bytes
  import opened Reals

  /**
   * The seeded draws: the height-independent weight of an address, whether it is
   * active at a height, the factor its activity applies; and the target's answer
   * to converting a float that does not fit a word.
   */
  datatype Draws = Draws(
    base: Bytes -> real, active: (Bytes, nat) -> bool, noise: (Bytes, nat) -> real, over: real -> U64)

  /** Weights and noise are exponentials, hence positive. */
  ghost predicate Positive(d: Draws) {
    (forall a :: d.base(a) > 0.0) && (forall a, h :: d.noise(a, h) > 0.0)
  }

  function RawValue(d: Draws, a: Bytes, height: nat): real {
    if !d.active(a, height) then d.base(a) else d.base(a) * d.noise(a, height)
  }

  /** Go's conversion of a non-negative float to uint64. */
  function ToWord(over: real -> U64, x: real): U64
    requires x >= 0.0
  {
    if x < MOD as real then x.Floor else over(x)
  }

  const BASE_SUPPLY: real := 1_400_000_000.0
  const INFLATION_RATE: real := 0.0000005

  function SupplyCurve(chainId: nat, height: nat): real {
    BASE_SUPPLY * (if chainId != 1 then 0.05 else 1.0) * (1.0 + INFLATION_RATE * height as real)
  }

  lemma SupplyCurvePositive(chainId: nat, height: nat)
    ensures SupplyCurve(chainId, height) >= 70_000_000.0
  {
    assert 1.0 + INFLATION_RATE * height as real >= 1.0;
  }

  function TotalSupplyAt(d: Draws, chainId: nat, height: nat): U64 {
    SupplyCurvePositive(chainId, height);
    ToWord(d.over, SupplyCurve(chainId, height))
  }

  function Bases(d: Draws, addrs: seq<Bytes>): seq<real> {
    seq(|addrs|, i requires 0 <= i < |addrs| => d.base(addrs[i]))
  }

  function RateOf(supply: U64, sum: real): real {
    if sum == 0.0 then 0.0 else supply as real / sum
  }

  function Rate(d: Draws, addrs: seq<Bytes>, chainId: nat): real {
    RateOf(TotalSupplyAt(d, chainId, 0), SumReal(Bases(d, addrs)))
  }

  /** Position of the first of the largest elements. */
  function FirstMax(xs: seq<real>): (r: nat)
    requires xs != []
    ensures r < |xs|
    ensures forall i :: 0 <= i < |xs| ==> xs[i] <= xs[r]
    ensures forall i :: 0 <= i < r ==> xs[i] < xs[r]
  {
    if |xs| == 1 then 0 else
      var n := |xs| - 1;
      var r := FirstMax(xs[..n]);
      assert forall i :: 0 <= i < n ==> xs[i] == xs[..n][i];
      if xs[n] > xs[r] then n else r
  }

  /** Those two properties determine the position. */
  lemma FirstMaxUnique(xs: seq<real>, r: nat)
    requires r < |xs| && (forall i :: 0 <= i < |xs| ==> xs[i] <= xs[r]) && (forall i :: 0 <= i < r ==> xs[i] < xs[r])
    ensures r == FirstMax(xs)
  {
    var f := FirstMax(xs);
    assert xs[f] <= xs[r] && xs[r] <= xs[f];
  }

  function Residual(d: Draws, addrs: seq<Bytes>): nat
    requires addrs != []
  {
    FirstMax(Bases(d, addrs))
  }

  /** The price of the i-th address at the given rate; the residual is not priced. */
  function PriceAt(d: Draws, addrs: seq<Bytes>, rate: real, height: nat, i: nat): real
    requires i < |addrs|
  {
    if i == Residual(d, addrs) then 0.0 else RawValue(d, addrs[i], height) * rate
  }

  /** Every balance but the residual's priced at the given rate. */
  function PricedAt(d: Draws, addrs: seq<Bytes>, rate: real, height: nat): seq<real>
    requires addrs != []
  {
    seq(|addrs|, i requires 0 <= i < |addrs| => PriceAt(d, addrs, rate, height, i))
  }

  /** The rate is fixed: it does not depend on the height. */
  function Priced(d: Draws, addrs: seq<Bytes>, chainId: nat, height: nat): seq<real>
    requires addrs != []
  {
    PricedAt(d, addrs, Rate(d, addrs, chainId), height)
  }

  /** The branch in which the priced balances exceed the supply. */
  predicate Fallback(d: Draws, addrs: seq<Bytes>, chainId: nat, height: nat) {
    && |addrs| >= 2
    && SumReal(Priced(d, addrs, chainId, height)) > TotalSupplyAt(d, chainId, height) as real
  }

  function ScaledDown(d: Draws, addrs: seq<Bytes>, chainId: nat, height: nat): seq<real>
    requires Fallback(d, addrs, chainId, height)
  {
    var priced := Priced(d, addrs, chainId, height);
    Scale(priced, TotalSupplyAt(d, chainId, height) as real / SumReal(priced))
  }

  /** The words the reals are stored as, with zero for negative ones, which do not occur. */
  function Words(over: real -> U64, xs: seq<real>): seq<U64> {
    seq(|xs|, i requires 0 <= i < |xs| => if xs[i] >= 0.0 then ToWord(over, xs[i]) else 0)
  }

  function Balances(d: Draws, addrs: seq<Bytes>, chainId: nat, height: nat): (out: seq<U64>)
    ensures |out| == |addrs|
  {
    var total := TotalSupplyAt(d, chainId, height);
    if addrs == [] then []
    else if |addrs| == 1 then [total]
    else if Fallback(d, addrs, chainId, height) then Words(d.over, ScaledDown(d, addrs, chainId, height))
    else
      var r := Residual(d, addrs);
      var words := Words(d.over, Priced(d, addrs, chainId, height));
      words[r := Wrap(total - Wrap(SumBut(words, r)))]
  }

  // ----------------------------------------------------------- the methods

  method ResidualIndex(d: Draws, addrs: seq<Bytes>) returns (best: nat)
    requires Positive(d)
    ensures addrs != [] ==> best == Residual(d, addrs)
    ensures addrs == [] ==> best == 0
  {
    var bestVal := -1.0;
    best := 0;
    ghost var xs := Bases(d, addrs);
    for i := 0 to |addrs|
      invariant i == 0 ==> best == 0 && bestVal == -1.0
      invariant i > 0 ==> best < i && bestVal == xs[best]
      invariant i > 0 ==> forall j :: 0 <= j < i ==> xs[j] <= bestVal
      invariant i > 0 ==> forall j :: 0 <= j < best ==> xs[j] < bestVal
    {
      var v := d.base(addrs[i]);
      if v > bestVal {
        best, bestVal := i, v;
      }
    }
    if addrs != [] { FirstMaxUnique(xs, best); }
  }

  method ExchangeRate(d: Draws, addrs: seq<Bytes>, chainId: nat) returns (rate: real)
    ensures rate == Rate(d, addrs, chainId)
  {
    var sum := 0.0;
    ghost var xs := Bases(d, addrs);
    for i := 0 to |addrs|
      invariant sum == SumReal(xs[..i])
    {
      AddNext(xs, i);
      sum := sum + d.base(addrs[i]);
    }
    assert xs[..|addrs|] == xs;
    if sum == 0.0 {
      return 0.0;
    }
    rate := TotalSupplyAt(d, chainId, 0) as real / sum;
  }

  lemma PricedNonNegative(d: Draws, addrs: seq<Bytes>, chainId: nat, height: nat)
    requires Positive(d) && addrs != []
    ensures NonNegative(Bases(d, addrs)) && SumReal(Bases(d, addrs)) > 0.0
    ensures Rate(d, addrs, chainId) > 0.0
    ensures NonNegative(Priced(d, addrs, chainId, height))
  {
    var bases := Bases(d, addrs);
    SumRealNonNegative(bases);
    assert bases[0] > 0.0;
    GenesisSupplyPositive(d, chainId);
    var rate := Rate(d, addrs, chainId);
    DivPositive(TotalSupplyAt(d, chainId, 0) as real, SumReal(bases));
    forall i | 0 <= i < |addrs| ensures Priced(d, addrs, chainId, height)[i] >= 0.0 {
      RawPositive(d, addrs[i], height);
      MulPositive(RawValue(d, addrs[i], height), rate);
    }
  }

  lemma GenesisSupplyPositive(d: Draws, chainId: nat)
    ensures TotalSupplyAt(d, chainId, 0) >= 70_000_000
  {
    SupplyCurvePositive(chainId, 0);
    assert SupplyCurve(chainId, 0) <= 1_400_000_000.0;
  }

  lemma RawPositive(d: Draws, a: Bytes, height: nat)
    requires Positive(d)
    ensures RawValue(d, a, height) > 0.0
  {
    MulPositive(d.base(a), d.noise(a, height));
  }

  lemma MulPositive(x: real, y: real)
    requires x > 0.0 && y > 0.0
    ensures x * y > 0.0
  {}

  lemma DivPositive(x: real, y: real)
    requires x > 0.0 && y > 0.0
    ensures x / y > 0.0
  {}

  method SnapshotBalancesAt(d: Draws, addrs: seq<Bytes>, chainId: nat, height: nat) returns (balances: seq<U64>)
    requires Positive(d)
    ensures balances == Balances(d, addrs, chainId, height)
  {
    if |addrs| == 0 {
      return [];
    }
    var supply := TotalSupplyAt(d, chainId, height);
    if |addrs| == 1 {
      return [supply];
    }
    var residual := ResidualIndex(d, addrs);
    var raws, sumOthers := PriceAtHeight(d, addrs, chainId, height, residual);
    var total := supply as real;
    if sumOthers > total {
      var scaled := TruncateScaled(d.over, raws, total, sumOthers, residual);
      return scaled[..];
    }
    var out := Truncate(d.over, raws, residual);
    ghost var words := out[..];
    var sum := SumExcept(out[..], residual);
    out[residual] := Wrap(supply as int - sum as int);
    assert out[..] == words[residual := Wrap(supply as int - sum as int)];
    return out[..];
  }

  /** Scale every price but the residual one down to the supply and truncate it. */
  method TruncateScaled(over: real -> U64, raws: seq<real>, total: real, sumOthers: real, residual: nat)
    returns (out: array<U64>)
    requires NonNegative(raws) && residual < |raws| && raws[residual] == 0.0
    requires total >= 0.0 && sumOthers > 0.0
    ensures fresh(out) && out[..] == Words(over, Scale(raws, total / sumOthers))
  {
    var scale := total / sumOthers;
    out := new U64[|raws|](_ => 0);
    for i := 0 to |raws|
      invariant forall j :: 0 <= j < i ==> out[j] == Words(over, Scale(raws, scale))[j]
      invariant forall j :: i <= j < |raws| ==> out[j] == 0
    {
      MulNonNegative(raws[i], total, sumOthers);
      assert Scale(raws, scale)[i] == raws[i] * scale;
      if i != residual {
        out[i] := ToWord(over, raws[i] * scale);
      }
    }
  }

  /** Truncate every price but the residual one. */
  method Truncate(over: real -> U64, raws: seq<real>, residual: nat) returns (out: array<U64>)
    requires NonNegative(raws) && residual < |raws| && raws[residual] == 0.0
    ensures fresh(out) && out[..] == Words(over, raws)
  {
    out := new U64[|raws|](_ => 0);
    for i := 0 to |raws|
      invariant forall j :: 0 <= j < i ==> out[j] == Words(over, raws)[j]
      invariant forall j :: i <= j < |raws| ==> out[j] == 0
    {
      if i != residual {
        out[i] := ToWord(over, raws[i]);
      }
    }
  }

  lemma MulNonNegative(x: real, total: real, sum: real)
    requires x >= 0.0 && total >= 0.0 && sum > 0.0
    ensures x * (total / sum) >= 0.0
    ensures x == 0.0 ==> x * (total / sum) == 0.0
  {
    assert total / sum >= 0.0;
  }

  /** Price every address but the residual one at the fixed rate. */
  method PriceAtHeight(d: Draws, addrs: seq<Bytes>, chainId: nat, height: nat, residual: nat)
    returns (prices: seq<real>, sumOthers: real)
    requires Positive(d) && addrs != [] && residual == Residual(d, addrs)
    ensures prices == Priced(d, addrs, chainId, height) && sumOthers == SumReal(prices)
    ensures NonNegative(prices) && |prices| == |addrs| && prices[residual] == 0.0
  {
    var rate := ExchangeRate(d, addrs, chainId);
    PricedNonNegative(d, addrs, chainId, height);
    prices, sumOthers := PriceOthers(d, addrs, rate, height, residual);
  }

  /** Price every address but the residual one. */
  method PriceOthers(d: Draws, addrs: seq<Bytes>, rate: real, height: nat, residual: nat)
    returns (prices: seq<real>, sumOthers: real)
    requires addrs != [] && residual == Residual(d, addrs)
    ensures prices == PricedAt(d, addrs, rate, height)
    ensures sumOthers == SumReal(prices)
  {
    var raws := [];
    sumOthers := 0.0;
    for i := 0 to |addrs|
      invariant |raws| == i
      invariant forall j :: 0 <= j < i ==> raws[j] == PriceAt(d, addrs, rate, height, j)
      invariant sumOthers == SumReal(raws)
    {
      var price := 0.0;
      if i != residual {
        price := RawValue(d, addrs[i], height) * rate;
      }
      assert price == PriceAt(d, addrs, rate, height, i);
      SumRealSnoc(raws, price);
      raws := raws + [price];
      sumOthers := sumOthers + price;
    }
    prices := raws;
  }

  lemma AddNext(xs: seq<real>, i: nat)
    requires i < |xs|
    ensures SumReal(xs[..i + 1]) == SumReal(xs[..i]) + xs[i]
  {
    assert xs[..i + 1] == xs[..i] + [xs[i]];
    SumRealSnoc(xs[..i], xs[i]);
  }

  /** Add up all the words but the residual one. */
  method SumExcept(out: seq<U64>, residual: nat) returns (sum: U64)
    ensures sum == Wrap(SumBut(out, residual))
  {
    sum := 0;
    for i := 0 to |out|
      invariant sum == Wrap(SumBut(out[..i], residual))
    {
      assert out[..i + 1][..i] == out[..i];
      if i != residual {
        WrapAdd(SumBut(out[..i], residual), out[i]);
        sum := Wrap(sum as int + out[i] as int);
      }
    }
    assert out[..|out|] == out;
  }

  /** Position of the first occurrence of a, or |addrs|. */
  function FirstIndex(addrs: seq<Bytes>, a: Bytes): (i: nat)
    ensures i <= |addrs|
    ensures i < |addrs| ==> addrs[i] == a
    ensures forall j :: 0 <= j < i ==> addrs[j] != a
  {
    if addrs == [] || addrs[0] == a then 0 else 1 + FirstIndex(addrs[1..], a)
  }

  method BalanceAt(d: Draws, a: Bytes, addrs: seq<Bytes>, chainId: nat, height: nat) returns (balance: U64)
    requires Positive(d)
    ensures balance == var i := FirstIndex(addrs, a);
                       if i < |addrs| then Balances(d, addrs, chainId, height)[i] else 0
  {
    var balances := SnapshotBalancesAt(d, addrs, chainId, height);
    for i := 0 to |addrs|
      invariant forall j :: 0 <= j < i ==> addrs[j] != a
    {
      if addrs[i] == a {
        assert i == FirstIndex(addrs, a);
        return balances[i];
      }
    }
    return 0;
  }

}
