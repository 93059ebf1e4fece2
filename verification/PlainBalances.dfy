/**
 * What the closed-form ledger gives every address, in plain numbers: stated on the
 * weights, activity and noise factors drawn and on the two supply curves alone.
 */
module PlainBalances {
  import opened Uint64
  import opened Aggregates
  import opened Bytes
  import opened Reals
  import opened ClosedForm
  import opened ClosedFormLaws

  /** The supply grows by 700 units a block on chain 1, and by 35 on any other. */
  function PlainSupply(chainId: nat, height: nat): nat {
    if chainId == 1 then 1_400_000_000 + 700 * height else 70_000_000 + 35 * height
  }

  lemma SupplyInPlain(d: Draws, chainId: nat, height: nat)
    requires PlainSupply(chainId, height) < MOD
    ensures TotalSupplyAt(d, chainId, height) == PlainSupply(chainId, height)
  {
    CurveInPlain(chainId, height);
  }

  lemma CurveInPlain(chainId: nat, height: nat)
    ensures SupplyCurve(chainId, height) == PlainSupply(chainId, height) as real
  {
    var h := height as real;
    if chainId == 1 {
      assert BASE_SUPPLY * 1.0 * (1.0 + INFLATION_RATE * h) == 1_400_000_000.0 + 700.0 * h;
      assert (1_400_000_000 + 700 * height) as real == 1_400_000_000.0 + 700.0 * h;
    } else {
      assert BASE_SUPPLY * 0.05 * (1.0 + INFLATION_RATE * h) == 70_000_000.0 + 35.0 * h;
      assert (70_000_000 + 35 * height) as real == 70_000_000.0 + 35.0 * h;
    }
  }

  /** The r-th address is the first of those with the largest weight. */
  ghost predicate IsTreasury(d: Draws, addrs: seq<Bytes>, r: nat) {
    && r < |addrs|
    && (forall j :: 0 <= j < |addrs| ==> d.base(addrs[j]) <= d.base(addrs[r]))
    && forall j :: 0 <= j < r ==> d.base(addrs[j]) < d.base(addrs[r])
  }

  function WeightSum(d: Draws, addrs: seq<Bytes>): real {
    SumReal(seq(|addrs|, i requires 0 <= i < |addrs| => d.base(addrs[i])))
  }

  /** An address's share of the genesis supply: by its weight, times its noise factor at
      the heights at which it is active. */
  function Share(d: Draws, addrs: seq<Bytes>, chainId: nat, height: nat, i: nat): real
    requires i < |addrs|
  {
    if WeightSum(d, addrs) == 0.0 then 0.0 else
      d.base(addrs[i]) * (if d.active(addrs[i], height) then d.noise(addrs[i], height) else 1.0)
      * (PlainSupply(chainId, 0) as real / WeightSum(d, addrs))
  }

  /** What all but the treasury would like to be given. */
  function OtherShares(d: Draws, addrs: seq<Bytes>, chainId: nat, height: nat, r: nat): seq<real> {
    seq(|addrs|, i requires 0 <= i < |addrs| => if i == r then 0.0 else Share(d, addrs, chainId, height, i))
  }

  lemma PricesAreShares(d: Draws, addrs: seq<Bytes>, chainId: nat, height: nat, r: nat)
    requires Positive(d) && IsTreasury(d, addrs, r)
    ensures Residual(d, addrs) == r
    ensures Priced(d, addrs, chainId, height) == OtherShares(d, addrs, chainId, height, r)
  {
    var bases := Bases(d, addrs);
    FirstMaxUnique(bases, r);
    SupplyInPlain(d, chainId, 0);
    PricedNonNegative(d, addrs, chainId, 0);
    assert bases == seq(|addrs|, i requires 0 <= i < |addrs| => d.base(addrs[i]));
    forall i | 0 <= i < |addrs| && i != r
      ensures PriceAt(d, addrs, Rate(d, addrs, chainId), height, i) == Share(d, addrs, chainId, height, i)
    {
      PriceIsShare(d, addrs, chainId, height, i);
    }
  }

  lemma PriceIsShare(d: Draws, addrs: seq<Bytes>, chainId: nat, height: nat, i: nat)
    requires i < |addrs| && i != Residual(d, addrs) && SumReal(Bases(d, addrs)) > 0.0
    requires WeightSum(d, addrs) == SumReal(Bases(d, addrs))
    requires TotalSupplyAt(d, chainId, 0) == PlainSupply(chainId, 0)
    ensures PriceAt(d, addrs, Rate(d, addrs, chainId), height, i) == Share(d, addrs, chainId, height, i)
  {}

  /** The supply is too small for the shares of the others. */
  ghost predicate FallsShort(d: Draws, addrs: seq<Bytes>, chainId: nat, height: nat, r: nat) {
    SumReal(OtherShares(d, addrs, chainId, height, r)) > PlainSupply(chainId, height) as real
  }

  /** The fallback is taken exactly when the others' shares exceed the supply. */
  lemma FallbackIffShort(d: Draws, addrs: seq<Bytes>, chainId: nat, height: nat, r: nat)
    requires Positive(d) && |addrs| >= 2 && IsTreasury(d, addrs, r) && PlainSupply(chainId, height) < MOD
    ensures Fallback(d, addrs, chainId, height) <==> FallsShort(d, addrs, chainId, height, r)
  {
    PricesAreShares(d, addrs, chainId, height, r);
    SupplyInPlain(d, chainId, height);
  }

  /** The floor of a real. */
  ghost predicate IsFloor(n: int, x: real) {
    n as real <= x < n as real + 1.0
  }

  /** Nobody on the list, or one address alone. */
  lemma FewAddresses(d: Draws, a: Bytes, chainId: nat, height: nat)
    requires PlainSupply(chainId, height) < MOD
    ensures Balances(d, [], chainId, height) == []
    ensures Balances(d, [a], chainId, height) == [PlainSupply(chainId, height)]
  {
    SupplyInPlain(d, chainId, height);
  }

  /** While the supply suffices, everybody but the treasury holds the floor of its share,
      and the treasury the rest of the supply. */
  lemma BalancesInPlain(d: Draws, addrs: seq<Bytes>, chainId: nat, height: nat, r: nat)
    requires Positive(d) && |addrs| >= 2 && IsTreasury(d, addrs, r) && PlainSupply(chainId, height) < MOD
    requires !FallsShort(d, addrs, chainId, height, r)
    ensures forall i :: 0 <= i < |addrs| && i != r ==>
              IsFloor(Balances(d, addrs, chainId, height)[i], Share(d, addrs, chainId, height, i))
    ensures Sum(Balances(d, addrs, chainId, height)) == PlainSupply(chainId, height)
  {
    FallbackIffShort(d, addrs, chainId, height, r);
    PricesAreShares(d, addrs, chainId, height, r);
    SupplyInPlain(d, chainId, height);
    ResidualBalance(d, addrs, chainId, height);
    Conservation(d, addrs, chainId, height);
    FloorsInPlain(OtherShares(d, addrs, chainId, height, r));
  }

  lemma FloorsInPlain(xs: seq<real>)
    ensures forall i :: 0 <= i < |xs| ==> IsFloor(Floors(xs)[i], xs[i])
  {}

  lemma ScaledBalances(d: Draws, addrs: seq<Bytes>, chainId: nat, height: nat)
    requires Positive(d) && Fallback(d, addrs, chainId, height)
    ensures Balances(d, addrs, chainId, height) == Floors(ScaledDown(d, addrs, chainId, height))
  {
    ScaledDownSum(d, addrs, chainId, height);
    WordsAreFloors(d.over, ScaledDown(d, addrs, chainId, height), TotalSupplyAt(d, chainId, height));
  }

  lemma ScaledInPlain(d: Draws, addrs: seq<Bytes>, chainId: nat, height: nat, shares: seq<real>, supply: real)
    requires Fallback(d, addrs, chainId, height)
    requires Priced(d, addrs, chainId, height) == shares && TotalSupplyAt(d, chainId, height) as real == supply
    ensures SumReal(shares) > supply >= 0.0
    ensures ScaledDown(d, addrs, chainId, height) == Scale(shares, supply / SumReal(shares))
  {}

  /** Otherwise the treasury holds nothing, and everybody else the floor of its share
      scaled down to what the supply allows. */
  lemma FallbackInPlain(d: Draws, addrs: seq<Bytes>, chainId: nat, height: nat, r: nat)
    requires Positive(d) && |addrs| >= 2 && IsTreasury(d, addrs, r) && PlainSupply(chainId, height) < MOD
    requires FallsShort(d, addrs, chainId, height, r)
    ensures Balances(d, addrs, chainId, height)[r] == 0
    ensures var shares, supply := OtherShares(d, addrs, chainId, height, r), PlainSupply(chainId, height) as real;
            && SumReal(shares) > supply >= 0.0
            && forall i :: 0 <= i < |addrs| ==>
                 IsFloor(Balances(d, addrs, chainId, height)[i], Scale(shares, supply / SumReal(shares))[i])
  {
    var shares, supply := OtherShares(d, addrs, chainId, height, r), PlainSupply(chainId, height) as real;
    FallbackIffShort(d, addrs, chainId, height, r);
    PricesAreShares(d, addrs, chainId, height, r);
    SupplyInPlain(d, chainId, height);
    FallbackShortfall(d, addrs, chainId, height);
    ScaledBalances(d, addrs, chainId, height);
    ScaledInPlain(d, addrs, chainId, height, shares, supply);
    FloorsInPlain(Scale(shares, supply / SumReal(shares)));
  }

}
