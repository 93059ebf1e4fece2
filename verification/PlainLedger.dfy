/**
 * What the operations of the ledger do to every pool, in plain numbers: each law is
 * stated on the pools before and after and on the operation alone.
 */
module PlainLedger {
  import opened Uint64
  import opened Aggregates
  import opened Bytes
  import opened DexBatch
  import opened Withdrawals
  import opened LedgerRuns

  /** The pools hold the same ids, and all but the one in question the same values. */
  ghost predicate OnlyChanges(before: Pools, after: Pools, ids: set<U64>) {
    after.Keys == before.Keys && forall k :: k in before && k !in ids ==> after[k] == before[k]
  }

  /** Beginning a block pays 1000 into pool 1, if there is one. */
  lemma BlockPaysThousand(cfg: Config, ps: Pools, height: U64)
    ensures var after := Step(cfg, ps, BeginBlock(height));
            && OnlyChanges(ps, after, {1})
            && (1 in ps ==> && after[1].amount == (ps[1].amount + 1000) % MOD
                            && after[1].points == ps[1].points && after[1].total == ps[1].total)
  {
    if 1 in ps { WrapIsRemainder(ps[1].amount + 1000); }
  }

  /** Orders pay what they sell into the holding pool. */
  lemma OrdersArePaidIn(cfg: Config, ps: Pools, os: seq<LimitOrder>)
    ensures var after, id := Step(cfg, ps, Orders(os)), cfg.holdingId;
            && OnlyChanges(ps, after, {id})
            && (id in ps ==>
                  && after[id].amount == (ps[id].amount + Sum(Map((o: LimitOrder) => o.amountForSale as int, os))) % MOD
                  && after[id].points == ps[id].points && after[id].total == ps[id].total)
  {
    assert Sales(os) == Map((o: LimitOrder) => o.amountForSale as int, os);
    if cfg.holdingId in ps { WrapIsRemainder(ps[cfg.holdingId].amount + Sum(Sales(os))); }
  }

  /** A tenth of the amount, rounded down. */
  ghost predicate IsTenth(points: int, amount: int) {
    10 * points <= amount < 10 * points + 10
  }

  /** Deposits pay their amounts into the liquidity pool, which grants each depositor, in
      order, a tenth of its amount in points of its own entry and of the total. */
  lemma DepositsAreGranted(cfg: Config, ps: Pools, ds: seq<Deposit>)
    requires cfg.holdingId != cfg.liquidityId
    ensures OnlyChanges(ps, Step(cfg, ps, Deposits(ds)), {cfg.holdingId, cfg.liquidityId})
    ensures cfg.liquidityId in ps ==>
              var was, liq := ps[cfg.liquidityId], Step(cfg, ps, Deposits(ds))[cfg.liquidityId];
              var n := |was.points|;
              && liq.amount == (was.amount + Sum(Map((d: Deposit) => d.amount as int, ds))) % MOD
              && |liq.points| == n + |ds| && liq.points[..n] == was.points
              && (forall i :: 0 <= i < |ds| ==>
                    liq.points[n + i].address == ds[i].address && IsTenth(liq.points[n + i].points, ds[i].amount))
              && liq.total == (was.total + Sum(Points(liq.points[n..]))) % MOD
  {
    assert Amounts(ds) == Map((d: Deposit) => d.amount as int, ds);
    GrantedPoints(ds);
    if cfg.liquidityId in ps {
      var was, liq := ps[cfg.liquidityId], Step(cfg, ps, Deposits(ds))[cfg.liquidityId];
      assert liq.points[|was.points|..] == Granted(ds);
      WrapIsRemainder(was.amount + Sum(Amounts(ds)));
      WrapIsRemainder(was.total + Sum(Shares(ds)));
    }
  }

  /** Some deposits of the batch, with zero in the place of the others. */
  function Chosen(ds: seq<Deposit>, covered: seq<bool>): seq<int>
    requires |covered| == |ds|
  {
    seq(|ds|, i requires 0 <= i < |ds| => if covered[i] then ds[i].amount else 0)
  }

  /** The holding pool pays for some of the deposits, and leaves out none that it could
      pay for with what it has left in the end. */
  lemma DepositsAreCovered(cfg: Config, ps: Pools, ds: seq<Deposit>) returns (covered: seq<bool>)
    requires cfg.holdingId != cfg.liquidityId && cfg.holdingId in ps
    ensures |covered| == |ds|
    ensures cfg.holdingId in Step(cfg, ps, Deposits(ds))
    ensures var was, hold := ps[cfg.holdingId], Step(cfg, ps, Deposits(ds))[cfg.holdingId];
            && hold.amount == was.amount - Sum(Chosen(ds, covered))
            && (forall i :: 0 <= i < |ds| && !covered[i] ==> hold.amount < ds[i].amount)
            && hold.points == was.points && hold.total == was.total
  {
    var held := ps[cfg.holdingId].amount;
    covered := seq(|ds|, i requires 0 <= i < |ds| => Covers(held, ds, i));
    PaysForChosen(held, ds, covered);
    forall i | 0 <= i < |ds| && !covered[i] ensures HoldingLeft(held, ds) < ds[i].amount {
      ShrinksFrom(held, ds, i);
    }
  }

  lemma {:induction false} PaysForChosen(held: U64, ds: seq<Deposit>, covered: seq<bool>)
    requires |covered| == |ds| && forall i :: 0 <= i < |ds| ==> covered[i] == Covers(held, ds, i)
    ensures HoldingLeft(held, ds) == held - Sum(Chosen(ds, covered))
  {
    if ds != [] {
      var n := |ds| - 1;
      forall i | 0 <= i < n ensures covered[..n][i] == Covers(held, ds[..n], i) {
        assert ds[..n][..i] == ds[..i];
      }
      PaysForChosen(held, ds[..n], covered[..n]);
      assert Chosen(ds, covered) == Chosen(ds[..n], covered[..n]) + [if covered[n] then ds[n].amount else 0];
      SumSnoc(Chosen(ds[..n], covered[..n]), if covered[n] then ds[n].amount else 0);
    }
  }

  lemma {:induction false} ShrinksFrom(held: U64, ds: seq<Deposit>, i: nat)
    requires i <= |ds|
    ensures HoldingLeft(held, ds) <= HoldingLeft(held, ds[..i])
  {
    if i == |ds| {
      assert ds[..i] == ds;
    } else {
      ShrinksFrom(held, ds[..|ds| - 1], i);
      assert ds[..|ds| - 1][..i] == ds[..i];
    }
  }

  // ------------------------------------------------------------ withdrawals

  /** What the withdrawals before the i-th have burned of its address's points. */
  function BurnedBefore(ws: seq<Withdrawal>, rs: seq<WithdrawResult>, i: nat, a: Bytes): int
    requires i <= |ws| == |rs|
  {
    if i == 0 then 0 else
      BurnedBefore(ws, rs, i - 1, a) + if ws[i - 1].address == a then rs[i - 1].pointsBurned else 0
  }

  /** The floor of a percentage, percentages over 100 counting as 100. */
  ghost predicate IsPercentage(burned: int, held: int, percent: U64) {
    var share := if percent > 100 then 100 else percent;
    100 * burned <= held * share < 100 * burned + 100
  }

  lemma BurnIsPercentage(over: Overflow, held: U64, percent: U64)
    ensures IsPercentage(Burn(over, held, percent), held, percent)
  {
    BurnIsFloor(over, held, percent);
  }

  /** Every pool with money and points answers every withdrawal: it burns the percentage
      of the points that the address's last entry and its earlier withdrawals have left. */
  lemma WithdrawalBurns(over: Overflow, pool: PoolVal, ws: seq<Withdrawal>, i: nat) returns (held: U64)
    requires pool.amount > 0 && pool.total > 0 && i < |ws|
    ensures |Results(over, pool, ws)| == |ws|
    ensures held == Lookup(LastPoints(pool.points), ws[i].address)
                    - BurnedBefore(ws, Results(over, pool, ws), i, ws[i].address)
    ensures IsPercentage(Results(over, pool, ws)[i].pointsBurned, held, ws[i].percent)
  {
    held := PointsLeft(over, LastPoints(pool.points), ws[..i], ws[i].address);
    LeftAfterBurns(over, pool, ws, i, ws[i].address);
    BurnIsPercentage(over, held, ws[i].percent);
  }

  /** And it pays the share of the money, rounded down, that these are of the total. */
  lemma WithdrawalPays(over: Overflow, pool: PoolVal, ws: seq<Withdrawal>, i: nat)
    requires pool.amount > 0 && pool.total > 0 && i < |ws|
    ensures var r := Results(over, pool, ws)[i];
            && r.pointsBurned == BurnAt(over, LastPoints(pool.points), ws, i)
            && (pool.amount * r.pointsBurned / pool.total < MOD
                ==> r.localAmount == pool.amount * r.pointsBurned / pool.total)
  {}

  lemma {:induction false} LeftAfterBurns(over: Overflow, pool: PoolVal, ws: seq<Withdrawal>, i: nat, a: Bytes)
    requires pool.amount > 0 && pool.total > 0 && i <= |ws|
    ensures var start := LastPoints(pool.points);
            PointsLeft(over, start, ws[..i], a) == Lookup(start, a) - BurnedBefore(ws, Results(over, pool, ws), i, a)
    decreases i
  {
    if i > 0 {
      LeftAfterBurns(over, pool, ws, i - 1, a);
      WithdrawalPays(over, pool, ws, i - 1);
      assert ws[..i][..i - 1] == ws[..i - 1];
    }
  }

  /** A pool without money or points answers nothing and stays as it is. */
  lemma EmptyPoolAnswersNothing(over: Overflow, pool: PoolVal, ws: seq<Withdrawal>)
    requires pool.amount == 0 || pool.total == 0
    ensures Results(over, pool, ws) == seq(|ws|, _ => WithdrawResult(0, 0))
    ensures PostWithdrawals(over, pool, ws) == pool
  {}

  /** Withdrawals change no pool but the liquidity pool, whose amount loses what was paid,
      down to zero at worst. */
  lemma WithdrawalsArePaidOut(cfg: Config, ps: Pools, ws: seq<Withdrawal>)
    ensures OnlyChanges(ps, Step(cfg, ps, Withdraws(ws)), {cfg.liquidityId})
    ensures cfg.liquidityId in ps && Sum(Paid(Results(cfg.over, ps[cfg.liquidityId], ws))) < MOD ==>
              var was, paid := ps[cfg.liquidityId], Sum(Paid(Results(cfg.over, ps[cfg.liquidityId], ws)));
              Step(cfg, ps, Withdraws(ws))[cfg.liquidityId].amount == if paid < was.amount then was.amount - paid else 0
  {
    if cfg.liquidityId in ps {
      var was, rs := ps[cfg.liquidityId], Results(cfg.over, ps[cfg.liquidityId], ws);
      SumNonNegative(Paid(rs));
      if Dry(was) {
        AllZero(Paid(rs));
      } else {
        RemoveBurnedKeepsAmount(was.(amount := PaidOut(was.amount, rs)), ws, rs);
      }
    }
  }

  // ---------------------------------------------------------------- genesis

  /** The three pools a chain starts with. */
  lemma GenesisAmounts(cfg: Config, chainId: U64, a: Bytes, r0: nat, r1: nat, r2: nat)
    requires r0 < 500_000 && r1 < 200_000 && r2 < 300_000
    requires chainId != cfg.holdingId && chainId != cfg.liquidityId && cfg.holdingId != cfg.liquidityId
    ensures var ps := GenesisPools(cfg, chainId, a, r0, r1, r2);
            && ps.Keys == {chainId, cfg.holdingId, cfg.liquidityId}
            && ps[chainId] == PoolVal(5_000_000 + r0, [], 0)
            && ps[cfg.holdingId] == PoolVal(2_000_000 + r1, [], 0)
            && ps[cfg.liquidityId] == PoolVal(3_000_000 + r2, [LpEntry(a, 100)], 100)
            && PoolSum(ps) == 10_000_000 + r0 + r1 + r2
  {
    var ps := GenesisPools(cfg, chainId, a, r0, r1, r2);
    var amounts: map<U64, int> := PoolAmounts(ps);
    var one: map<U64, int> := map[chainId := 5_000_000 + r0];
    var two := one[cfg.holdingId := 2_000_000 + r1];
    MapSumUpdate<U64>(map[], chainId, 5_000_000 + r0);
    MapSumUpdate(one, cfg.holdingId, 2_000_000 + r1);
    MapSumUpdate(two, cfg.liquidityId, 3_000_000 + r2);
    assert map[][chainId := 5_000_000 + r0] == one;
    assert amounts == two[cfg.liquidityId := 3_000_000 + r2];
  }

}
