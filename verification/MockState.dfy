/** The mutable ledger: accounts, validators, order books and shared pool objects. */
module MockState {
  import opened Uint64
  import opened Aggregates
  import opened Bytes
  import opened DexBatch
  import opened LedgerRuns
  import opened Genesis
  import opened Sorting
  import opened Wrappers
  import Hex

  datatype ValidatorInfo = ValidatorInfo(
    addr: Bytes, pubKey: Bytes, stake: U64, paused: bool, delegate: bool, compound: bool,
    unstakingAt: U64, outputAddress: Bytes, netAddress: string, committees: seq<U64>)

  datatype Certificate = Certificate(
    view: View, recipients: seq<PaymentPercents>, numberOfSamples: U64, checkpoint: Checkpoint, blockHash: Bytes)

  /** The first two validators are paid 60 and 40 percent. */
  function Recipients(chainId: U64, vals: seq<ValidatorInfo>): seq<PaymentPercents>
    requires |vals| >= 2
  {
    [PaymentPercents(vals[0].addr, 60, chainId), PaymentPercents(vals[1].addr, 40, chainId)]
  }

  // ----------------------------------------------------- batch bookkeeping

  lemma SalesStep(hold: PoolVal, os: seq<LimitOrder>, i: nat)
    requires i < |os|
    ensures PostOrders(hold, os[..i + 1]).amount
         == Wrap(PostOrders(hold, os[..i]).amount + os[i].amountForSale)
  {
    assert Sales(os[..i + 1]) == Sales(os[..i]) + [os[i].amountForSale];
    SumSnoc(Sales(os[..i]), os[i].amountForSale);
    WrapAdd(hold.amount + Sum(Sales(os[..i])), os[i].amountForSale);
  }

  lemma DepositStep(liq: PoolVal, ds: seq<Deposit>, i: nat)
    requires i < |ds|
    ensures var before, d := PostDeposits(liq, ds[..i]), ds[i];
            PostDeposits(liq, ds[..i + 1])
              == PoolVal(Wrap(before.amount + d.amount),
                         before.points + [LpEntry(d.address, Share(d))],
                         Wrap(before.total + Share(d)))
  {
    var before, d := ds[..i], ds[i];
    assert Amounts(ds[..i + 1]) == Amounts(before) + [d.amount];
    assert Shares(ds[..i + 1]) == Shares(before) + [Share(d)];
    assert Granted(ds[..i + 1]) == Granted(before) + [LpEntry(d.address, Share(d))];
    SumSnoc(Amounts(before), d.amount);
    SumSnoc(Shares(before), Share(d));
    WrapAdd(liq.amount + Sum(Amounts(before)), d.amount);
    WrapAdd(liq.total + Sum(Shares(before)), Share(d));
    assert liq.points + Granted(before) + [LpEntry(d.address, Share(d))]
        == liq.points + (Granted(before) + [LpEntry(d.address, Share(d))]);
  }

  lemma PaidStep(rs: seq<WithdrawResult>, i: nat)
    requires i < |rs|
    ensures Wrap(Sum(Paid(rs[..i + 1]))) == Wrap(Wrap(Sum(Paid(rs[..i]))) + rs[i].localAmount)
  {
    assert Paid(rs[..i + 1]) == Paid(rs[..i]) + [rs[i].localAmount];
    SumSnoc(Paid(rs[..i]), rs[i].localAmount);
    WrapAdd(Sum(Paid(rs[..i])), rs[i].localAmount);
  }

  lemma DistinctIds(c: U64, a: U64, b: U64)
    requires a != b
    ensures Wrap(c + a) != Wrap(c + b)
  {}

  /** The map tracks what every address has left after the withdrawals ws. */
  ghost predicate Tracks(points: map<Bytes, U64>, over: Overflow, start: map<Bytes, U64>, ws: seq<Withdrawal>) {
    forall a :: Lookup(points, a) == PointsLeft(over, start, ws, a)
  }

  lemma TracksNext(points: map<Bytes, U64>, over: Overflow, start: map<Bytes, U64>, ws: seq<Withdrawal>, i: nat,
                   burn: U64)
    requires i < |ws| && Tracks(points, over, start, ws[..i])
    requires burn == Burn(over, Lookup(points, ws[i].address), ws[i].percent)
    ensures burn == BurnAt(over, start, ws, i)
    ensures var a := ws[i].address;
            Tracks(if burn > 0 then points[a := Lookup(points, a) - burn] else points, over, start, ws[..i + 1])
  {
    var a := ws[i].address;
    assert Lookup(points, a) == PointsLeft(over, start, ws[..i], a);
    assert ws[..i + 1][..i] == ws[..i];
    var next := if burn > 0 then points[a := Lookup(points, a) - burn] else points;
    forall b ensures Lookup(next, b) == PointsLeft(over, start, ws[..i + 1], b) {
      assert Lookup(points, b) == PointsLeft(over, start, ws[..i], b);
    }
  }

  lemma ResultStep(over: Overflow, liq: PoolVal, ws: seq<Withdrawal>, i: nat, burn: U64)
    requires i < |ws| && 0 < liq.amount && 0 < liq.total && burn == BurnAt(over, LastPoints(liq.points), ws, i)
    ensures Results(over, liq, ws)[i] == WithdrawResult(SafeMulDiv(over, liq.amount, burn, liq.total), burn)
  {}

  lemma OnlyOnePoolChanged(before: Pools, after: Pools, k: U64)
    requires after.Keys == before.Keys && k in before
    requires forall j :: j in before && j != k ==> after[j] == before[j]
    ensures after == before[k := after[k]]
  {}

  lemma DepositsPointwise(cfg: Config, before: Pools, ds: seq<Deposit>, after: Pools)
    requires cfg.holdingId != cfg.liquidityId && after.Keys == before.Keys
    requires cfg.liquidityId in before ==>
      after[cfg.liquidityId] == PostDeposits(before[cfg.liquidityId], ds)
    requires cfg.holdingId in before ==>
      after[cfg.holdingId] == before[cfg.holdingId].(amount := HoldingLeft(before[cfg.holdingId].amount, ds))
    requires forall k :: k in before && k != cfg.liquidityId && k != cfg.holdingId ==> after[k] == before[k]
    ensures after == TakeDeposits(cfg, before, ds)
  {}

  // ------------------------------------------------------ snapshot contents

  function MakeAccount(k: string, amount: U64): Account {
    Account(Hex.DecodeString(k), amount)
  }

  function AccountKey(a: Account): string {
    Hex.EncodeToString(a.address)
  }

  function MakeValidator(k: string, v: ValidatorInfo): Validator {
    Validator(v.addr, v.pubKey, v.netAddress, v.stake, v.committees, 0, v.unstakingAt,
              v.outputAddress, v.delegate, v.compound)
  }

  function ValidatorKey(v: Validator): string {
    Hex.EncodeToString(v.address)
  }

  function KeepInfo(k: string, v: ValidatorInfo): ValidatorInfo {
    v
  }

  function InfoKey(v: ValidatorInfo): string {
    Hex.EncodeToString(v.addr)
  }

  function MakeBook(chain: U64, orders: seq<SellOrder>): OrderBook {
    OrderBook(chain, orders)
  }

  /** The word x read as a signed integer, as Go's conversion to int does. */
  function Signed(x: U64): int {
    if x < MOD / 2 then x else x - MOD
  }

  function Unsigned(x: int): U64 {
    Wrap(x)
  }

  lemma SignedRoundTrip(x: U64)
    ensures Unsigned(Signed(x)) == x
  {
    WrapShift(x, -1);
    SmallWord(x);
  }

  ghost predicate AccountsOf(list: seq<Account>, m: map<string, U64>) {
    Lists(list, m, MakeAccount) && Sorted(list, ByKey(AccountKey))
  }

  ghost predicate ValidatorsOf(list: seq<Validator>, m: map<string, ValidatorInfo>) {
    Lists(list, m, MakeValidator) && Sorted(list, ByKey(ValidatorKey))
  }

  ghost predicate OrderedInfos(list: seq<ValidatorInfo>, m: map<string, ValidatorInfo>) {
    Lists(list, m, KeepInfo) && Sorted(list, ByKey(InfoKey)) && |list| == |m|
  }

  /** The books of the map, in the order of their chain ids read as signed. */
  ghost predicate BooksOf(list: seq<OrderBook>, m: map<U64, seq<SellOrder>>) {
    && Lists(list, m, MakeBook)
    && forall i, j :: 0 <= i < j < |list| ==> Signed(list[i].chainId) < Signed(list[j].chainId)
  }

  lemma KeysFromRange(es: seq<(U64, seq<SellOrder>)>, m: map<U64, seq<SellOrder>>, keys: seq<int>, sorted: seq<int>)
    requires RangeOf(es, m) && |keys| == |es| && SameElements(sorted, keys)
    requires forall j :: 0 <= j < |es| ==> keys[j] == Signed(es[j].0)
    ensures forall i :: 0 <= i < |sorted| ==>
      Unsigned(sorted[i]) in m && Signed(Unsigned(sorted[i])) == sorted[i]
  {
    forall i | 0 <= i < |sorted|
      ensures Unsigned(sorted[i]) in m && Signed(Unsigned(sorted[i])) == sorted[i]
    {
      assert sorted[i] in keys;
      var j :| 0 <= j < |keys| && keys[j] == sorted[i];
      SignedRoundTrip(es[j].0);
    }
  }

  lemma BooksListed(es: seq<(U64, seq<SellOrder>)>, m: map<U64, seq<SellOrder>>, keys: seq<int>, sorted: seq<int>,
                    books: seq<OrderBook>)
    requires RangeOf(es, m) && |keys| == |es| && SameElements(sorted, keys) && |books| == |sorted|
    requires forall j :: 0 <= j < |es| ==> keys[j] == Signed(es[j].0)
    requires forall i, j :: 0 <= i < j < |sorted| ==> sorted[i] < sorted[j]
    requires forall i :: 0 <= i < |sorted| ==>
      Unsigned(sorted[i]) in m && Signed(Unsigned(sorted[i])) == sorted[i]
      && books[i] == OrderBook(Unsigned(sorted[i]), m[Unsigned(sorted[i])])
    ensures BooksOf(books, m)
  {
    forall i | 0 <= i < |books| ensures MadeFrom(books[i], m, MakeBook) {
      assert books[i] == MakeBook(Unsigned(sorted[i]), m[Unsigned(sorted[i])]);
    }
    forall k | k in m ensures MakeBook(k, m[k]) in books {
      var i := SortedPosition(es, m, keys, sorted, k);
      assert books[i] == MakeBook(k, m[k]);
    }
  }

  /** Where the chain id k ends up among the sorted ids. */
  lemma SortedPosition(es: seq<(U64, seq<SellOrder>)>, m: map<U64, seq<SellOrder>>, keys: seq<int>,
                       sorted: seq<int>, k: U64) returns (i: nat)
    requires RangeOf(es, m) && |keys| == |es| && SameElements(sorted, keys) && k in m
    requires forall j :: 0 <= j < |es| ==> keys[j] == Signed(es[j].0)
    ensures i < |sorted| && Unsigned(sorted[i]) == k
  {
    assert (k, m[k]) in es;
    var j :| 0 <= j < |es| && es[j] == (k, m[k]);
    assert keys[j] in sorted;
    i :| 0 <= i < |sorted| && sorted[i] == keys[j];
    SignedRoundTrip(k);
  }

  function Ids(list: seq<Pool>): seq<U64> {
    seq(|list|, i requires 0 <= i < |list| => list[i].id)
  }

  /** Only the liquidity pool keeps its points in a snapshot. */
  function Cloned(liquidityId: U64, id: U64, p: PoolVal): PoolVal {
    if id == liquidityId then p else PoolVal(p.amount, [], 0)
  }

  ghost predicate ClonesOf(list: seq<Pool>, liquidityId: U64, ps: Pools)
    reads list
  {
    && (forall i :: 0 <= i < |list| ==>
          list[i].id in ps && list[i].Value() == Cloned(liquidityId, list[i].id, ps[list[i].id]))
    && (forall k :: k in ps ==> k in Ids(list))
    && (forall i, j :: 0 <= i < j < |list| ==> list[i].id != list[j].id)
  }

  lemma IdsOfRange(es: seq<(U64, Pool)>, m: map<U64, Pool>, list: seq<Pool>)
    requires RangeOf(es, m) && |list| == |es| && forall i :: 0 <= i < |es| ==> list[i].id == es[i].0
    ensures forall k :: k in m ==> k in Ids(list)
    ensures forall i, j :: 0 <= i < j < |list| ==> list[i].id != list[j].id
  {
    forall k | k in m ensures k in Ids(list) {
      assert (k, m[k]) in es;
      var i :| 0 <= i < |es| && es[i] == (k, m[k]);
      assert Ids(list)[i] == k;
    }
  }

  ghost predicate PoolsOf(list: seq<Pool>, liquidityId: U64, ps: Pools)
    reads list
  {
    && ClonesOf(list, liquidityId, ps)
    && forall i, j :: 0 <= i < j < |list| ==> list[i].id < list[j].id
  }

  // ----------------------------------------------------------------- supply

  function Stakes(m: map<string, ValidatorInfo>): map<string, int> {
    map k | k in m :: m[k].stake
  }

  /** Everything the ledger holds: accounts, stakes and pools. */
  ghost function Holdings(accounts: map<string, U64>, validators: map<string, ValidatorInfo>, ps: Pools): int {
    MapSum(accounts) + MapSum(Stakes(validators)) + PoolSum(ps)
  }

  /** The total supply: everything the ledger holds, as a word. */
  ghost function TotalSupply(accounts: map<string, U64>, validators: map<string, ValidatorInfo>, ps: Pools): U64 {
    Wrap(Holdings(accounts, validators, ps))
  }

  /** The supply of a snapshot whose pool list is given. */
  ghost function SupplyOf(accounts: map<string, U64>, validators: map<string, ValidatorInfo>, ps: Pools,
                          pools: seq<Pool>): Supply {
    var staked := Wrap(MapSum(Stakes(validators)));
    Supply(TotalSupply(accounts, validators, ps), staked, staked / 4, pools, pools)
  }

  /** Everything the ledger holds, read off a snapshot's lists. */
  ghost function ListedHoldings(accounts: map<string, U64>, validators: seq<Validator>, pools: seq<Pool>): int
    reads pools
  {
    MapSum(accounts) + Sum(StakesOf(validators)) + Sum(AmountsOf(pools))
  }

  lemma AddThree(held: int, pooled: int, stakes: int, total: U64, staked: U64)
    requires total == Wrap(Wrap(held) + pooled) && staked == Wrap(stakes)
    ensures Wrap(total as int + staked as int) == Wrap(held + stakes + pooled)
  {
    WrapAdd(held, pooled);
    WrapSum(held + pooled, stakes);
    assert held + pooled + stakes == held + stakes + pooled;
  }

  function StakesOf(vs: seq<Validator>): seq<int> {
    seq(|vs|, i requires 0 <= i < |vs| => vs[i].stakedAmount)
  }

  function AmountsOf(list: seq<Pool>): seq<int>
    reads list
  {
    seq(|list|, i requires 0 <= i < |list| reads list => list[i].amount)
  }

  lemma StakesOfRange(es: seq<(string, ValidatorInfo)>, m: map<string, ValidatorInfo>)
    requires RangeOf(es, m)
    ensures Sum(StakesOf(Made(es, MakeValidator))) == MapSum(Stakes(m))
  {
    var stakes := seq(|es|, i requires 0 <= i < |es| => (es[i].0, es[i].1.stake as int));
    forall k | k in Stakes(m) ensures (k, Stakes(m)[k]) in stakes {
      assert (k, m[k]) in es;
      var i :| 0 <= i < |es| && es[i] == (k, m[k]);
      assert stakes[i] == (k, Stakes(m)[k]);
    }
    RangeSum(stakes, Stakes(m));
    var list := Made(es, MakeValidator);
    forall i | 0 <= i < |es| ensures Values(stakes)[i] == StakesOf(list)[i] {
      assert list[i] == MakeValidator(es[i].0, es[i].1);
    }
    assert Values(stakes) == StakesOf(list);
  }

  lemma AmountsOfClones(list: seq<Pool>, liquidityId: U64, ps: Pools)
    requires ClonesOf(list, liquidityId, ps)
    ensures Sum(AmountsOf(list)) == PoolSum(ps)
  {
    var column := AmountsOf(list);
    var amounts := seq(|list|, i requires 0 <= i < |list| && i < |column| => (list[i].id, column[i]));
    forall k | k in PoolAmounts(ps) ensures (k, PoolAmounts(ps)[k]) in amounts {
      assert k in Ids(list);
      var i :| 0 <= i < |list| && Ids(list)[i] == k;
      assert amounts[i] == (k, PoolAmounts(ps)[k]);
    }
    RangeSum(amounts, PoolAmounts(ps));
    assert Values(amounts) == AmountsOf(list);
  }

  lemma AddUp(xs: seq<int>, i: nat, total: U64, was: int)
    requires i < |xs| && total == Wrap(was + Sum(xs[..i]))
    ensures Wrap(total + xs[i]) == Wrap(was + Sum(xs[..i + 1]))
  {
    assert xs[..i + 1] == xs[..i] + [xs[i]];
    SumSnoc(xs[..i], xs[i]);
    WrapAdd(was + Sum(xs[..i]), xs[i]);
  }

  class State {
    const chainId: U64
    const over: Overflow
    const holdingId: U64
    const liquidityId: U64
    var height: U64
    var accounts: map<string, U64>
    var validators: map<string, ValidatorInfo>
    var orderBooks: map<U64, seq<SellOrder>>
    const pools: map<U64, Pool>
    var nonSigners: seq<NonSigner>
    var doubleSign: seq<DoubleSigner>
    var events: seq<Event>
    const params: Params
    const committeeSet: Committees
    const sha: string -> Bytes

    /** Accounts and validators are filed under the hexadecimal form of their
        address, pools under their id. */
    ghost predicate Valid()
      reads this
    {
      && (forall k :: k in accounts ==> Hex.EncodeToString(Hex.DecodeString(k)) == k)
      && (forall k :: k in validators ==> Hex.EncodeToString(validators[k].addr) == k)
      && (forall k :: k in pools ==> pools[k].id == k)
      && holdingId != liquidityId
    }

    function Cfg(): Config {
      Config(over, holdingId, liquidityId)
    }

    function PoolValues(): Pools
      reads pools.Values
    {
      map k | k in pools :: pools[k].Value()
    }

    method ApplyBatchOrders(orders: seq<LimitOrder>)
      requires Valid()
      modifies pools.Values
      ensures Valid()
      ensures PoolValues() == TakeOrders(Cfg(), old(PoolValues()), orders)
    {
      ghost var before := PoolValues();
      assert Sales(orders[..0]) == [];
      for i := 0 to |orders|
        invariant holdingId in pools ==>
          pools[holdingId].Value() == PostOrders(before[holdingId], orders[..i])
        invariant forall k :: k in pools && k != holdingId ==> pools[k].Value() == before[k]
      {
        if holdingId in pools {
          SalesStep(before[holdingId], orders, i);
          var pool := pools[holdingId];
          pool.amount := Wrap(pool.amount + orders[i].amountForSale);
        }
      }
      assert orders[..|orders|] == orders;
    }

    /** One turn of the deposit loop. */
    method ApplyDeposit(d: Deposit)
      requires Valid()
      modifies pools.Values
      ensures liquidityId in pools ==>
        var was := old(pools[liquidityId].Value());
        pools[liquidityId].Value()
          == PoolVal(Wrap(was.amount + d.amount), was.points + [LpEntry(d.address, Share(d))],
                     Wrap(was.total + Share(d)))
      ensures holdingId in pools ==>
        var was := old(pools[holdingId].Value());
        pools[holdingId].Value()
          == was.(amount := if was.amount >= d.amount then was.amount - d.amount else was.amount)
      ensures forall k :: k in pools && k != liquidityId && k != holdingId
                     ==> pools[k].Value() == old(pools[k].Value())
    {
      if liquidityId in pools {
        pools[liquidityId].CreditDeposit(d);
      }
      if holdingId in pools && pools[holdingId].amount >= d.amount {
        pools[holdingId].SetAmount(pools[holdingId].amount - d.amount);
      }
    }

    method ApplyBatchDeposits(deposits: seq<Deposit>)
      requires Valid()
      modifies pools.Values
      ensures Valid()
      ensures PoolValues() == TakeDeposits(Cfg(), old(PoolValues()), deposits)
    {
      ghost var before := PoolValues();
      assert Amounts(deposits[..0]) == [] && Shares(deposits[..0]) == [] && Granted(deposits[..0]) == [];
      assert liquidityId in before ==> before[liquidityId].points + [] == before[liquidityId].points;
      for i := 0 to |deposits|
        invariant liquidityId in pools ==>
          pools[liquidityId].Value() == PostDeposits(before[liquidityId], deposits[..i])
        invariant holdingId in pools ==>
          pools[holdingId].Value()
            == before[holdingId].(amount := HoldingLeft(before[holdingId].amount, deposits[..i]))
        invariant forall k :: k in pools && k != liquidityId && k != holdingId ==> pools[k].Value() == before[k]
      {
        ApplyDeposit(deposits[i]);
        if liquidityId in pools { DepositStep(before[liquidityId], deposits, i); }
        assert deposits[..i + 1][..i] == deposits[..i];
      }
      assert deposits[..|deposits|] == deposits;
      DepositsPointwise(Cfg(), before, deposits, PoolValues());
    }

    method BurnFor(points: U64, w: Withdrawal) returns (burn: U64)
      ensures burn == Burn(over, points, w.percent)
    {
      var percent := if w.percent > 100 then 100 else w.percent;
      burn := SafeMulDiv(over, points, percent, 100);
      if burn > points {
        burn := points;
      }
    }

    method PointsByAddress(points: seq<LpEntry>) returns (pointsByAddress: map<Bytes, U64>)
      ensures pointsByAddress == LastPoints(points)
    {
      pointsByAddress := map[];
      for i := 0 to |points|
        invariant pointsByAddress == LastPoints(points[..i])
      {
        assert points[..i + 1][..i] == points[..i];
        pointsByAddress := pointsByAddress[points[i].address := points[i].points];
      }
      assert points[..|points|] == points;
    }

    /** The first pass: price every withdrawal against the pool as it stood
        before the batch, tracking the points each address has left. */
    method PriceWithdrawals(liq: PoolVal, withdrawals: seq<Withdrawal>)
      returns (results: seq<WithdrawResult>, totalWithdrawn: U64)
      requires 0 < liq.amount && 0 < liq.total
      ensures results == Results(over, liq, withdrawals)
      ensures totalWithdrawn == Wrap(Sum(Paid(results)))
    {
      var pointsByAddress: map<Bytes, U64> := PointsByAddress(liq.points);
      ghost var start, expected := pointsByAddress, Results(over, liq, withdrawals);
      results, totalWithdrawn := [], 0;
      for i := 0 to |withdrawals|
        invariant Tracks(pointsByAddress, over, start, withdrawals[..i])
        invariant results == expected[..i]
        invariant totalWithdrawn == Wrap(Sum(Paid(expected[..i])))
      {
        var w := withdrawals[i];
        var points := Lookup(pointsByAddress, w.address);
        var burn := BurnFor(points, w);
        TracksNext(pointsByAddress, over, start, withdrawals, i, burn);
        if burn > 0 {
          pointsByAddress := pointsByAddress[w.address := points - burn];
        }
        var withdraw := SafeMulDiv(over, liq.amount, burn, liq.total);
        ResultStep(over, liq, withdrawals, i, burn);
        PaidStep(expected, i);
        totalWithdrawn := Wrap(totalWithdrawn + withdraw);
        results := results + [WithdrawResult(withdraw, burn)];
      }
      assert expected[..|withdrawals|] == expected;
    }

    /** The second pass: take every burn out of the pool's entries. */
    method RemoveBurnedPoints(pool: Pool, withdrawals: seq<Withdrawal>, results: seq<WithdrawResult>)
      requires |withdrawals| == |results|
      modifies pool
      ensures pool.Value() == RemoveBurned(old(pool.Value()), withdrawals, results)
    {
      for i := 0 to |withdrawals|
        invariant pool.Value() == RemoveBurned(old(pool.Value()), withdrawals[..i], results[..i])
      {
        var burn := results[i].pointsBurned;
        assert withdrawals[..i + 1][..i] == withdrawals[..i] && results[..i + 1][..i] == results[..i];
        if burn != 0 {
          pool.RemovePoints(withdrawals[i].address, burn);
        }
      }
      assert withdrawals[..|withdrawals|] == withdrawals && results[..|results|] == results;
    }

    /** Pay the batch out of the pool, down to zero at worst, and remove its burns. */
    method Settle(pool: Pool, withdrawals: seq<Withdrawal>, results: seq<WithdrawResult>, totalWithdrawn: U64)
      requires |withdrawals| == |results| && totalWithdrawn == Wrap(Sum(Paid(results)))
      modifies pool
      ensures var was := old(pool.Value());
              pool.Value() == RemoveBurned(was.(amount := PaidOut(was.amount, results)), withdrawals, results)
    {
      if pool.amount > totalWithdrawn {
        pool.SetAmount(pool.amount - totalWithdrawn);
      } else {
        pool.SetAmount(0);
      }
      RemoveBurnedPoints(pool, withdrawals, results);
    }

    method ApplyBatchWithdrawals(withdrawals: seq<Withdrawal>) returns (results: seq<WithdrawResult>)
      requires Valid()
      modifies pools.Values
      ensures Valid()
      ensures PoolValues() == PayWithdrawals(Cfg(), old(PoolValues()), withdrawals)
      ensures results == if liquidityId in pools
                         then Results(over, old(PoolValues())[liquidityId], withdrawals)
                         else seq(|withdrawals|, _ => WithdrawResult(0, 0))
    {
      ghost var before := PoolValues();
      results := seq(|withdrawals|, _ => WithdrawResult(0, 0));
      if liquidityId !in pools {
        return;
      }
      var pool := pools[liquidityId];
      assert pool.Value() == before[liquidityId];
      if pool.totalPoolPoints == 0 || pool.amount == 0 {
        OnlyOnePoolChanged(before, before, liquidityId);
        return;
      }
      var totalWithdrawn;
      results, totalWithdrawn := PriceWithdrawals(pool.Value(), withdrawals);
      Settle(pool, withdrawals, results, totalWithdrawn);
      assert pool.Value() == PostWithdrawals(over, before[liquidityId], withdrawals);
      forall k | k in pools && k != liquidityId ensures PoolValues()[k] == before[k] {
        assert pools[k] != pool;
      }
      OnlyOnePoolChanged(before, PoolValues(), liquidityId);
    }

    /** Accounts, validators and pools filed under their keys; a later element
        replaces an earlier one with the same key. */
    constructor (chainId: U64, over: Overflow, holdingAddend: U64, liquidityAddend: U64,
                 accounts: seq<Account>, validators: seq<Validator>, pools: seq<Pool>, params: Params,
                 orderBooks: seq<OrderBook>, committees: Committees, sha: string -> Bytes)
      requires holdingAddend != liquidityAddend
      ensures Valid()
      ensures this.chainId == chainId && this.over == over && this.sha == sha
      ensures this.params == params && committeeSet == committees
      ensures holdingId == Wrap(chainId + holdingAddend) && liquidityId == Wrap(chainId + liquidityAddend)
      ensures this.accounts == Load(accounts, AccountKey, AmountOf)
      ensures this.validators == Load(validators, ValidatorKey, InfoOf)
      ensures this.pools == Load(pools, IdOf, Itself)
      ensures this.orderBooks == Load(orderBooks, ChainOf, OrdersOf)
      ensures height == 0 && nonSigners == [] && doubleSign == [] && events == []
    {
      this.chainId, this.over, this.sha := chainId, over, sha;
      this.params, committeeSet := params, committees;
      holdingId, liquidityId := Wrap(chainId + holdingAddend), Wrap(chainId + liquidityAddend);
      height, nonSigners, doubleSign, events := 0, [], [], [];
      var accMap := LoadAll(accounts, AccountKey, AmountOf);
      var valMap := LoadAll(validators, ValidatorKey, InfoOf);
      var poolMap := LoadAll(pools, IdOf, Itself);
      var books := LoadAll(orderBooks, ChainOf, OrdersOf);
      this.accounts, this.validators, this.pools, this.orderBooks := accMap, valMap, poolMap, books;
      DistinctIds(chainId, holdingAddend, liquidityAddend);
      LoadedFrom(accounts, AccountKey, AmountOf);
      LoadedFrom(validators, ValidatorKey, InfoOf);
      LoadedFrom(pools, IdOf, Itself);
      forall k | k in accMap ensures Hex.EncodeToString(Hex.DecodeString(k)) == k {
        assert ComesFrom(accounts, AccountKey, AmountOf, k, accMap[k]);
        var i :| 0 <= i < |accounts| && AccountKey(accounts[i]) == k;
        Hex.RoundTrip(accounts[i].address);
      }
    }

    method ValidatorsOrdered() returns (vals: seq<ValidatorInfo>)
      requires Valid()
      ensures OrderedInfos(vals, validators)
    {
      var es := Range(validators);
      vals := [];
      for i := 0 to |es|
        invariant vals == Made(es[..i], KeepInfo)
      {
        MadeStep(es, i, KeepInfo);
        vals := vals + [es[i].1];
      }
      assert es[..|es|] == es;
      SortedRange(es, validators, KeepInfo, InfoKey);
      RangeSize(es, validators);
      vals := Sort(vals, ByKey(InfoKey));
    }

    function SlashEvent(height: U64, address: Bytes): Event {
      Event(Slash(100), height, "BEGIN_BLOCK", chainId, height, BlockHash(sha, height), address)
    }

    /** The inflation of a block, paid into pool 1. */
    method FundRewards()
      requires Valid()
      modifies pools.Values
      ensures Valid()
      ensures PoolValues() == Inflate(old(PoolValues()))
    {
      ghost var before := PoolValues();
      if 1 in pools {
        pools[1].SetAmount(Wrap(pools[1].amount + 1_000));
        forall k | k in pools && k != 1 ensures PoolValues()[k] == before[k] {
          assert pools[k] != pools[1];
        }
        OnlyOnePoolChanged(before, PoolValues(), 1);
      }
    }

    /**
     * Begin a block. None stands for the index panic of the certificate, which
     * the source builds from the first two validators; the state has been
     * changed by then.
     */
    method BeginBlock(height: U64) returns (qc: Option<Certificate>, ghost vals: seq<ValidatorInfo>)
      requires Valid()
      modifies this`height, this`events, this`doubleSign, this`nonSigners, pools.Values
      ensures Valid() && this.height == height
      ensures PoolValues() == Inflate(old(PoolValues()))
      ensures OrderedInfos(vals, validators)
      ensures nonSigners == if |vals| < 2 then old(nonSigners) else
                [NonSigner(vals[0].addr, height % 3 + 1), NonSigner(vals[1].addr, height % 2 + 1)]
      ensures events == if height % 25 != 0 || vals == [] then [] else
                [Event(Slash(100), height, "BEGIN_BLOCK", chainId, height, BlockHash(sha, height), vals[0].addr)]
      ensures doubleSign == if height % 30 == 0 && |vals| > 1
                            then [DoubleSigner(vals[1].addr, [Wrap(height - 1), height])] else []
      ensures qc == if |vals| < 2 then None else
                Some(Certificate(
                  View(1, chainId, height, height, 1, PrecommitVote),
                  [PaymentPercents(vals[0].addr, 60, chainId), PaymentPercents(vals[1].addr, 40, chainId)],
                  height, Checkpoint(height, BlockHash(sha, height)), BlockHash(sha, height)))
    {
      FundRewards();
      qc, vals := RecordBlock(height);
    }

    /** The evidence of a block (who did not sign, who is slashed, who signed
        twice) and its certificate. */
    method RecordBlock(height: U64) returns (qc: Option<Certificate>, ghost vals: seq<ValidatorInfo>)
      requires Valid()
      modifies this`height, this`events, this`doubleSign, this`nonSigners
      ensures this.height == height
      ensures OrderedInfos(vals, validators)
      ensures nonSigners == if |vals| < 2 then old(nonSigners) else
                [NonSigner(vals[0].addr, height % 3 + 1), NonSigner(vals[1].addr, height % 2 + 1)]
      ensures events == if height % 25 != 0 || vals == [] then [] else
                [Event(Slash(100), height, "BEGIN_BLOCK", chainId, height, BlockHash(sha, height), vals[0].addr)]
      ensures doubleSign == if height % 30 == 0 && |vals| > 1
                            then [DoubleSigner(vals[1].addr, [Wrap(height - 1), height])] else []
      ensures qc == if |vals| < 2 then None else
                Some(Certificate(
                  View(1, chainId, height, height, 1, PrecommitVote),
                  [PaymentPercents(vals[0].addr, 60, chainId), PaymentPercents(vals[1].addr, 40, chainId)],
                  height, Checkpoint(height, BlockHash(sha, height)), BlockHash(sha, height)))
    {
      this.height := height;
      events, doubleSign := [], [];
      var ordered := ValidatorsOrdered();
      vals := ordered;
      if |ordered| >= 2 {
        nonSigners := [NonSigner(ordered[0].addr, height % 3 + 1), NonSigner(ordered[1].addr, height % 2 + 1)];
      }
      if height % 25 == 0 && |ordered| > 0 {
        events := events + [SlashEvent(height, ordered[0].addr)];
      }
      if height % 30 == 0 && |ordered| > 1 {
        doubleSign := [DoubleSigner(ordered[1].addr, [Wrap(height - 1), height])];
      }
      if |ordered| < 2 {
        return None, vals;
      }
      var hash := BlockHash(sha, height);
      qc := Some(Certificate(ViewOf(chainId, height), Recipients(chainId, ordered), height,
                             Checkpoint(height, hash), hash));
    }

    /** The supply of the ledger's accounts and the given validators and pools. */
    method ComputeSupply(validators: seq<Validator>, pools: seq<Pool>) returns (supply: Supply)
      ensures supply.staked == Wrap(Sum(StakesOf(validators)))
      ensures supply.total == Wrap(ListedHoldings(accounts, validators, pools))
      ensures supply.delegatedOnly == supply.staked / 4
      ensures supply.committeeStaked == supply.committeeDelegatedOnly == pools
    {
      var es := Range(accounts);
      RangeSum(es, accounts);
      var held := AddAll(Values(es), 0);
      var staked := AddAll(StakesOf(validators), 0);
      var total := AddAll(AmountsOf(pools), held);
      AddThree(MapSum(accounts), Sum(AmountsOf(pools)), Sum(StakesOf(validators)), total, staked);
      supply := Supply(Wrap(total as int + staked as int), staked, staked / 4, pools, pools);
    }

    method ClonePools() returns (clones: seq<Pool>)
      requires Valid()
      ensures forall i :: 0 <= i < |clones| ==> fresh(clones[i])
      ensures ClonesOf(clones, liquidityId, PoolValues())
    {
      var es := Range(pools);
      ghost var ps := PoolValues();
      clones := [];
      for i := 0 to |es|
        invariant |clones| == i && ps == PoolValues()
        invariant forall j :: 0 <= j < i ==> fresh(clones[j])
        invariant forall j :: 0 <= j < i ==> clones[j].id == es[j].0
        invariant forall j :: 0 <= j < i ==> clones[j].Value() == Cloned(liquidityId, es[j].0, ps[es[j].0])
      {
        var clone := ClonePool(es[i].1);
        clones := clones + [clone];
      }
      IdsOfRange(es, pools, clones);
    }

    method ClonePool(p: Pool) returns (clone: Pool)
      ensures fresh(clone) && clone.id == p.id && clone.Value() == Cloned(liquidityId, p.id, p.Value())
    {
      clone := new Pool(p.id, p.amount, p.points, p.totalPoolPoints);
      if clone.id != liquidityId {
        clone.points, clone.totalPoolPoints := [], 0;
      }
    }

    method SortedBooks() returns (books: seq<OrderBook>)
      ensures BooksOf(books, orderBooks)
    {
      var es := Range(orderBooks);
      var keys := [];
      for i := 0 to |es|
        invariant |keys| == i
        invariant forall j :: 0 <= j < i ==> keys[j] == Signed(es[j].0)
      {
        keys := keys + [Signed(es[i].0)];
      }
      var sorted := SortInts(keys);
      KeysFromRange(es, orderBooks, keys, sorted);
      books := [];
      for i := 0 to |sorted|
        invariant |books| == i
        invariant forall j :: 0 <= j < i ==>
          books[j] == OrderBook(Unsigned(sorted[j]), orderBooks[Unsigned(sorted[j])])
      {
        books := books + [OrderBook(Unsigned(sorted[i]), orderBooks[Unsigned(sorted[i])])];
      }
      BooksListed(es, orderBooks, keys, sorted, books);
    }

    method SortedAccounts() returns (list: seq<Account>)
      requires Valid()
      ensures AccountsOf(list, accounts)
    {
      var es := Range(accounts);
      list := [];
      for i := 0 to |es|
        invariant list == Made(es[..i], MakeAccount)
      {
        MadeStep(es, i, MakeAccount);
        list := list + [Account(Hex.DecodeString(es[i].0), es[i].1)];
      }
      assert es[..|es|] == es;
      SortedRange(es, accounts, MakeAccount, AccountKey);
      list := Sort(list, ByKey(AccountKey));
    }

    /** The validators of the snapshot, sorted, and their stakes added up. */
    method SortedValidators() returns (list: seq<Validator>, unsorted: seq<Validator>)
      requires Valid()
      ensures ValidatorsOf(list, validators)
      ensures Sum(StakesOf(unsorted)) == MapSum(Stakes(validators))
    {
      var es := Range(validators);
      list := [];
      for i := 0 to |es|
        invariant list == Made(es[..i], MakeValidator)
      {
        MadeStep(es, i, MakeValidator);
        list := list + [MakeValidator(es[i].0, es[i].1)];
      }
      assert es[..|es|] == es;
      SortedRange(es, validators, MakeValidator, ValidatorKey);
      StakesOfRange(es, validators);
      unsorted := list;
      list := Sort(list, ByKey(ValidatorKey));
    }

    method SupplyOfLists(validatorList: seq<Validator>, poolList: seq<Pool>) returns (supply: Supply)
      requires Valid() && ClonesOf(poolList, liquidityId, PoolValues())
      requires Sum(StakesOf(validatorList)) == MapSum(Stakes(validators))
      ensures supply == SupplyOf(accounts, validators, PoolValues(), poolList)
    {
      supply := ComputeSupply(validatorList, poolList);
      AmountsOfClones(poolList, liquidityId, PoolValues());
      assert ListedHoldings(accounts, validatorList, poolList) == Holdings(accounts, validators, PoolValues());
    }

    /** Clone the pools, compute the supply from the clones, then sort them: the lists of
        the supply are the same slice and are sorted with it. */
    method PoolsAndSupply(validatorList: seq<Validator>) returns (poolList: seq<Pool>, supply: Supply)
      requires Valid()
      requires Sum(StakesOf(validatorList)) == MapSum(Stakes(validators))
      ensures forall i :: 0 <= i < |poolList| ==> fresh(poolList[i])
      ensures PoolsOf(poolList, liquidityId, PoolValues())
      ensures supply == SupplyOf(accounts, validators, PoolValues(), poolList)
    {
      var clones := ClonePools();
      supply := SupplyOfLists(validatorList, clones);
      poolList := SortPools(clones, liquidityId, PoolValues());
      supply := supply.(committeeStaked := poolList, committeeDelegatedOnly := poolList);
    }

    method Snapshot() returns (g: GenesisState)
      requires Valid()
      ensures forall i :: 0 <= i < |g.pools| ==> fresh(g.pools[i])
      ensures PoolsOf(g.pools, liquidityId, PoolValues())
      ensures AccountsOf(g.accounts, accounts)
      ensures ValidatorsOf(g.validators, validators)
      ensures BooksOf(g.orderBooks, orderBooks)
      ensures g.supply == SupplyOf(accounts, validators, PoolValues(), g.pools)
      ensures g.time == BlockTime(height) && g.nonSigners == nonSigners && g.doubleSigners == doubleSign
      ensures g.params == params && g.committees == committeeSet && g.retiredCommittees == RETIRED_COMMITTEES
    {
      var accountList := SortedAccounts();
      var validatorList, unsorted := SortedValidators();
      var books := SortedBooks();
      var poolList, supply := PoolsAndSupply(unsorted);
      g := GenesisState(BlockTime(height), poolList, accountList, validatorList,
                        nonSigners, doubleSign, books, params, supply, committeeSet, RETIRED_COMMITTEES);
    }
  }

  // ------------------------------------------------------- loading and sorting

  /** Add a column of words to a running total, one after the other. */
  method AddAll(xs: seq<int>, start: U64) returns (total: U64)
    ensures total == Wrap(start + Sum(xs))
  {
    total := start;
    for i := 0 to |xs|
      invariant total == Wrap(start + Sum(xs[..i]))
    {
      AddUp(xs, i, total, start);
      total := Wrap(total + xs[i]);
    }
    assert xs[..|xs|] == xs;
  }

  function AmountOf(a: Account): U64 {
    a.amount
  }

  function InfoOf(v: Validator): ValidatorInfo {
    ValidatorInfo(v.address, v.publicKey, v.stakedAmount, false, v.delegate, v.compound,
                  v.unstakingHeight, v.output, v.netAddress, v.committees)
  }

  function IdOf(p: Pool): U64 {
    p.id
  }

  predicate IdLess(p: Pool, q: Pool) {
    p.id < q.id
  }

  function Itself(p: Pool): Pool {
    p
  }

  function ChainOf(b: OrderBook): U64 {
    b.chainId
  }

  function OrdersOf(b: OrderBook): seq<SellOrder> {
    b.orders
  }

  /** File every element of a list under its key. */
  method LoadAll<K(==), V, T>(list: seq<T>, key: T -> K, value: T -> V) returns (m: map<K, V>)
    ensures m == Load(list, key, value)
  {
    m := map[];
    for i := 0 to |list|
      invariant m == Load(list[..i], key, value)
    {
      assert list[..i + 1][..i] == list[..i];
      m := m[key(list[i]) := value(list[i])];
    }
    assert list[..|list|] == list;
  }

  ghost predicate ComesFrom<K, V, T>(list: seq<T>, key: T -> K, value: T -> V, k: K, v: V) {
    exists i :: 0 <= i < |list| && key(list[i]) == k && value(list[i]) == v
  }

  /** Every entry of a loaded map comes from the list. */
  lemma {:induction false} LoadedFrom<K, V, T>(list: seq<T>, key: T -> K, value: T -> V)
    ensures forall k :: k in Load(list, key, value) ==> ComesFrom(list, key, value, k, Load(list, key, value)[k])
  {
    if list != [] {
      var n := |list| - 1;
      LoadedFrom(list[..n], key, value);
      var m := Load(list, key, value);
      forall k | k in m ensures ComesFrom(list, key, value, k, m[k]) {
        if k == key(list[n]) {
          assert key(list[n]) == k && value(list[n]) == m[k];
        } else {
          assert k in Load(list[..n], key, value) && Load(list[..n], key, value)[k] == m[k];
          assert ComesFrom(list[..n], key, value, k, m[k]);
          var init := list[..n];
          var i :| 0 <= i < |init| && key(init[i]) == k && value(init[i]) == m[k];
          assert key(list[i]) == k && value(list[i]) == m[k];
        }
      }
    }
  }

  lemma {:induction false} RangeSize<K, V>(es: seq<(K, V)>, m: map<K, V>)
    requires RangeOf(es, m)
    ensures |es| == |m|
    decreases |es|
  {
    if es == [] {
      assert m == map[];
    } else {
      RangeWithoutLast(es, m);
      RangeSize(es[..|es| - 1], m - {es[|es| - 1].0});
      assert m.Keys == (m - {es[|es| - 1].0}).Keys + {es[|es| - 1].0};
      assert |m| == |m.Keys|;
    }
  }

  method SortInts(keys: seq<int>) returns (sorted: seq<int>)
    requires forall i, j :: 0 <= i < j < |keys| ==> keys[i] != keys[j]
    ensures SameElements(sorted, keys)
    ensures forall i, j :: 0 <= i < j < |sorted| ==> sorted[i] < sorted[j]
  {
    var less := (x: int, y: int) => x < y;
    SortSorts(keys, less);
    sorted := Sort(keys, less);
  }

  method SortPools(list: seq<Pool>, ghost liquidityId: U64, ghost ps: Pools) returns (sorted: seq<Pool>)
    requires ClonesOf(list, liquidityId, ps)
    ensures PoolsOf(sorted, liquidityId, ps) && SameElements(sorted, list)
  {
    assert forall i, j :: 0 <= i < j < |list| ==> IdLess(list[i], list[j]) || IdLess(list[j], list[i]);
    SortSorts(list, IdLess);
    sorted := Sort(list, IdLess);
    SortedClones(list, sorted, liquidityId, ps);
  }

  lemma SortedClones(list: seq<Pool>, sorted: seq<Pool>, liquidityId: U64, ps: Pools)
    requires ClonesOf(list, liquidityId, ps)
    requires Sorted(sorted, IdLess) && SameElements(sorted, list)
    ensures PoolsOf(sorted, liquidityId, ps)
  {
    forall k | k in ps ensures k in Ids(sorted) {
      assert k in Ids(list);
      var i :| 0 <= i < |list| && Ids(list)[i] == k;
      assert list[i] in sorted;
      var j :| 0 <= j < |sorted| && sorted[j] == list[i];
      assert Ids(sorted)[j] == k;
    }
    forall i, j | 0 <= i < j < |sorted| ensures sorted[i].id < sorted[j].id {
      assert IdLess(sorted[i], sorted[j]);
    }
    forall i | 0 <= i < |sorted|
      ensures sorted[i].id in ps && sorted[i].Value() == Cloned(liquidityId, sorted[i].id, ps[sorted[i].id])
    {
      assert sorted[i] in list;
    }
  }

}
