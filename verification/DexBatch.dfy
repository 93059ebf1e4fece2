/**
 * What one batch of dex operations does to the value of a pool: the prices,
 * burns and payouts of `applyBatchWithdrawals`, the credits of
 * `applyBatchOrders` and `applyBatchDeposits`.
 */
module DexBatch {
  import opened Uint64
  import opened Aggregates
  import opened Bytes

  datatype LpEntry = LpEntry(address: Bytes, points: U64)

  datatype PoolVal = PoolVal(amount: U64, points: seq<LpEntry>, total: U64)

  datatype LimitOrder = LimitOrder(amountForSale: U64)

  datatype Deposit = Deposit(address: Bytes, amount: U64)

  datatype Withdrawal = Withdrawal(address: Bytes, percent: U64)

  datatype WithdrawResult = WithdrawResult(localAmount: U64, pointsBurned: U64)

  /** The library's answers to products that do not fit, see `SafeMulDiv`. */
  type Overflow = (U64, U64, U64) -> U64

  // ---------------------------------------------------------------- columns

  function Points(es: seq<LpEntry>): seq<int> {
    seq(|es|, i requires 0 <= i < |es| => es[i].points)
  }

  function Sales(os: seq<LimitOrder>): seq<int> {
    seq(|os|, i requires 0 <= i < |os| => os[i].amountForSale)
  }

  function Amounts(ds: seq<Deposit>): seq<int> {
    seq(|ds|, i requires 0 <= i < |ds| => ds[i].amount)
  }

  /** The points a deposit is granted: a tenth of its amount. */
  function Share(d: Deposit): U64 {
    d.amount / 10
  }

  function Shares(ds: seq<Deposit>): seq<int> {
    seq(|ds|, i requires 0 <= i < |ds| => Share(ds[i]))
  }

  function Granted(ds: seq<Deposit>): seq<LpEntry> {
    seq(|ds|, i requires 0 <= i < |ds| => LpEntry(ds[i].address, Share(ds[i])))
  }

  function Paid(rs: seq<WithdrawResult>): seq<int> {
    seq(|rs|, i requires 0 <= i < |rs| => rs[i].localAmount)
  }

  function Burned(rs: seq<WithdrawResult>): seq<int> {
    seq(|rs|, i requires 0 <= i < |rs| => rs[i].pointsBurned)
  }

  lemma GrantedPoints(ds: seq<Deposit>)
    ensures Points(Granted(ds)) == Shares(ds)
  {}

  lemma PointsConcat(es: seq<LpEntry>, fs: seq<LpEntry>)
    ensures Sum(Points(es + fs)) == Sum(Points(es)) + Sum(Points(fs))
  {
    assert Points(es + fs) == Points(es) + Points(fs);
    SumConcat(Points(es), Points(fs));
  }

  // --------------------------------------------------------------- deposits

  function PostOrders(hold: PoolVal, os: seq<LimitOrder>): PoolVal {
    hold.(amount := Wrap(hold.amount + Sum(Sales(os))))
  }

  function PostDeposits(liq: PoolVal, ds: seq<Deposit>): PoolVal {
    PoolVal(Wrap(liq.amount + Sum(Amounts(ds))),
            liq.points + Granted(ds),
            Wrap(liq.total + Sum(Shares(ds))))
  }

  /** What is left in a holding pool once it has covered each deposit it still can. */
  function HoldingLeft(held: U64, ds: seq<Deposit>): U64 {
    if ds == [] then held else
      var left := HoldingLeft(held, ds[..|ds| - 1]);
      var d := ds[|ds| - 1];
      if left >= d.amount then left - d.amount else left
  }

  /** True when the holding pool pays for the i-th deposit of the batch. */
  predicate Covers(held: U64, ds: seq<Deposit>, i: nat)
    requires i < |ds|
  {
    HoldingLeft(held, ds[..i]) >= ds[i].amount
  }

  function Uncovered(held: U64, ds: seq<Deposit>): seq<int> {
    seq(|ds|, i requires 0 <= i < |ds| => if Covers(held, ds, i) then 0 else ds[i].amount)
  }

  /** The holding pool pays exactly for the deposits it covers and for nothing else. */
  lemma {:induction false} HoldingPaysForCovered(held: U64, ds: seq<Deposit>)
    ensures held - HoldingLeft(held, ds) == Sum(Amounts(ds)) - Sum(Uncovered(held, ds))
  {
    if ds != [] {
      var init, d := ds[..|ds| - 1], ds[|ds| - 1];
      HoldingPaysForCovered(held, init);
      assert forall i :: 0 <= i < |init| ==> init[..i] == ds[..i];
      assert Amounts(ds) == Amounts(init) + [d.amount];
      assert Uncovered(held, ds)
          == Uncovered(held, init) + [if Covers(held, ds, |ds| - 1) then 0 else d.amount];
      SumSnoc(Amounts(init), d.amount);
      SumSnoc(Uncovered(held, init), if Covers(held, ds, |ds| - 1) then 0 else d.amount);
    }
  }

  // ------------------------------------------------------------ withdrawals

  /** Points by address: a later entry for an address replaces an earlier one. */
  function LastPoints(es: seq<LpEntry>): map<Bytes, U64> {
    if es == [] then map[] else
      LastPoints(es[..|es| - 1])[es[|es| - 1].address := es[|es| - 1].points]
  }

  /** The points a map holds for an address, zero when it has none. */
  function Lookup(points: map<Bytes, U64>, a: Bytes): U64 {
    if a in points then points[a] else 0
  }

  /** Points burned out of `points` by a withdrawal of the given percentage. */
  function Burn(over: Overflow, points: U64, percent: U64): (burn: U64)
    ensures burn <= points
    ensures percent >= 100 ==> burn == points
    ensures points == 0 ==> burn == 0
  {
    var share := if percent > 100 then 100 else percent;
    var burn := SafeMulDiv(over, points, share, 100);
    if burn > points then points else burn
  }

  /** Points the address has left after the whole batch ws, having had start. */
  function PointsLeft(over: Overflow, start: map<Bytes, U64>, ws: seq<Withdrawal>, a: Bytes): U64 {
    if ws == [] then Lookup(start, a) else
      var left := PointsLeft(over, start, ws[..|ws| - 1], a);
      var w := ws[|ws| - 1];
      if w.address == a then left - Burn(over, left, w.percent) else left
  }

  function BurnAt(over: Overflow, start: map<Bytes, U64>, ws: seq<Withdrawal>, i: nat): U64
    requires i < |ws|
  {
    Burn(over, PointsLeft(over, start, ws[..i], ws[i].address), ws[i].percent)
  }

  /** A pool that has no points or no money answers every withdrawal with nothing. */
  predicate Dry(pool: PoolVal) {
    pool.total == 0 || pool.amount == 0
  }

  function ResultAt(over: Overflow, pool: PoolVal, ws: seq<Withdrawal>, i: nat): WithdrawResult
    requires i < |ws| && !Dry(pool)
  {
    var burn := BurnAt(over, LastPoints(pool.points), ws, i);
    WithdrawResult(SafeMulDiv(over, pool.amount, burn, pool.total), burn)
  }

  function Results(over: Overflow, pool: PoolVal, ws: seq<Withdrawal>): (rs: seq<WithdrawResult>)
    ensures |rs| == |ws|
  {
    if Dry(pool) then seq(|ws|, _ => WithdrawResult(0, 0))
    else seq(|ws|, i requires 0 <= i < |ws| => ResultAt(over, pool, ws, i))
  }

  /** Position of the first entry of the address, or |es| when it has none. */
  function FirstEntry(es: seq<LpEntry>, a: Bytes): (i: nat)
    ensures i <= |es|
    ensures i < |es| ==> es[i].address == a
    ensures forall j :: 0 <= j < i ==> es[j].address != a
  {
    if es == [] then 0
    else if es[0].address == a then 0
    else 1 + FirstEntry(es[1..], a)
  }

  /** True when the address's entry and the pool's total both hold n points. */
  predicate CanRemove(pool: PoolVal, a: Bytes, n: U64) {
    var i := FirstEntry(pool.points, a);
    i < |pool.points| && n <= pool.points[i].points && n <= pool.total
  }

  /**
   * The library's RemovePoints, whose body is not part of the repository:
   * the points leave the address's entry and the total, or nothing changes
   * when there are not enough of them.
   */
  function RemovePoints(pool: PoolVal, a: Bytes, n: U64): PoolVal {
    if CanRemove(pool, a, n) then
      var i := FirstEntry(pool.points, a);
      pool.(points := pool.points[i := LpEntry(a, pool.points[i].points - n)],
            total := pool.total - n)
    else pool
  }

  /** The second pass of the batch: the points of every non-zero burn are removed. */
  function RemoveBurned(pool: PoolVal, ws: seq<Withdrawal>, rs: seq<WithdrawResult>): PoolVal
    requires |ws| == |rs|
  {
    if ws == [] then pool else
      var prev := RemoveBurned(pool, ws[..|ws| - 1], rs[..|rs| - 1]);
      var burn := rs[|rs| - 1].pointsBurned;
      if burn == 0 then prev else RemovePoints(prev, ws[|ws| - 1].address, burn)
  }

  function PaidOut(amount: U64, rs: seq<WithdrawResult>): U64 {
    var totalWithdrawn := Wrap(Sum(Paid(rs)));
    if amount > totalWithdrawn then amount - totalWithdrawn else 0
  }

  function PostWithdrawals(over: Overflow, pool: PoolVal, ws: seq<Withdrawal>): PoolVal {
    if Dry(pool) then pool else
      var rs := Results(over, pool, ws);
      RemoveBurned(pool.(amount := PaidOut(pool.amount, rs)), ws, rs)
  }

}
