/**
 * Exactly which liquidity pools remove every burn of every withdrawal batch: those
 * whose first entries cover the price list, and whose total covers it as a whole.
 */
module RemovalLaw {
  import opened Aggregates
  import opened Bytes
  import opened DexBatch
  import opened Withdrawals
  import opened PointRemoval
  import opened Fairness
  import Sorting

  /** As long as removals succeed, the total loses everything burned. */
  lemma {:induction false} TotalWhileRemoved(over: Overflow, pool: PoolVal, ws: seq<Withdrawal>, k: nat)
    requires BatchRemoved(over, pool, ws) && k <= |ws|
    ensures BeforeRemoval(over, pool, ws, k).total == pool.total - Sum(Burned(Results(over, pool, ws))[..k])
    decreases k
  {
    if k > 0 {
      var burned := Burned(Results(over, pool, ws));
      TotalWhileRemoved(over, pool, ws, k - 1);
      TotalAfterRemoval(over, pool, ws, k - 1);
      SumOfPrefix(burned, k - 1);
    }
  }

  lemma TotalAfterRemoval(over: Overflow, pool: PoolVal, ws: seq<Withdrawal>, k: nat)
    requires k < |ws| && Removes(over, pool, ws, k)
    ensures BeforeRemoval(over, pool, ws, k + 1).total
         == BeforeRemoval(over, pool, ws, k).total - Results(over, pool, ws)[k].pointsBurned
  {
    var rs := Results(over, pool, ws);
    RemoveBurnedStep(pool.(amount := PaidOut(pool.amount, rs)), ws, rs, k);
  }

  /** When everybody withdraws everything, all the listed points are burned. */
  lemma EverybodyBurns(over: Overflow, pool: PoolVal) returns (ws: seq<Withdrawal>)
    requires 0 < pool.amount && 0 < pool.total
    ensures Sum(Burned(Results(over, pool, ws))) == MapSum(LastPoints(pool.points))
  {
    var es := Sorting.SomeRange<Bytes, int>(LastPoints(pool.points));
    ws := WithdrawAllOf(es);
    EverybodyAnswered(over, pool, es);
    var rs := Results(over, pool, ws);
    forall i | 0 <= i < |es| ensures Burned(rs)[i] == Sorting.Values(es)[i] {
      assert es[i].0 in LastPoints(pool.points) && LastPoints(pool.points)[es[i].0] == es[i].1;
    }
    assert Burned(rs) == Sorting.Values(es);
    Sorting.RangeSum(es, LastPoints(pool.points));
  }

  lemma BurnedFitsTotal(over: Overflow, pool: PoolVal, ws: seq<Withdrawal>)
    requires BatchRemoved(over, pool, ws)
    ensures Sum(Burned(Results(over, pool, ws))) <= pool.total
  {
    TotalWhileRemoved(over, pool, ws, |ws|);
    assert Burned(Results(over, pool, ws))[..|ws|] == Burned(Results(over, pool, ws));
  }

  /** A price list that exceeds the total cannot be removed as a whole. */
  lemma ListStays(over: Overflow, pool: PoolVal) returns (ws: seq<Withdrawal>)
    requires 0 < pool.amount && 0 < pool.total && !ListBacked(pool)
    ensures !BatchRemoved(over, pool, ws)
  {
    ws := EverybodyBurns(over, pool);
    if BatchRemoved(over, pool, ws) { BurnedFitsTotal(over, pool, ws); }
  }

  /** Every removal of every batch succeeds exactly when the first entry of each address
      covers its last one and the total covers the whole price list. */
  lemma RemovalsSucceedIff(over: Overflow, pool: PoolVal)
    ensures (forall ws :: BatchRemoved(over, pool, ws))
       <==> (pool.amount == 0 || pool.total == 0 || (FirstCoversLast(pool.points) && ListBacked(pool)))
  {
    if Dry(pool) || (FirstCoversLast(pool.points) && ListBacked(pool)) {
      forall ws ensures BatchRemoved(over, pool, ws) {
        if !Dry(pool) { CoveredRemoves(over, pool, ws); }
      }
    } else if FirstCoversLast(pool.points) {
      var ws := ListStays(over, pool);
    } else {
      var a :| a in LastPoints(pool.points) && !CoversLast(pool.points, a);
      UncoveredStays(over, pool, a);
    }
  }

}
