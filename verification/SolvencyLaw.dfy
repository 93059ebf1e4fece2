/**
 * Exactly which liquidity pools can pay every withdrawal batch: backed or not, those
 * whose price list, every address rounded down by itself, is worth no more than the
 * pool holds.
 */
module SolvencyLaw {
  import opened Uint64
  import opened Aggregates
  import opened Bytes
  import opened DexBatch
  import opened Withdrawals
  import opened Fairness
  import Sorting

  /** What n points of the pool are worth, rounded down. */
  function Worth(pool: PoolVal, n: nat): nat
    requires 0 < pool.amount && 0 < pool.total
  {
    MulDivBounds(pool.amount, n, pool.total);
    pool.amount * n / pool.total
  }

  /** What each address of the price list would be paid for all its points. */
  function Claims(pool: PoolVal): map<Bytes, int>
    requires 0 < pool.amount && 0 < pool.total
  {
    map a | a in LastPoints(pool.points) :: Worth(pool, LastPoints(pool.points)[a])
  }

  /** Every claim fits a word, so that the library's quotient is exact. */
  ghost predicate ClaimsFit(pool: PoolVal)
    requires 0 < pool.amount && 0 < pool.total
  {
    forall a :: a in Claims(pool) ==> Claims(pool)[a] < MOD
  }

  /** What the pool pays for the batch, it loses. */
  ghost predicate PaysInFull(over: Overflow, pool: PoolVal, ws: seq<Withdrawal>) {
    PostWithdrawals(over, pool, ws).amount + Sum(Paid(Results(over, pool, ws))) == pool.amount
  }

  // ------------------------------------------------------------- one batch

  lemma PaidNonNegative(rs: seq<WithdrawResult>)
    ensures 0 <= Sum(Paid(rs))
  {
    SumNonNegative(Paid(rs));
  }

  /** The saturating subtraction takes out exactly the payouts when the pool holds them. */
  lemma PaysInFullIff(over: Overflow, pool: PoolVal, ws: seq<Withdrawal>)
    ensures PaysInFull(over, pool, ws) <==> Sum(Paid(Results(over, pool, ws))) <= pool.amount
  {
    var rs := Results(over, pool, ws);
    PaidNonNegative(rs);
    if Dry(pool) {
      AllZero(Paid(rs));
    } else {
      RemoveBurnedKeepsAmount(pool.(amount := PaidOut(pool.amount, rs)), ws, rs);
      if Sum(Paid(rs)) <= pool.amount { SmallWord(Sum(Paid(rs))); }
    }
  }

  // ---------------------------------------------------------- claims cover

  /** Two parts are worth at most what they are worth together. */
  lemma WorthOfParts(pool: PoolVal, m: nat, n: nat)
    requires 0 < pool.amount && 0 < pool.total
    ensures Worth(pool, m) + Worth(pool, n) <= Worth(pool, m + n)
  {
    var A, T := pool.amount, pool.total;
    MulDivBounds(A, m, T);
    MulDivBounds(A, n, T);
    Distribute(m, n, A);
    Distribute(Worth(pool, m), Worth(pool, n), T);
    FloorIsLargest(A * (m + n), T, Worth(pool, m) + Worth(pool, n));
  }

  /** What the addresses could still claim after the withdrawals ws. */
  ghost function ClaimsLeft(over: Overflow, pool: PoolVal, ws: seq<Withdrawal>): map<Bytes, int>
    requires 0 < pool.amount && 0 < pool.total
  {
    map a | a in LastPoints(pool.points) :: Worth(pool, PointsLeft(over, LastPoints(pool.points), ws, a))
  }

  /** A payout is the worth of its burn, as no burn exceeds what its address is listed at. */
  lemma PayoutIsWorth(over: Overflow, pool: PoolVal, ws: seq<Withdrawal>, i: nat)
    requires 0 < pool.amount && 0 < pool.total && ClaimsFit(pool) && i < |ws|
    ensures Results(over, pool, ws)[i].localAmount == Worth(pool, BurnAt(over, LastPoints(pool.points), ws, i))
  {
    var start, a := LastPoints(pool.points), ws[i].address;
    var burn := BurnAt(over, start, ws, i);
    NothingWithoutPoints(over, start, ws[..i], a);
    if a in start {
      LeftIsPart(over, start, ws[..i], a);
      WorthOfParts(pool, burn, start[a] - burn);
      assert Claims(pool)[a] == Worth(pool, start[a]);
    } else {
      ZeroShare(pool.amount, pool.total);
    }
  }

  /** A withdrawal changes the claim of its own address only. */
  lemma ClaimsLeftStep(over: Overflow, pool: PoolVal, ws: seq<Withdrawal>)
    requires 0 < pool.amount && 0 < pool.total && ws != []
    ensures var n, start := |ws| - 1, LastPoints(pool.points);
            var a, before := ws[n].address, ClaimsLeft(over, pool, ws[..n]);
            var left := PointsLeft(over, start, ws[..n], a) - BurnAt(over, start, ws, n);
            ClaimsLeft(over, pool, ws) == if a in start then before[a := Worth(pool, left)] else before
  {}

  /** A claim that drops by a payout at least lowers all of them by as much. */
  lemma WithinClaims(before: map<Bytes, int>, after: map<Bytes, int>, a: Bytes, paid: nat)
    requires a in before && a in after && after == before[a := after[a]] && after[a] + paid <= before[a]
    ensures MapSum(after) + paid <= MapSum(before)
  {
    MapSumUpdate(before, a, after[a]);
  }

  /** A withdrawal takes at least its payout out of what can still be claimed. */
  lemma ClaimTaken(over: Overflow, pool: PoolVal, ws: seq<Withdrawal>)
    requires 0 < pool.amount && 0 < pool.total && ClaimsFit(pool) && ws != []
    ensures MapSum(ClaimsLeft(over, pool, ws)) + Results(over, pool, ws)[|ws| - 1].localAmount
         <= MapSum(ClaimsLeft(over, pool, ws[..|ws| - 1]))
  {
    var n, start := |ws| - 1, LastPoints(pool.points);
    var a, burn := ws[n].address, BurnAt(over, start, ws, n);
    PayoutIsWorth(over, pool, ws, n);
    ClaimsLeftStep(over, pool, ws);
    if a in start {
      WorthOfParts(pool, burn, PointsLeft(over, start, ws[..n], a) - burn);
      WithinClaims(ClaimsLeft(over, pool, ws[..n]), ClaimsLeft(over, pool, ws), a, Worth(pool, burn));
    } else {
      NothingWithoutPoints(over, start, ws[..n], a);
      ZeroShare(pool.amount, pool.total);
    }
  }

  /** Along a batch, payouts and remaining claims never exceed the claims at its start. */
  lemma {:induction false} PayoutsWithinClaims(over: Overflow, pool: PoolVal, ws: seq<Withdrawal>)
    requires 0 < pool.amount && 0 < pool.total && ClaimsFit(pool)
    ensures Sum(Paid(Results(over, pool, ws))) + MapSum(ClaimsLeft(over, pool, ws)) <= MapSum(Claims(pool))
  {
    if ws == [] {
      assert ClaimsLeft(over, pool, ws) == Claims(pool);
    } else {
      var n, rs := |ws| - 1, Results(over, pool, ws);
      PayoutsWithinClaims(over, pool, ws[..n]);
      ResultsOfPrefix(over, pool, ws, n);
      assert Paid(rs) == Paid(rs[..n]) + [rs[n].localAmount];
      SumSnoc(Paid(rs[..n]), rs[n].localAmount);
      ClaimTaken(over, pool, ws);
    }
  }

  lemma ResultsOfPrefix(over: Overflow, pool: PoolVal, ws: seq<Withdrawal>, n: nat)
    requires n <= |ws|
    ensures Results(over, pool, ws[..n]) == Results(over, pool, ws)[..n]
  {
    assert forall i :: 0 <= i < n ==> ws[..n][..i] == ws[..i];
  }

  /** Claims the pool can cover all fit a word. */
  lemma CoveredClaimsFit(pool: PoolVal)
    requires 0 < pool.amount && 0 < pool.total && MapSum(Claims(pool)) <= pool.amount
    ensures ClaimsFit(pool)
  {
    forall a | a in Claims(pool) ensures Claims(pool)[a] < MOD {
      MapSumRemove(Claims(pool), a);
      MapSumNonNegative(Claims(pool) - {a});
    }
  }

  /** A pool that covers all claims pays every batch in full. */
  lemma CoveredClaimsArePaid(over: Overflow, pool: PoolVal, ws: seq<Withdrawal>)
    requires 0 < pool.amount && 0 < pool.total && MapSum(Claims(pool)) <= pool.amount
    ensures PaysInFull(over, pool, ws)
  {
    CoveredClaimsFit(pool);
    PayoutsWithinClaims(over, pool, ws);
    MapSumNonNegative(ClaimsLeft(over, pool, ws));
    PaysInFullIff(over, pool, ws);
  }

  // --------------------------------------------------- everybody withdraws

  /** Some order in which everybody on the price list withdraws everything. */
  lemma EverybodyWithdraws(over: Overflow, pool: PoolVal) returns (ws: seq<Withdrawal>)
    requires 0 < pool.amount && 0 < pool.total && ClaimsFit(pool)
    ensures Sum(Paid(Results(over, pool, ws))) == MapSum(Claims(pool))
  {
    var es := Sorting.SomeRange(Claims(pool));
    ws := WithdrawAllOf(es);
    EverybodyAnswered(over, pool, es);
    var rs := Results(over, pool, ws);
    forall i | 0 <= i < |es| ensures Paid(rs)[i] == Sorting.Values(es)[i] {
      assert es[i].0 in Claims(pool) && Claims(pool)[es[i].0] == es[i].1;
    }
    assert Paid(rs) == Sorting.Values(es);
    Sorting.RangeSum(es, Claims(pool));
  }

  /** A pool pays every batch in full exactly when it covers all the claims at once. */
  lemma SolventIff(over: Overflow, pool: PoolVal)
    requires pool.amount == 0 || pool.total == 0 || ClaimsFit(pool)
    ensures (forall ws :: PaysInFull(over, pool, ws))
       <==> (pool.amount == 0 || pool.total == 0 || MapSum(Claims(pool)) <= pool.amount)
  {
    if Dry(pool) {
      forall ws ensures PaysInFull(over, pool, ws) {
        AllZero(Paid(Results(over, pool, ws)));
      }
    } else if MapSum(Claims(pool)) <= pool.amount {
      forall ws ensures PaysInFull(over, pool, ws) {
        CoveredClaimsArePaid(over, pool, ws);
      }
    } else {
      var ws := EverybodyWithdraws(over, pool);
      PaysInFullIff(over, pool, ws);
    }
  }

}
