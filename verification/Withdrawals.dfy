/**
 * What holds of every withdrawal batch: solvency, the direction of rounding,
 * where the burned points come from, and fairness between the withdrawers.
 */
module Withdrawals {
  import opened Uint64
  import opened Aggregates
  import opened Bytes
  import opened DexBatch

  /** The pool's entries hold no more points than the total it is priced by. */
  ghost predicate Backed(pool: PoolVal) {
    Sum(Points(pool.points)) <= pool.total
  }

  /** The price list alone holds no more points than that total. */
  ghost predicate ListBacked(pool: PoolVal) {
    MapSum(LastPoints(pool.points)) <= pool.total
  }

  // ----------------------------------------------------- points by address

  /** The price list holds exactly the addresses with an entry, at their last one. */
  lemma {:induction false} LastEntryWins(es: seq<LpEntry>, a: Bytes)
    ensures a in LastPoints(es) <==> exists i :: 0 <= i < |es| && es[i].address == a
    ensures forall i :: 0 <= i < |es| && es[i].address == a
                     && (forall j :: i < j < |es| ==> es[j].address != a)
                     ==> LastPoints(es)[a] == es[i].points
  {
    if es != [] {
      var init, e := es[..|es| - 1], es[|es| - 1];
      LastEntryWins(init, a);
      if e.address == a {
        assert es[|es| - 1].address == a;
      } else {
        assert forall i :: 0 <= i < |es| && es[i].address == a ==> init[i].address == a;
        assert forall i :: 0 <= i < |init| ==> init[i] == es[i];
      }
    }
  }

  /** Every entry that a later one of the same address hides is empty. */
  ghost predicate HidesNothing(es: seq<LpEntry>) {
    forall i, j :: 0 <= i < j < |es| && es[i].address == es[j].address ==> es[i].points == 0
  }

  /** An address that hides nothing and is listed at nothing has nothing. */
  lemma ListedAtNothing(es: seq<LpEntry>, a: Bytes)
    requires HidesNothing(es)
    ensures (a !in LastPoints(es) || LastPoints(es)[a] == 0)
       <==> forall i :: 0 <= i < |es| && es[i].address == a ==> es[i].points == 0
  {
    LastEntryWins(es, a);
    if a in LastPoints(es) {
      var i := LastEntry(es, a);
      assert LastPoints(es)[a] == es[i].points;
    }
  }

  /** Position of the last entry of an address that has one. */
  lemma {:induction false} LastEntry(es: seq<LpEntry>, a: Bytes) returns (i: nat)
    requires a in LastPoints(es)
    ensures i < |es| && es[i].address == a && LastPoints(es)[a] == es[i].points
    ensures forall j :: i < j < |es| ==> es[j].address != a
  {
    i := |es| - 1;
    if es[i].address != a {
      i := LastEntry(es[..|es| - 1], a);
    }
  }

  /** The price list never promises more points than the entries hold, and promises
      just as many exactly when no entry with points is hidden by a later one. */
  lemma {:induction false} PriceListTotal(es: seq<LpEntry>)
    ensures MapSum(LastPoints(es)) <= Sum(Points(es))
    ensures MapSum(LastPoints(es)) == Sum(Points(es)) <==> HidesNothing(es)
  {
    if es != [] {
      var init, e := es[..|es| - 1], es[|es| - 1];
      PriceListTotal(init);
      MapSumUpdate(LastPoints(init), e.address, e.points);
      assert Points(es) == Points(init) + [e.points];
      SumSnoc(Points(init), e.points);
      HiddenByLast(es);
    }
  }

  lemma HiddenByLast(es: seq<LpEntry>)
    requires es != []
    ensures var init, a := es[..|es| - 1], es[|es| - 1].address;
            HidesNothing(es) <==> HidesNothing(init) && (a !in LastPoints(init) || LastPoints(init)[a] == 0)
  {
    var n := |es| - 1;
    var init, a := es[..n], es[n].address;
    if HidesNothing(init) {
      ListedAtNothing(init, a);
      assert forall i :: 0 <= i < n ==> init[i] == es[i];
    } else {
      var i, j :| 0 <= i < j < n && init[i].address == init[j].address && init[i].points != 0;
      assert es[i].address == es[j].address;
    }
  }

  // ------------------------------------------------------------------ burns

  /** A withdrawal burns the floor of its percentage of the points, percentages over
      100 counting as 100. */
  lemma BurnIsFloor(over: Overflow, points: U64, percent: U64)
    ensures var share, burn := if percent > 100 then 100 else percent, Burn(over, points, percent);
            burn * 100 <= points * share < burn * 100 + 100
  {
    var share := if percent > 100 then 100 else percent;
    MulDivBounds(points, share, 100);
  }

  function Burns(over: Overflow, start: map<Bytes, U64>, ws: seq<Withdrawal>): seq<int> {
    seq(|ws|, i requires 0 <= i < |ws| => BurnAt(over, start, ws, i))
  }

  /** The burns of one address, with zero in the place of everybody else's. */
  function BurnsOf(over: Overflow, start: map<Bytes, U64>, ws: seq<Withdrawal>, a: Bytes): seq<int> {
    seq(|ws|, i requires 0 <= i < |ws| => if ws[i].address == a then BurnAt(over, start, ws, i) else 0)
  }

  lemma BurnsSnoc(over: Overflow, start: map<Bytes, U64>, ws: seq<Withdrawal>)
    requires ws != []
    ensures var n := |ws| - 1;
            && Burns(over, start, ws) == Burns(over, start, ws[..n]) + [BurnAt(over, start, ws, n)]
            && forall a :: BurnsOf(over, start, ws, a) == BurnsOf(over, start, ws[..n], a)
                        + [if ws[n].address == a then BurnAt(over, start, ws, n) else 0]
  {
    var n := |ws| - 1;
    assert forall i :: 0 <= i < n ==> ws[..n][..i] == ws[..i];
  }

  /** Each address burns, over the whole batch, what it had less what it has left. */
  lemma {:induction false} BurnsTelescope(over: Overflow, start: map<Bytes, U64>, ws: seq<Withdrawal>, a: Bytes)
    ensures Sum(BurnsOf(over, start, ws, a)) + PointsLeft(over, start, ws, a) == Lookup(start, a)
  {
    if ws != [] {
      var n := |ws| - 1;
      BurnsTelescope(over, start, ws[..n], a);
      BurnsSnoc(over, start, ws);
      SumSnoc(BurnsOf(over, start, ws[..n], a), if ws[n].address == a then BurnAt(over, start, ws, n) else 0);
    }
  }

  ghost function LeftMap(over: Overflow, start: map<Bytes, U64>, ws: seq<Withdrawal>): map<Bytes, U64> {
    map a | a in start :: PointsLeft(over, start, ws, a)
  }

  /** All the burns together are what all the addresses had less what they have left. */
  lemma {:induction false} BurnsConserve(over: Overflow, start: map<Bytes, U64>, ws: seq<Withdrawal>)
    ensures Sum(Burns(over, start, ws)) + MapSum(LeftMap(over, start, ws)) == MapSum(start)
  {
    if ws == [] {
      assert LeftMap(over, start, ws) == start;
    } else {
      var n := |ws| - 1;
      BurnsConserve(over, start, ws[..n]);
      BurnsSnoc(over, start, ws);
      SumSnoc(Burns(over, start, ws[..n]), BurnAt(over, start, ws, n));
      OneBurnLess(over, start, ws);
    }
  }

  /** A withdrawal takes its burn, and nothing else, out of what the addresses have left. */
  lemma OneBurnLess(over: Overflow, start: map<Bytes, U64>, ws: seq<Withdrawal>)
    requires ws != []
    ensures var n := |ws| - 1;
            MapSum(LeftMap(over, start, ws)) == MapSum(LeftMap(over, start, ws[..n])) - BurnAt(over, start, ws, n)
  {
    var n := |ws| - 1;
    var a, burn := ws[n].address, BurnAt(over, start, ws, n);
    var before, after := LeftMap(over, start, ws[..n]), LeftMap(over, start, ws);
    NothingWithoutPoints(over, start, ws[..n], a);
    if a in start {
      assert after == before[a := before[a] - burn];
      MapSumUpdate(before, a, before[a] - burn);
    } else {
      assert after == before;
    }
  }

  lemma {:induction false} NothingWithoutPoints(over: Overflow, start: map<Bytes, U64>, ws: seq<Withdrawal>, a: Bytes)
    ensures a !in start ==> PointsLeft(over, start, ws, a) == 0
  {
    if ws != [] { NothingWithoutPoints(over, start, ws[..|ws| - 1], a); }
  }

  lemma {:induction false} UntouchedWithoutWithdrawal(over: Overflow, start: map<Bytes, U64>,
                                                      ws: seq<Withdrawal>, a: Bytes)
    requires forall i :: 0 <= i < |ws| ==> ws[i].address != a
    ensures PointsLeft(over, start, ws, a) == Lookup(start, a)
  {
    if ws != [] { UntouchedWithoutWithdrawal(over, start, ws[..|ws| - 1], a); }
  }

  lemma {:induction false} LeftIsPart(over: Overflow, start: map<Bytes, U64>, ws: seq<Withdrawal>, a: Bytes)
    ensures PointsLeft(over, start, ws, a) <= Lookup(start, a)
  {
    if ws != [] { LeftIsPart(over, start, ws[..|ws| - 1], a); }
  }

  /** The price list of a backed pool is backed. */
  lemma BackedList(pool: PoolVal)
    requires Backed(pool)
    ensures ListBacked(pool)
  {
    PriceListTotal(pool.points);
  }

  /** A batch burns no more points than the price list holds. */
  lemma BurnsBounded(over: Overflow, pool: PoolVal, ws: seq<Withdrawal>)
    ensures 0 <= Sum(Burns(over, LastPoints(pool.points), ws)) <= MapSum(LastPoints(pool.points))
  {
    var start := LastPoints(pool.points);
    BurnsConserve(over, start, ws);
    MapSumNonNegative(LeftMap(over, start, ws));
    SumNonNegative(Burns(over, start, ws));
  }

  // ---------------------------------------------------------------- payouts

  function NonZero(xs: seq<int>): nat {
    if xs == [] then 0 else NonZero(xs[..|xs| - 1]) + if xs[|xs| - 1] == 0 then 0 else 1
  }

  function Quotients(a: nat, burns: seq<int>, t: nat): seq<int>
    requires 0 < t && forall i :: 0 <= i < |burns| ==> 0 <= burns[i]
  {
    seq(|burns|, i requires 0 <= i < |burns| => a * burns[i] / t)
  }

  /** Flooring each quotient loses less than one unit per non-zero term, and never gains. */
  lemma {:induction false} FloorsOfParts(a: nat, burns: seq<int>, t: nat)
    requires 0 < t && forall i :: 0 <= i < |burns| ==> 0 <= burns[i]
    ensures Sum(Quotients(a, burns, t)) * t <= a * Sum(burns)
         <= Sum(Quotients(a, burns, t)) * t + NonZero(burns) * (t - 1)
  {
    if burns != [] {
      var n := |burns| - 1;
      var init, b := burns[..n], burns[n];
      FloorsOfParts(a, init, t);
      MulDivBounds(a, b, t);
      assert Quotients(a, burns, t) == Quotients(a, init, t) + [a * b / t];
      SumSnoc(Quotients(a, init, t), a * b / t);
      AddFloor(a, b, t, a * b / t, Sum(init), Sum(Quotients(a, init, t)), NonZero(init));
    }
  }

  /** One more floored term q, of b, added to a sum s that is short by at most n units. */
  lemma AddFloor(a: nat, b: nat, t: nat, q: nat, sum: int, s: int, n: nat)
    requires 0 < t && q * t <= a * b < q * t + t
    requires s * t <= a * sum <= s * t + n * (t - 1)
    ensures (s + q) * t <= a * (sum + b)
         <= (s + q) * t + (n + if b == 0 then 0 else 1) * (t - 1)
  {
    Distribute(s, q, t);
    Distribute(sum, b, a);
    Distribute(n, 1, t - 1);
  }

  /** Of a pool with a backed price list every payout is the exact floor quotient of its burn. */
  lemma PayoutsExact(over: Overflow, pool: PoolVal, ws: seq<Withdrawal>)
    requires ListBacked(pool) && 0 < pool.amount && 0 < pool.total
    ensures Burned(Results(over, pool, ws)) == Burns(over, LastPoints(pool.points), ws)
    ensures Paid(Results(over, pool, ws)) == Quotients(pool.amount, Burned(Results(over, pool, ws)), pool.total)
  {
    var start, rs := LastPoints(pool.points), Results(over, pool, ws);
    var burns := Burns(over, start, ws);
    assert Burned(rs) == burns;
    forall i | 0 <= i < |ws|
      ensures rs[i].localAmount == pool.amount * burns[i] / pool.total
    {
      BurnsBounded(over, pool, ws);
      PartOfSum(burns, i);
      MulDivBounds(pool.amount, burns[i], pool.total);
    }
  }

  lemma {:induction false} PartOfSum(xs: seq<int>, i: nat)
    requires i < |xs| && forall j :: 0 <= j < |xs| ==> 0 <= xs[j]
    ensures xs[i] <= Sum(xs)
  {
    var init := xs[..|xs| - 1];
    if i < |init| { PartOfSum(init, i); } else { SumNonNegative(init); }
  }

  lemma {:induction false} RemoveBurnedKeepsAmount(pool: PoolVal, ws: seq<Withdrawal>, rs: seq<WithdrawResult>)
    requires |ws| == |rs|
    ensures RemoveBurned(pool, ws, rs).amount == pool.amount
  {
    if ws != [] { RemoveBurnedKeepsAmount(pool, ws[..|ws| - 1], rs[..|rs| - 1]); }
  }

  /** Solvency: a pool whose price list is backed pays every withdrawal of a batch in
      full, and what it loses is exactly what it pays. */
  lemma Solvency(over: Overflow, pool: PoolVal, ws: seq<Withdrawal>)
    requires ListBacked(pool)
    ensures var paid := Sum(Paid(Results(over, pool, ws)));
            && 0 <= paid <= pool.amount
            && PostWithdrawals(over, pool, ws).amount + paid == pool.amount
  {
    var rs := Results(over, pool, ws);
    if Dry(pool) {
      AllZero(Paid(rs));
    } else {
      var burns := Burned(rs);
      PayoutsExact(over, pool, ws);
      BurnsBounded(over, pool, ws);
      FloorsOfParts(pool.amount, burns, pool.total);
      SumNonNegative(Paid(rs));
      MulMonotone(pool.amount, Sum(burns), pool.total);
      MulCancel(Sum(Paid(rs)), pool.amount, pool.total);
      RemoveBurnedKeepsAmount(pool.(amount := PaidOut(pool.amount, rs)), ws, rs);
    }
  }

  lemma {:induction false} AllZero(xs: seq<int>)
    requires forall i :: 0 <= i < |xs| ==> xs[i] == 0
    ensures Sum(xs) == 0
  {
    if xs != [] { AllZero(xs[..|xs| - 1]); }
  }

  /** Rounding favours those who stay: with A and T the pool's amount and points
      and B the points burned, at least A(T - B)/T remains, and less than one unit
      more than that for each burn that is not zero. */
  lemma RoundingFavoursRemaining(over: Overflow, pool: PoolVal, ws: seq<Withdrawal>)
    requires ListBacked(pool) && 0 < pool.amount && 0 < pool.total
    ensures var A, T := pool.amount, pool.total;
            var burns := Burned(Results(over, pool, ws));
            var left := PostWithdrawals(over, pool, ws).amount;
            A * (T - Sum(burns)) <= left * T <= A * (T - Sum(burns)) + NonZero(burns) * (T - 1)
  {
    var A, T := pool.amount, pool.total;
    var rs := Results(over, pool, ws);
    var burns, paid := Burned(rs), Sum(Paid(rs));
    Solvency(over, pool, ws);
    PayoutsExact(over, pool, ws);
    FloorsOfParts(A, burns, T);
    assert PostWithdrawals(over, pool, ws).amount == A - paid;
    Distribute(A, paid, T);
    Distribute(T, Sum(burns), A);
  }

  /** Splitting never pays: the withdrawals of one address are together paid at
      most what one withdrawal of the same points would be. */
  lemma SplittingNeverPays(over: Overflow, pool: PoolVal, ws: seq<Withdrawal>, a: Bytes)
    requires ListBacked(pool) && 0 < pool.amount && 0 < pool.total
    ensures var start := LastPoints(pool.points);
            PaidTo(over, pool, ws, a) <= pool.amount * Sum(BurnsOf(over, start, ws, a)) / pool.total
  {
    var burns := BurnsOf(over, LastPoints(pool.points), ws, a);
    PayoutsOfAddress(over, pool, ws, a);
    FloorsOfParts(pool.amount, burns, pool.total);
    FloorIsLargest(pool.amount * Sum(burns), pool.total, PaidTo(over, pool, ws, a));
  }

  lemma PayoutsOfAddress(over: Overflow, pool: PoolVal, ws: seq<Withdrawal>, a: Bytes)
    requires ListBacked(pool) && 0 < pool.amount && 0 < pool.total
    ensures PayoutsOf(over, pool, ws, a)
         == Quotients(pool.amount, BurnsOf(over, LastPoints(pool.points), ws, a), pool.total)
  {
    var rs := Results(over, pool, ws);
    PayoutsExact(over, pool, ws);
    forall i | 0 <= i < |ws|
      ensures PayoutsOf(over, pool, ws, a)[i]
           == Quotients(pool.amount, BurnsOf(over, LastPoints(pool.points), ws, a), pool.total)[i]
    {
      assert Paid(rs)[i] == rs[i].localAmount && Burned(rs)[i] == rs[i].pointsBurned;
      if ws[i].address != a { ZeroShare(pool.amount, pool.total); }
    }
  }

  lemma ZeroShare(a: nat, t: nat)
    requires 0 < t
    ensures a * 0 / t == 0
  {
    assert a * 0 == 0;
  }

  lemma FloorIsLargest(x: int, t: nat, q: int)
    requires 0 < t && q * t <= x
    ensures q <= x / t
  {
    var d := x / t;
    if q >= d + 1 {
      MulMonotone(t, d + 1, q);
      Distribute(d, 1, t);
      assert false;
    }
  }

  function PayoutsOf(over: Overflow, pool: PoolVal, ws: seq<Withdrawal>, a: Bytes): seq<int> {
    seq(|ws|, i requires 0 <= i < |ws| =>
      if ws[i].address == a then Results(over, pool, ws)[i].localAmount else 0)
  }

  function PaidTo(over: Overflow, pool: PoolVal, ws: seq<Withdrawal>, a: Bytes): int {
    Sum(PayoutsOf(over, pool, ws, a))
  }

}
