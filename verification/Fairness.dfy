/** Withdrawals by different addresses do not depend on their order in the batch. */
module Fairness {
  import opened Uint64
  import opened Aggregates
  import opened Bytes
  import opened DexBatch
  import opened Withdrawals
  import opened PointRemoval

  function Withdrawers(ws: seq<Withdrawal>): seq<Bytes> {
    Map((w: Withdrawal) => w.address, ws)
  }

  /** The answer to w if it were the only withdrawal of its address. */
  function Quote(over: Overflow, pool: PoolVal, w: Withdrawal): WithdrawResult {
    if Dry(pool) then WithdrawResult(0, 0) else
      var burn := Burn(over, Lookup(LastPoints(pool.points), w.address), w.percent);
      WithdrawResult(SafeMulDiv(over, pool.amount, burn, pool.total), burn)
  }

  /** Among distinct withdrawers everybody is answered as if alone. */
  lemma AnsweredAsIfAlone(over: Overflow, pool: PoolVal, ws: seq<Withdrawal>)
    requires NoDuplicates(Withdrawers(ws))
    ensures Results(over, pool, ws) == Map(w => Quote(over, pool, w), ws)
  {
    if !Dry(pool) {
      forall i | 0 <= i < |ws|
        ensures Results(over, pool, ws)[i] == Quote(over, pool, ws[i])
      {
        forall j | 0 <= j < i ensures ws[..i][j].address != ws[i].address {
          assert Withdrawers(ws)[j] != Withdrawers(ws)[i];
        }
        UntouchedWithoutWithdrawal(over, LastPoints(pool.points), ws[..i], ws[i].address);
      }
    }
  }

  /** The batch in which everybody listed withdraws everything. */
  function WithdrawAllOf(es: seq<(Bytes, int)>): seq<Withdrawal> {
    seq(|es|, i requires 0 <= i < |es| => Withdrawal(es[i].0, 100))
  }

  /** Each of them is answered as if alone, which is for all the points it is listed at. */
  lemma EverybodyAnswered(over: Overflow, pool: PoolVal, es: seq<(Bytes, int)>)
    requires 0 < pool.amount && 0 < pool.total && forall i, j :: 0 <= i < j < |es| ==> es[i].0 != es[j].0
    ensures forall i :: 0 <= i < |es| ==>
              var listed := Lookup(LastPoints(pool.points), es[i].0);
              Results(over, pool, WithdrawAllOf(es))[i]
                == WithdrawResult(SafeMulDiv(over, pool.amount, listed, pool.total), listed)
  {
    var ws := WithdrawAllOf(es);
    forall i, j | 0 <= i < j < |ws| ensures Withdrawers(ws)[i] != Withdrawers(ws)[j] {
      assert es[i].0 != es[j].0;
    }
    AnsweredAsIfAlone(over, pool, ws);
    forall i | 0 <= i < |es| ensures Results(over, pool, ws)[i] == Quote(over, pool, ws[i]) {}
  }

  lemma PermutedWithdrawers(ws: seq<Withdrawal>, vs: seq<Withdrawal>)
    requires multiset(ws) == multiset(vs) && NoDuplicates(Withdrawers(ws))
    ensures NoDuplicates(Withdrawers(vs))
  {
    MapOfPermutation((w: Withdrawal) => w.address, ws, vs);
    NoDuplicatesMultiplicity(Withdrawers(ws));
    NoDuplicatesMultiplicity(Withdrawers(vs));
  }

  /** Rearranging a batch of distinct withdrawers rearranges its answers and
      leaves the pool the same amount. */
  lemma OrderDoesNotMatter(over: Overflow, pool: PoolVal, ws: seq<Withdrawal>, vs: seq<Withdrawal>)
    requires multiset(ws) == multiset(vs) && NoDuplicates(Withdrawers(ws))
    ensures forall i, j :: 0 <= i < |ws| && 0 <= j < |vs| && ws[i] == vs[j]
                       ==> Results(over, pool, ws)[i] == Results(over, pool, vs)[j]
    ensures multiset(Results(over, pool, ws)) == multiset(Results(over, pool, vs))
    ensures Sum(Paid(Results(over, pool, ws))) == Sum(Paid(Results(over, pool, vs)))
    ensures Sum(Burned(Results(over, pool, ws))) == Sum(Burned(Results(over, pool, vs)))
    ensures PostWithdrawals(over, pool, ws).amount == PostWithdrawals(over, pool, vs).amount
  {
    PermutedWithdrawers(ws, vs);
    AnsweredAsIfAlone(over, pool, ws);
    AnsweredAsIfAlone(over, pool, vs);
    MapOfPermutation(w => Quote(over, pool, w), ws, vs);
    var rs, qs := Results(over, pool, ws), Results(over, pool, vs);
    SumsOfRearranged(rs, qs);
    if !Dry(pool) {
      RemoveBurnedKeepsAmount(pool.(amount := PaidOut(pool.amount, rs)), ws, rs);
      RemoveBurnedKeepsAmount(pool.(amount := PaidOut(pool.amount, qs)), vs, qs);
    }
  }

  lemma SumsOfRearranged(rs: seq<WithdrawResult>, qs: seq<WithdrawResult>)
    requires multiset(rs) == multiset(qs)
    ensures Sum(Paid(rs)) == Sum(Paid(qs)) && Sum(Burned(rs)) == Sum(Burned(qs))
  {
    var paid: WithdrawResult -> int := (r: WithdrawResult) => r.localAmount;
    var burned: WithdrawResult -> int := (r: WithdrawResult) => r.pointsBurned;
    assert Paid(rs) == Map(paid, rs) && Paid(qs) == Map(paid, qs);
    assert Burned(rs) == Map(burned, rs) && Burned(qs) == Map(burned, qs);
    MapOfPermutation(paid, rs, qs);
    MapOfPermutation(burned, rs, qs);
    SumOfPermutation(Paid(rs), Paid(qs));
    SumOfPermutation(Burned(rs), Burned(qs));
  }

  /** Points the one withdrawal w of an address takes out of its first entry. */
  function OwnTaken(over: Overflow, es: seq<LpEntry>, w: Withdrawal): U64 {
    var burn := Burn(over, Lookup(LastPoints(es), w.address), w.percent);
    if burn <= FirstPoints(es, w.address) then burn else 0
  }

  lemma {:induction false} FirstUntouched(over: Overflow, es: seq<LpEntry>, ws: seq<Withdrawal>, a: Bytes)
    requires forall i :: 0 <= i < |ws| ==> ws[i].address != a
    ensures FirstLeft(over, es, ws, a) == FirstPoints(es, a)
  {
    if ws != [] { FirstUntouched(over, es, ws[..|ws| - 1], a); }
  }

  /** What the one withdrawal of an address leaves in its first entry, wherever it stands. */
  lemma {:induction false} LeftAfterOwnWithdrawal(over: Overflow, es: seq<LpEntry>, ws: seq<Withdrawal>, i: nat)
    requires NoDuplicates(Withdrawers(ws)) && i < |ws|
    ensures FirstLeft(over, es, ws, ws[i].address) == FirstPoints(es, ws[i].address) - OwnTaken(over, es, ws[i])
  {
    var n := |ws| - 1;
    forall j | 0 <= j < n && j != i ensures ws[j].address != ws[i].address {
      assert Withdrawers(ws)[j] != Withdrawers(ws)[i];
    }
    if i == n {
      UntouchedWithoutWithdrawal(over, LastPoints(es), ws[..n], ws[i].address);
      FirstUntouched(over, es, ws[..n], ws[i].address);
    } else {
      forall j, k | 0 <= j < k < n ensures Withdrawers(ws[..n])[j] != Withdrawers(ws[..n])[k] {
        assert Withdrawers(ws)[j] != Withdrawers(ws)[k];
      }
      LeftAfterOwnWithdrawal(over, es, ws[..n], i);
      assert Withdrawers(ws)[n] != Withdrawers(ws)[i];
    }
  }

  lemma LeftDoesNotDependOnOrder(over: Overflow, es: seq<LpEntry>, ws: seq<Withdrawal>, vs: seq<Withdrawal>,
                                 a: Bytes)
    requires multiset(ws) == multiset(vs) && NoDuplicates(Withdrawers(ws))
    ensures FirstLeft(over, es, ws, a) == FirstLeft(over, es, vs, a)
  {
    PermutedWithdrawers(ws, vs);
    if i :| 0 <= i < |ws| && ws[i].address == a {
      assert ws[i] in multiset(vs);
      var j :| 0 <= j < |vs| && vs[j] == ws[i];
      LeftAfterOwnWithdrawal(over, es, ws, i);
      LeftAfterOwnWithdrawal(over, es, vs, j);
    } else {
      forall j | 0 <= j < |vs| ensures vs[j].address != a { assert vs[j] in multiset(ws); }
      FirstUntouched(over, es, ws, a);
      FirstUntouched(over, es, vs, a);
    }
  }

  /** A pool with a backed price list ends up the same, entries and total included, whatever the order in
      which distinct withdrawers stand in the batch. */
  lemma SamePoolInAnyOrder(over: Overflow, pool: PoolVal, ws: seq<Withdrawal>, vs: seq<Withdrawal>)
    requires multiset(ws) == multiset(vs) && NoDuplicates(Withdrawers(ws)) && ListBacked(pool)
    ensures PostWithdrawals(over, pool, ws) == PostWithdrawals(over, pool, vs)
  {
    if !Dry(pool) {
      OrderDoesNotMatter(over, pool, ws, vs);
      EntriesAfterBatch(over, pool, ws);
      EntriesAfterBatch(over, pool, vs);
      SameEntriesInAnyOrder(over, pool.points, ws, vs);
      BatchIsEven(over, pool, ws);
      BatchIsEven(over, pool, vs);
    }
  }

  lemma SameEntriesInAnyOrder(over: Overflow, es: seq<LpEntry>, ws: seq<Withdrawal>, vs: seq<Withdrawal>)
    requires multiset(ws) == multiset(vs) && NoDuplicates(Withdrawers(ws))
    ensures EntriesLeft(over, es, ws) == EntriesLeft(over, es, vs)
  {
    forall i | 0 <= i < |es| ensures EntriesLeft(over, es, ws)[i] == EntriesLeft(over, es, vs)[i] {
      LeftDoesNotDependOnOrder(over, es, ws, vs, es[i].address);
    }
  }

  lemma BatchIsEven(over: Overflow, pool: PoolVal, ws: seq<Withdrawal>)
    requires 0 < pool.amount && 0 < pool.total
    ensures var after := PostWithdrawals(over, pool, ws);
            Sum(Points(after.points)) - after.total == Sum(Points(pool.points)) - pool.total
  {
    var rs := Results(over, pool, ws);
    RemovalsAreEven(pool.(amount := PaidOut(pool.amount, rs)), ws, rs);
  }

}
