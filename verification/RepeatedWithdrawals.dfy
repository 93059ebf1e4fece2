/** Withdrawal batches one after the other, and when their removals never fail. */
module RepeatedWithdrawals {
  import opened Uint64
  import opened Aggregates
  import opened Bytes
  import opened DexBatch
  import opened Withdrawals
  import opened PointRemoval
  import opened RemovalLaw

  /** Every removal of every batch in turn finds its points. */
  ghost predicate AllRemoved(over: Overflow, pool: PoolVal, batches: seq<seq<Withdrawal>>)
    decreases |batches|
  {
    batches == []
    || (BatchRemoved(over, pool, batches[0])
        && AllRemoved(over, PostWithdrawals(over, pool, batches[0]), batches[1..]))
  }

  /** The address has at most one entry. */
  ghost predicate OneEntry(es: seq<LpEntry>, a: Bytes) {
    forall i, j :: 0 <= i < |es| && 0 <= j < |es| && es[i].address == a && es[j].address == a ==> i == j
  }

  ghost predicate OneEntryOrEmpty(es: seq<LpEntry>, a: Bytes) {
    Lookup(LastPoints(es), a) == 0 || OneEntry(es, a)
  }

  ghost predicate OneEntryEach(es: seq<LpEntry>) {
    forall a :: a in LastPoints(es) ==> OneEntryOrEmpty(es, a)
  }

  lemma OneEntryCovers(es: seq<LpEntry>)
    requires OneEntryEach(es)
    ensures FirstCoversLast(es)
  {
    forall a | a in LastPoints(es) ensures CoversLast(es, a) {
      var i := LastEntry(es, a);
      assert FirstEntry(es, a) <= i;
      assert OneEntryOrEmpty(es, a);
    }
  }

  /** Lists with the same addresses and the same last entry of a list it alike. */
  lemma SameLast(es: seq<LpEntry>, fs: seq<LpEntry>, a: Bytes, last: nat)
    requires |es| == |fs| && last < |es| && es[last] == fs[last] && es[last].address == a
    requires forall k :: 0 <= k < |es| ==> es[k].address == fs[k].address
    requires forall k :: last < k < |es| ==> es[k].address != a
    ensures Lookup(LastPoints(es), a) == Lookup(LastPoints(fs), a)
  {
    LastEntryWins(es, a);
    LastEntryWins(fs, a);
  }

  /** What an address is listed at after a batch, for an address with several entries:
      its last entry is not its first and does not change. */
  lemma ListedAfter(over: Overflow, es: seq<LpEntry>, ws: seq<Withdrawal>, a: Bytes, i: nat, j: nat)
    requires i < j < |es| && es[i].address == a && es[j].address == a
    ensures Lookup(LastPoints(EntriesLeft(over, es, ws)), a) == Lookup(LastPoints(es), a)
  {
    LastEntryWins(es, a);
    var last := LastEntry(es, a);
    assert FirstEntry(es, a) <= i < j <= last;
    SameLast(es, EntriesLeft(over, es, ws), a, last);
  }

  lemma StillListed(over: Overflow, es: seq<LpEntry>, ws: seq<Withdrawal>, a: Bytes)
    requires a in LastPoints(EntriesLeft(over, es, ws))
    ensures a in LastPoints(es)
  {
    LastEntryWins(EntriesLeft(over, es, ws), a);
    LastEntryWins(es, a);
  }

  /** A batch leaves at most one entry each where there was at most one. */
  lemma StaysOneEntryEach(over: Overflow, es: seq<LpEntry>, ws: seq<Withdrawal>)
    requires OneEntryEach(es)
    ensures OneEntryEach(EntriesLeft(over, es, ws))
  {
    var now := EntriesLeft(over, es, ws);
    forall a | a in LastPoints(now) && Lookup(LastPoints(now), a) != 0 ensures OneEntryOrEmpty(now, a) {
      StillListed(over, es, ws, a);
      assert OneEntryOrEmpty(es, a);
      StaysOneEntry(over, es, ws, a);
    }
  }

  lemma StaysOneEntry(over: Overflow, es: seq<LpEntry>, ws: seq<Withdrawal>, a: Bytes)
    requires OneEntryOrEmpty(es, a) && Lookup(LastPoints(EntriesLeft(over, es, ws)), a) != 0
    ensures OneEntry(EntriesLeft(over, es, ws), a)
  {
    var now := EntriesLeft(over, es, ws);
    assert forall i :: 0 <= i < |es| ==> now[i].address == es[i].address;
    if i, j :| 0 <= i < j < |es| && es[i].address == a && es[j].address == a {
      ListedAfter(over, es, ws, a, i, j);
      assert false;
    }
  }

  /** What an address with a single entry is listed at after a batch. */
  lemma ListedSingle(over: Overflow, es: seq<LpEntry>, ws: seq<Withdrawal>, a: Bytes)
    requires a in LastPoints(es) && OneEntry(es, a)
    ensures Lookup(LastPoints(es), a) == FirstPoints(es, a)
    ensures Lookup(LastPoints(EntriesLeft(over, es, ws)), a) == FirstLeft(over, es, ws, a)
  {
    var now, last := EntriesLeft(over, es, ws), FirstEntry(es, a);
    LastEntryWins(es, a);
    LastEntryWins(now, a);
    var i := LastEntry(es, a);
    assert i == last;
    assert now[last].address == a && forall k :: last < k < |now| ==> now[k].address != a;
  }

  /** An address listed with nothing, or with a single entry, is listed after a batch at
      what the batch has left it. */
  lemma ListedLeft(over: Overflow, es: seq<LpEntry>, ws: seq<Withdrawal>, a: Bytes)
    requires a in LastPoints(es) && OneEntryOrEmpty(es, a)
    ensures Lookup(LastPoints(EntriesLeft(over, es, ws)), a) == PointsLeft(over, LastPoints(es), ws, a)
  {
    LeftIsPart(over, LastPoints(es), ws, a);
    if OneEntry(es, a) {
      ListedSingle(over, es, ws, a);
      CoveredKeepsUp(over, es, ws, a);
    } else {
      var i, j :| 0 <= i < j < |es| && es[i].address == a && es[j].address == a;
      ListedAfter(over, es, ws, a, i, j);
    }
  }

  lemma SameKeys(over: Overflow, es: seq<LpEntry>, ws: seq<Withdrawal>)
    ensures LastPoints(EntriesLeft(over, es, ws)).Keys == LastPoints(es).Keys
  {
    var now := EntriesLeft(over, es, ws);
    forall a ensures a in LastPoints(now) <==> a in LastPoints(es) {
      LastEntryWins(es, a);
      LastEntryWins(now, a);
      if i :| 0 <= i < |es| && es[i].address == a { assert now[i].address == a; }
      if i :| 0 <= i < |now| && now[i].address == a { assert es[i].address == a; }
    }
  }

  /** With one entry each, the price list after a batch is what the batch has left of it. */
  lemma ListIsLeft(over: Overflow, es: seq<LpEntry>, ws: seq<Withdrawal>)
    requires OneEntryEach(es)
    ensures LastPoints(EntriesLeft(over, es, ws)) == LeftMap(over, LastPoints(es), ws)
  {
    SameKeys(over, es, ws);
    forall a | a in LastPoints(es)
      ensures LastPoints(EntriesLeft(over, es, ws))[a] == LeftMap(over, LastPoints(es), ws)[a]
    {
      assert OneEntryOrEmpty(es, a);
      ListedLeft(over, es, ws, a);
    }
  }

  /** Where first entries cover last ones the total loses what the price list is burned. */
  lemma TotalAfter(over: Overflow, pool: PoolVal, ws: seq<Withdrawal>)
    requires ListBacked(pool) && 0 < pool.amount && 0 < pool.total && FirstCoversLast(pool.points)
    ensures var start := LastPoints(pool.points);
            PostWithdrawals(over, pool, ws).total
              == pool.total - MapSum(start) + MapSum(LeftMap(over, start, ws))
  {
    CoveredEntriesAfterBatch(over, pool, ws);
    PayoutsExact(over, pool, ws);
    BurnsConserve(over, LastPoints(pool.points), ws);
  }

  /** One entry each, and a list that the total covers, stay so. */
  lemma StaysListed(over: Overflow, pool: PoolVal, ws: seq<Withdrawal>)
    requires 0 < pool.amount && 0 < pool.total && OneEntryEach(pool.points) && ListBacked(pool)
    ensures OneEntryEach(PostWithdrawals(over, pool, ws).points) && ListBacked(PostWithdrawals(over, pool, ws))
  {
    OneEntryCovers(pool.points);
    EntriesAfterBatch(over, pool, ws);
    StaysOneEntryEach(over, pool.points, ws);
    ListIsLeft(over, pool.points, ws);
    TotalAfter(over, pool, ws);
  }

  // ------------------------------------------------------ a lone listed point

  /** A single point is listed, by an address whose first entry holds at least the total:
      each removal then takes one point of both, until the total is used up. */
  ghost predicate LonePointOf(pool: PoolVal, a: Bytes) {
    && Lookup(LastPoints(pool.points), a) == 1 && MapSum(LastPoints(pool.points)) == 1
    && pool.total <= FirstPoints(pool.points, a)
  }

  ghost predicate LonePoint(pool: PoolVal) {
    exists a :: a in LastPoints(pool.points) && LonePointOf(pool, a)
  }

  lemma PartOfMap<K>(m: map<K, int>, k: K)
    requires k in m && forall j :: j in m ==> 0 <= m[j]
    ensures m[k] <= MapSum(m)
  {
    MapSumRemove(m, k);
    MapSumNonNegative(m - {k});
  }

  /** Nobody else lists anything beside a lone point. */
  lemma OthersListNothing(start: map<Bytes, U64>, a: Bytes, b: Bytes)
    requires a in start && start[a] == 1 && MapSum(start) == 1 && a != b
    ensures Lookup(start, b) == 0
  {
    MapSumRemove<Bytes>(start, a);
    if b in start { PartOfMap<Bytes>(start - {a}, b); }
  }

  lemma {:induction false} MapSumOfZeros<K>(m: map<K, int>)
    requires forall k :: k in m ==> m[k] == 0
    ensures MapSum(m) == 0
    decreases |m|
  {
    if m != map[] {
      var k :| k in m && MapSum(m) == m[k] + MapSum(m - {k});
      MapSumOfZeros(m - {k});
    }
  }

  lemma LonePointCovers(pool: PoolVal, a: Bytes)
    requires 0 < pool.amount && 0 < pool.total && a in LastPoints(pool.points) && LonePointOf(pool, a)
    ensures FirstCoversLast(pool.points) && ListBacked(pool)
  {
    forall b | b in LastPoints(pool.points) ensures CoversLast(pool.points, b) {
      if b != a { OthersListNothing(LastPoints(pool.points), a, b); }
    }
  }

  /** What a batch leaves of a price list with a lone point, all of it to its address. */
  lemma LoneLeft(over: Overflow, start: map<Bytes, U64>, ws: seq<Withdrawal>, a: Bytes)
    requires a in start && start[a] == 1 && MapSum(start) == 1
    ensures MapSum(LeftMap(over, start, ws)) == PointsLeft(over, start, ws, a)
  {
    var left := LeftMap(over, start, ws);
    MapSumRemove<Bytes>(left, a);
    forall b | b in left - {a} ensures left[b] == 0 {
      OthersListNothing(start, a, b);
      LeftIsPart(over, start, ws, b);
    }
    MapSumOfZeros<Bytes>(left - {a});
  }

  /** A lone point of an address with several entries stays listed. */
  lemma LoneStaysListed(over: Overflow, es: seq<LpEntry>, ws: seq<Withdrawal>, a: Bytes)
    requires a in LastPoints(es) && LastPoints(es)[a] == 1 && MapSum(LastPoints(es)) == 1 && !OneEntry(es, a)
    ensures LastPoints(EntriesLeft(over, es, ws)) == LastPoints(es)
  {
    SameKeys(over, es, ws);
    forall b | b in LastPoints(es) ensures LastPoints(EntriesLeft(over, es, ws))[b] == LastPoints(es)[b] {
      if b == a {
        var i, j :| 0 <= i < j < |es| && es[i].address == a && es[j].address == a;
        ListedAfter(over, es, ws, a, i, j);
      } else {
        OthersListNothing(LastPoints(es), a, b);
        LeftIsPart(over, LastPoints(es), ws, b);
        ListedLeft(over, es, ws, b);
      }
    }
  }

  /** A lone point stays one, or is the only entry with listed points. */
  lemma StaysLone(over: Overflow, pool: PoolVal, ws: seq<Withdrawal>, a: Bytes)
    requires 0 < pool.amount && 0 < pool.total && a in LastPoints(pool.points)
    requires LonePointOf(pool, a) && !OneEntry(pool.points, a)
    ensures a in LastPoints(PostWithdrawals(over, pool, ws).points)
    ensures LonePointOf(PostWithdrawals(over, pool, ws), a)
  {
    var es := pool.points;
    LonePointCovers(pool, a);
    EntriesAfterBatch(over, pool, ws);
    LoneStaysListed(over, es, ws, a);
    TotalAfter(over, pool, ws);
    LoneLeft(over, LastPoints(es), ws, a);
    CoveredKeepsUp(over, es, ws, a);
    LastEntryWins(es, a);
    FirstPointsLeft(over, es, ws, a);
  }

  lemma LoneSingle(es: seq<LpEntry>, a: Bytes)
    requires a in LastPoints(es) && LastPoints(es)[a] == 1 && MapSum(LastPoints(es)) == 1 && OneEntry(es, a)
    ensures OneEntryEach(es)
  {
    forall b | b in LastPoints(es) ensures OneEntryOrEmpty(es, b) {
      if b != a { OthersListNothing(LastPoints(es), a, b); }
    }
  }

  // ------------------------------------------------------- sequences of batches

  /** One entry each and a list that the total covers, or a lone listed point. */
  ghost predicate KeepsRemoving(pool: PoolVal) {
    (OneEntryEach(pool.points) && ListBacked(pool)) || LonePoint(pool)
  }

  /** Such a pool removes every batch and is left one of the kind. */
  lemma StaysRemovable(over: Overflow, pool: PoolVal, ws: seq<Withdrawal>)
    requires 0 < pool.amount && 0 < pool.total && KeepsRemoving(pool)
    ensures FirstCoversLast(pool.points) && ListBacked(pool)
    ensures KeepsRemoving(PostWithdrawals(over, pool, ws))
  {
    if OneEntryEach(pool.points) && ListBacked(pool) {
      OneEntryCovers(pool.points);
      StaysListed(over, pool, ws);
    } else {
      var a :| a in LastPoints(pool.points) && LonePointOf(pool, a);
      LonePointCovers(pool, a);
      if OneEntry(pool.points, a) {
        LoneSingle(pool.points, a);
        StaysListed(over, pool, ws);
      } else {
        StaysLone(over, pool, ws, a);
      }
    }
  }

  lemma {:induction false} RemovesThrough(over: Overflow, pool: PoolVal, batches: seq<seq<Withdrawal>>)
    requires pool.amount == 0 || pool.total == 0 || KeepsRemoving(pool)
    ensures AllRemoved(over, pool, batches)
    decreases |batches|
  {
    if batches != [] {
      if !Dry(pool) { StaysRemovable(over, pool, batches[0]); }
      RemovalsSucceedIff(over, pool);
      RemovesThrough(over, PostWithdrawals(over, pool, batches[0]), batches[1..]);
    }
  }

  lemma LessThanAll(a: nat, n: nat, t: nat)
    requires 0 < a && n < t
    ensures a * n / t < a
  {
    MulDivBounds(a, n, t);
    if a * n / t >= a {
      MulMonotone(t, a, a * n / t);
      Distribute(t, n, a);
      PositiveProduct(a, t - n);
    }
  }

  /** A withdrawal that burns less than the total leaves money in the pool. */
  lemma LeavesMoney(over: Overflow, pool: PoolVal, w: Withdrawal)
    requires ListBacked(pool) && 0 < pool.amount && 0 < pool.total
    requires Burn(over, Lookup(LastPoints(pool.points), w.address), w.percent) < pool.total
    ensures PostWithdrawals(over, pool, [w]).amount > 0
  {
    var burn := Burn(over, Lookup(LastPoints(pool.points), w.address), w.percent);
    OneIsPaid(over, pool, w);
    LessThanAll(pool.amount, burn, pool.total);
    OnePaysOut(over, pool, w, pool.amount * burn / pool.total);
  }

  /** A change of an entry that a later one of its address hides does not show in the list. */
  lemma HiddenChange(es: seq<LpEntry>, i: nat, j: nat, e: LpEntry)
    requires i < j < |es| && es[i].address == es[j].address == e.address
    ensures LastPoints(es[i := e]) == LastPoints(es)
  {
    var fs := es[i := e];
    forall a ensures a in LastPoints(fs) <==> a in LastPoints(es) {
      LastEntryWins(es, a);
      LastEntryWins(fs, a);
      if k :| 0 <= k < |es| && es[k].address == a { assert fs[k].address == a; }
    }
    forall a | a in LastPoints(es) ensures LastPoints(fs)[a] == LastPoints(es)[a] {
      var last := LastEntry(es, a);
      SameLast(es, fs, a, last);
    }
  }

  lemma TakenByOne(over: Overflow, es: seq<LpEntry>, w: Withdrawal, burn: U64)
    requires CoversLast(es, w.address) && burn == Burn(over, Lookup(LastPoints(es), w.address), w.percent)
    ensures TakenAt(over, es, [w], 0) == burn && Sum(Taken(over, es, [w])) == burn
  {
    OneWithdrawal(over, es, w);
    assert Taken(over, es, [w])[0] == TakenAt(over, es, [w], 0);
    assert [burn] == [] + [burn];
    SumSnoc([], burn);
  }

  /** One withdrawal takes what it takes out of the first entry. */
  lemma {:induction false} DrawnEntries(over: Overflow, es: seq<LpEntry>, w: Withdrawal)
    requires FirstEntry(es, w.address) < |es|
    ensures TakenAt(over, es, [w], 0) <= FirstPoints(es, w.address)
    ensures EntriesLeft(over, es, [w])
         == es[FirstEntry(es, w.address) :=
               LpEntry(w.address, FirstPoints(es, w.address) - TakenAt(over, es, [w], 0))]
  {
    var ws := [w];
    assert ws[..0] == [];
    EntriesNothingYet(over, es);
    OwnEntryStep(over, es, ws, es, w.address);
  }

  /** If the address has two entries, a change of the first does not show in the list. */
  lemma FirstChangeHidden(es: seq<LpEntry>, a: Bytes, i: nat, j: nat, left: U64, fs: seq<LpEntry>)
    requires i < j < |es| && es[i].address == es[j].address == a
    requires FirstEntry(es, a) < |es| && fs == es[FirstEntry(es, a) := LpEntry(a, left)]
    ensures |fs| == |es| && fs[i].address == fs[j].address == a
    ensures LastPoints(fs) == LastPoints(es) && FirstPoints(fs, a) == left
  {
    assert FirstEntry(es, a) <= i;
    HiddenChange(es, FirstEntry(es, a), j, LpEntry(a, left));
    SameFirst(es, fs, a);
  }

  /** One withdrawal by a covered address with two entries takes its burn out of the
      first entry and the total, and the price list stays as it was. */
  lemma {:induction false} DrawsDown(over: Overflow, pool: PoolVal, w: Withdrawal, i: nat, j: nat, burn: U64)
    requires ListBacked(pool) && 0 < pool.amount && 0 < pool.total && i < j < |pool.points|
    requires pool.points[i].address == pool.points[j].address == w.address && CoversLast(pool.points, w.address)
    requires burn == Burn(over, Lookup(LastPoints(pool.points), w.address), w.percent)
    ensures var after := PostWithdrawals(over, pool, [w]);
            && |after.points| == |pool.points|
            && after.points[i].address == after.points[j].address == w.address
            && after.total == pool.total - burn
            && LastPoints(after.points) == LastPoints(pool.points)
            && FirstPoints(after.points, w.address) == FirstPoints(pool.points, w.address) - burn
  {
    EntriesAfterBatch(over, pool, [w]);
    assert FirstEntry(pool.points, w.address) <= i;
    TakenByOne(over, pool.points, w, burn);
    DrawnEntries(over, pool.points, w);
    FirstChangeHidden(pool.points, w.address, i, j, FirstPoints(pool.points, w.address) - burn,
                      PostWithdrawals(over, pool, [w]).points);
  }

  lemma SecondFails(over: Overflow, pool: PoolVal, vs: seq<Withdrawal>, ws: seq<Withdrawal>)
    requires !BatchRemoved(over, PostWithdrawals(over, pool, vs), ws)
    ensures !AllRemoved(over, pool, [vs, ws])
  {
    assert [vs, ws][1..] == [ws];
    assert !AllRemoved(over, PostWithdrawals(over, pool, vs), [ws]);
  }

  /** The last step towards a removal that fails: half a withdrawal leaves points, but
      fewer than are listed. */
  lemma HalfIsLeft(over: Overflow, pool: PoolVal, a: Bytes, i: nat, j: nat) returns (batches: seq<seq<Withdrawal>>)
    requires ListBacked(pool) && 0 < pool.amount && 0 < pool.total && i < j < |pool.points|
    requires pool.points[i].address == pool.points[j].address == a && CoversLast(pool.points, a)
    requires Lookup(LastPoints(pool.points), a) == pool.total >= 2
    ensures !AllRemoved(over, pool, batches)
  {
    var w := Withdrawal(a, 50);
    BurnIsFloor(over, pool.total, 50);
    DrawsDown(over, pool, w, i, j, Burn(over, pool.total, 50));
    LeavesMoney(over, pool, w);
    PartOfMap<Bytes>(LastPoints(pool.points), a);
    var ws := ListStays(over, PostWithdrawals(over, pool, [w]));
    SecondFails(over, pool, [w], ws);
    batches := [[w], ws];
  }

  /** An address with two entries and listed points, unless it is a lone point, in the
      end burns points that cannot be removed. */
  lemma {:induction false} EndsUnremoved(over: Overflow, pool: PoolVal, a: Bytes, i: nat, j: nat)
    returns (batches: seq<seq<Withdrawal>>)
    requires 0 < pool.amount && 0 < pool.total && i < j < |pool.points|
    requires pool.points[i].address == pool.points[j].address == a
    requires Lookup(LastPoints(pool.points), a) != 0 && !LonePointOf(pool, a)
    ensures !AllRemoved(over, pool, batches)
    decreases pool.total
  {
    var w, listed := Withdrawal(a, 100), Lookup(LastPoints(pool.points), a);
    if !ListBacked(pool) {
      var ws := ListStays(over, pool);
      batches := [ws];
    } else if !CoversLast(pool.points, a) {
      UncoveredStays(over, pool, a);
      batches := [[w]];
    } else if listed < pool.total {
      DrawsDown(over, pool, w, i, j, listed);
      LeavesMoney(over, pool, w);
      var rest := EndsUnremoved(over, PostWithdrawals(over, pool, [w]), a, i, j);
      batches := [[w]] + rest;
      assert batches[1..] == rest;
    } else {
      PartOfMap<Bytes>(LastPoints(pool.points), a);
      batches := HalfIsLeft(over, pool, a, i, j);
    }
  }

  /** Removals succeed through every sequence of batches exactly when each address with
      listed points has one entry only and the total covers the list, but for a lone
      listed point. */
  lemma AlwaysRemovedIff(over: Overflow, pool: PoolVal)
    ensures (forall batches :: AllRemoved(over, pool, batches))
       <==> (pool.amount == 0 || pool.total == 0 || KeepsRemoving(pool))
  {
    if Dry(pool) || KeepsRemoving(pool) {
      forall batches ensures AllRemoved(over, pool, batches) {
        RemovesThrough(over, pool, batches);
      }
    } else {
      var batches := FailsOnce(over, pool);
    }
  }

  lemma FailsOnce(over: Overflow, pool: PoolVal) returns (batches: seq<seq<Withdrawal>>)
    requires 0 < pool.amount && 0 < pool.total && !KeepsRemoving(pool)
    ensures !AllRemoved(over, pool, batches)
  {
    var es := pool.points;
    if OneEntryEach(es) {
      var ws := ListStays(over, pool);
      batches := [ws];
    } else {
      var a :| a in LastPoints(es) && !OneEntryOrEmpty(es, a);
      var i, j :| 0 <= i < j < |es| && es[i].address == a && es[j].address == a;
      batches := EndsUnremoved(over, pool, a, i, j);
    }
  }

  /** The exception is real: an unbacked pool of two points removes them one by one. */
  lemma LonePointExample(a: Bytes)
    ensures var pool := PoolVal(10, [LpEntry(a, 5), LpEntry(a, 1)], 2);
            LonePoint(pool) && !OneEntryEach(pool.points) && !Backed(pool)
  {
    var es := [LpEntry(a, 5), LpEntry(a, 1)];
    assert es[..1] == [LpEntry(a, 5)];
    assert [LpEntry(a, 5)][..0] == [];
    assert LastPoints([LpEntry(a, 5)]) == map[a := 5];
    assert LastPoints(es) == map[a := 1];
    MapSumRemove<Bytes>(map[a := 1], a);
    assert map[a := 1] - {a} == map[];
    assert LonePointOf(PoolVal(10, es, 2), a);
    assert es[0].address == a && es[1].address == a && !OneEntry(es, a);
    assert !OneEntryOrEmpty(es, a);
    assert Points(es) == [] + [5] + [1];
    SumSnoc([] + [5], 1);
    SumSnoc([], 5);
  }

  // ------------------------------------------------------------- backed pools

  lemma TwoPartsOfSum(xs: seq<int>, i: nat, j: nat)
    requires i < j < |xs| && forall k :: 0 <= k < |xs| ==> 0 <= xs[k]
    ensures xs[i] + xs[j] <= Sum(xs)
  {
    SumUpdate(xs, i, 0);
    PartOfSum(xs[i := 0], j);
  }

  /** The entries of a backed pool hold too little for a lone point beside another entry. */
  lemma BackedLonePoint(pool: PoolVal, a: Bytes)
    requires Backed(pool) && a in LastPoints(pool.points) && LonePointOf(pool, a)
    ensures OneEntryEach(pool.points)
  {
    var es := pool.points;
    if OneEntry(es, a) {
      LoneSingle(es, a);
    } else {
      var i, j :| 0 <= i < j < |es| && es[i].address == a && es[j].address == a;
      var last := LastEntry(es, a);
      assert FirstEntry(es, a) <= i < j <= last;
      TwoPartsOfSum(Points(es), FirstEntry(es, a), last);
      assert false;
    }
  }

  /** From a backed pool the conditions are on the entries alone. */
  lemma BackedRemovals(over: Overflow, pool: PoolVal)
    requires Backed(pool)
    ensures (forall ws :: BatchRemoved(over, pool, ws))
       <==> (pool.amount == 0 || pool.total == 0 || FirstCoversLast(pool.points))
    ensures (forall batches :: AllRemoved(over, pool, batches))
       <==> (pool.amount == 0 || pool.total == 0 || OneEntryEach(pool.points))
  {
    BackedList(pool);
    RemovalsSucceedIff(over, pool);
    AlwaysRemovedIff(over, pool);
    if LonePoint(pool) {
      var a :| a in LastPoints(pool.points) && LonePointOf(pool, a);
      BackedLonePoint(pool, a);
    }
  }

  // ----------------------------------------------------------------- deposits

  /** A new entry breaks one entry each exactly when it has points and its address an entry already. */
  lemma GrantKeepsOneEntryIff(es: seq<LpEntry>, e: LpEntry)
    requires OneEntryEach(es)
    ensures OneEntryEach(es + [e]) <==> e.points == 0 || e.address !in LastPoints(es)
  {
    var fs := es + [e];
    assert fs[..|es|] == es;
    assert LastPoints(fs) == LastPoints(es)[e.address := e.points];
    LastEntryWins(es, e.address);
    if e.points == 0 || e.address !in LastPoints(es) {
      forall a | a in LastPoints(fs) ensures OneEntryOrEmpty(fs, a) {
        if a != e.address { GrantToAnother(es, e, a); }
      }
    } else {
      var i :| 0 <= i < |es| && es[i].address == e.address;
      assert fs[i].address == fs[|es|].address == e.address;
      assert !OneEntryOrEmpty(fs, e.address);
    }
  }

  lemma GrantToAnother(es: seq<LpEntry>, e: LpEntry, a: Bytes)
    requires OneEntryEach(es) && a != e.address
    ensures OneEntryOrEmpty(es + [e], a)
  {
    assert (es + [e])[..|es|] == es;
    LastEntryWins(es, a);
    if a in LastPoints(es) { assert OneEntryOrEmpty(es, a); }
  }

}
