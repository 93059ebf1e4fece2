/** How a withdrawal batch takes the burned points out of the pool's entries. */
module PointRemoval {
  import opened Uint64
  import opened Aggregates
  import opened Bytes
  import opened DexBatch
  import opened Withdrawals

  /** A removal takes the same number of points from the entries and from the
      total, or takes none from either. */
  lemma RemovalIsEven(pool: PoolVal, a: Bytes, n: U64)
    ensures var after := RemovePoints(pool, a, n);
            var taken := if CanRemove(pool, a, n) then n else 0;
            && Sum(Points(after.points)) == Sum(Points(pool.points)) - taken
            && after.total == pool.total - taken
            && after.amount == pool.amount
  {
    if CanRemove(pool, a, n) {
      var i := FirstEntry(pool.points, a);
      var left := pool.points[i].points - n;
      assert Points(pool.points[i := LpEntry(a, left)]) == Points(pool.points)[i := left];
      SumUpdate(Points(pool.points), i, left);
    }
  }

  /** Over a whole batch the entries and the total lose the same number of points. */
  lemma {:induction false} RemovalsAreEven(pool: PoolVal, ws: seq<Withdrawal>, rs: seq<WithdrawResult>)
    requires |ws| == |rs|
    ensures var after := RemoveBurned(pool, ws, rs);
            && Sum(Points(after.points)) - after.total == Sum(Points(pool.points)) - pool.total
            && after.total <= pool.total
  {
    if ws != [] {
      var n := |ws| - 1;
      RemovalsAreEven(pool, ws[..n], rs[..n]);
      RemovalIsEven(RemoveBurned(pool, ws[..n], rs[..n]), ws[n].address, rs[n].pointsBurned);
    }
  }

  lemma {:induction false} SameFirst(es: seq<LpEntry>, fs: seq<LpEntry>, a: Bytes)
    requires |es| == |fs| && forall i :: 0 <= i < |es| ==> es[i].address == fs[i].address
    ensures FirstEntry(es, a) == FirstEntry(fs, a)
  {
    if es != [] { SameFirst(es[1..], fs[1..], a); }
  }

  // -------------------------------------------------------- the first entries

  /** Points in the first entry of the address, the one that removals draw on. */
  function FirstPoints(es: seq<LpEntry>, a: Bytes): U64 {
    var i := FirstEntry(es, a);
    if i < |es| then es[i].points else 0
  }

  /** Points left in that entry after the withdrawals ws: a burn it holds is taken out
      of it, a larger one is not. */
  function FirstLeft(over: Overflow, es: seq<LpEntry>, ws: seq<Withdrawal>, a: Bytes): U64 {
    if ws == [] then FirstPoints(es, a) else
      var n := |ws| - 1;
      var left, burn := FirstLeft(over, es, ws[..n], a), BurnAt(over, LastPoints(es), ws, n);
      if ws[n].address == a && burn <= left then left - burn else left
  }

  /** The points the k-th withdrawal really takes out of the entries. */
  function TakenAt(over: Overflow, es: seq<LpEntry>, ws: seq<Withdrawal>, k: nat): U64
    requires k < |ws|
  {
    var burn := BurnAt(over, LastPoints(es), ws, k);
    if burn <= FirstLeft(over, es, ws[..k], ws[k].address) then burn else 0
  }

  function Taken(over: Overflow, es: seq<LpEntry>, ws: seq<Withdrawal>): seq<int> {
    seq(|ws|, k requires 0 <= k < |ws| => TakenAt(over, es, ws, k))
  }

  /** The entries after the withdrawals ws: only first entries change. */
  function EntriesLeft(over: Overflow, es: seq<LpEntry>, ws: seq<Withdrawal>): seq<LpEntry> {
    seq(|es|, i requires 0 <= i < |es| =>
      if i == FirstEntry(es, es[i].address)
      then LpEntry(es[i].address, FirstLeft(over, es, ws, es[i].address)) else es[i])
  }

  /** Nobody burns points without having an entry. */
  lemma BurnHasEntry(over: Overflow, es: seq<LpEntry>, ws: seq<Withdrawal>, k: nat)
    requires k < |ws| && BurnAt(over, LastPoints(es), ws, k) != 0
    ensures FirstEntry(es, ws[k].address) < |es|
  {
    NothingWithoutPoints(over, LastPoints(es), ws[..k], ws[k].address);
    LastEntryWins(es, ws[k].address);
  }

  /** A removal the total allows succeeds exactly when the first entry holds it. */
  lemma AllowedRemoval(pool: PoolVal, a: Bytes, n: U64)
    requires n <= pool.total && FirstEntry(pool.points, a) < |pool.points|
    ensures var held, i := FirstPoints(pool.points, a), FirstEntry(pool.points, a);
            var taken := if n <= held then n else 0;
            && (CanRemove(pool, a, n) <==> n <= held)
            && RemovePoints(pool, a, n).points == pool.points[i := LpEntry(a, held - taken)]
            && RemovePoints(pool, a, n).total == pool.total - taken
  {}

  /** The last withdrawal of ws takes what it takes from its own address only. */
  lemma FirstLeftStep(over: Overflow, es: seq<LpEntry>, ws: seq<Withdrawal>, a: Bytes)
    requires ws != []
    ensures var n := |ws| - 1;
            FirstLeft(over, es, ws, a) == FirstLeft(over, es, ws[..n], a)
                                          - if a == ws[n].address then TakenAt(over, es, ws, n) else 0
  {}

  lemma EntryLeftAt(over: Overflow, es: seq<LpEntry>, ws: seq<Withdrawal>, j: nat)
    requires ws != [] && j < |es| && j != FirstEntry(es, ws[|ws| - 1].address)
    ensures EntriesLeft(over, es, ws)[j] == EntriesLeft(over, es, ws[..|ws| - 1])[j]
  {
    if es[j].address != ws[|ws| - 1].address { FirstLeftStep(over, es, ws, es[j].address); }
  }

  /** One more withdrawal, the last of ws, only touches its address's first entry. */
  lemma EntriesLeftStep(over: Overflow, es: seq<LpEntry>, ws: seq<Withdrawal>, before: seq<LpEntry>)
    requires ws != [] && before == EntriesLeft(over, es, ws[..|ws| - 1])
    ensures var a := ws[|ws| - 1].address;
            EntriesLeft(over, es, ws) == if FirstEntry(es, a) == |es| then before
                                         else before[FirstEntry(es, a) := LpEntry(a, FirstLeft(over, es, ws, a))]
  {
    var after := EntriesLeft(over, es, ws);
    forall j | 0 <= j < |es| && j != FirstEntry(es, ws[|ws| - 1].address) ensures after[j] == before[j] {
      EntryLeftAt(over, es, ws, j);
    }
  }

  /** An entry list that withdrawals have worked on has its first entries where they were. */
  lemma FirstPointsLeft(over: Overflow, es: seq<LpEntry>, ws: seq<Withdrawal>, a: Bytes)
    requires FirstEntry(es, a) < |es|
    ensures var now := EntriesLeft(over, es, ws);
            FirstEntry(now, a) == FirstEntry(es, a) && FirstPoints(now, a) == FirstLeft(over, es, ws, a)
  {
    SameFirst(es, EntriesLeft(over, es, ws), a);
  }

  /** The last withdrawal of ws takes what it takes out of the first entry of its address. */
  lemma OwnEntryStep(over: Overflow, es: seq<LpEntry>, ws: seq<Withdrawal>, before: seq<LpEntry>, a: Bytes)
    requires ws != [] && a == ws[|ws| - 1].address && FirstEntry(es, a) < |es|
    requires before == EntriesLeft(over, es, ws[..|ws| - 1])
    ensures FirstEntry(before, a) < |before|
    ensures FirstPoints(before, a) == FirstLeft(over, es, ws[..|ws| - 1], a)
    ensures EntriesLeft(over, es, ws)
         == before[FirstEntry(before, a) :=
                   LpEntry(a, FirstPoints(before, a) - TakenAt(over, es, ws, |ws| - 1))]
  {
    EntriesLeftStep(over, es, ws, before);
    FirstLeftStep(over, es, ws, a);
    FirstPointsLeft(over, es, ws[..|ws| - 1], a);
  }

  /** What the last withdrawal of ws does to the entries and the total, if it burns. */
  lemma BurnStep(over: Overflow, es: seq<LpEntry>, ws: seq<Withdrawal>, mid: PoolVal, a: Bytes, burn: U64)
    requires ws != [] && burn <= mid.total && mid.points == EntriesLeft(over, es, ws[..|ws| - 1])
    requires a == ws[|ws| - 1].address && burn == BurnAt(over, LastPoints(es), ws, |ws| - 1) != 0
    ensures CanRemove(mid, a, burn) <==> burn <= FirstLeft(over, es, ws[..|ws| - 1], a)
    ensures RemovePoints(mid, a, burn).points == EntriesLeft(over, es, ws)
    ensures RemovePoints(mid, a, burn).total == mid.total - TakenAt(over, es, ws, |ws| - 1)
  {
    BurnHasEntry(over, es, ws, |ws| - 1);
    OwnEntryStep(over, es, ws, mid.points, a);
    AllowedRemoval(mid, a, burn);
  }

  /** A withdrawal that burns nothing leaves all entries alone. */
  lemma NoBurnStep(over: Overflow, es: seq<LpEntry>, ws: seq<Withdrawal>)
    requires ws != [] && BurnAt(over, LastPoints(es), ws, |ws| - 1) == 0
    ensures EntriesLeft(over, es, ws) == EntriesLeft(over, es, ws[..|ws| - 1])
    ensures TakenAt(over, es, ws, |ws| - 1) == 0
  {
    var n := |ws| - 1;
    forall j | 0 <= j < |es| ensures EntriesLeft(over, es, ws)[j] == EntriesLeft(over, es, ws[..n])[j] {
      FirstLeftStep(over, es, ws, es[j].address);
    }
  }

  /** The pool as the second pass finds it when it comes to the k-th withdrawal. */
  function BeforeRemoval(over: Overflow, pool: PoolVal, ws: seq<Withdrawal>, k: nat): PoolVal
    requires k <= |ws|
  {
    var rs := Results(over, pool, ws);
    RemoveBurned(pool.(amount := PaidOut(pool.amount, rs)), ws[..k], rs[..k])
  }

  lemma RemoveBurnedStep(pool: PoolVal, ws: seq<Withdrawal>, rs: seq<WithdrawResult>, k: nat)
    requires |ws| == |rs| && k < |ws|
    ensures var mid, burn := RemoveBurned(pool, ws[..k], rs[..k]), rs[k].pointsBurned;
            RemoveBurned(pool, ws[..k + 1], rs[..k + 1])
              == if burn == 0 then mid else RemovePoints(mid, ws[k].address, burn)
  {
    assert ws[..k + 1][..k] == ws[..k] && rs[..k + 1][..k] == rs[..k];
  }

  lemma EntriesNothingYet(over: Overflow, es: seq<LpEntry>)
    ensures EntriesLeft(over, es, []) == es
  {}

  /** Of a prefix of the batch the burns and takings are those of the batch. */
  lemma PrefixOfBatch(over: Overflow, es: seq<LpEntry>, ws: seq<Withdrawal>, k: nat)
    requires k < |ws|
    ensures ws[..k + 1][..k] == ws[..k]
    ensures BurnAt(over, LastPoints(es), ws[..k + 1], k) == BurnAt(over, LastPoints(es), ws, k)
    ensures TakenAt(over, es, ws[..k + 1], k) == TakenAt(over, es, ws, k)
    ensures Taken(over, es, ws)[..k + 1] == Taken(over, es, ws)[..k] + [TakenAt(over, es, ws, k)]
  {
    assert ws[..k + 1][..k] == ws[..k];
  }

  /** A batch takes at most the points it burns. */
  lemma {:induction false} TakenWithinBurns(over: Overflow, es: seq<LpEntry>, ws: seq<Withdrawal>, k: nat)
    requires k <= |ws|
    ensures Sum(Taken(over, es, ws)[..k]) <= Sum(Burns(over, LastPoints(es), ws[..k]))
    decreases k
  {
    if k > 0 {
      var start := LastPoints(es);
      TakenWithinBurns(over, es, ws, k - 1);
      PrefixOfBatch(over, es, ws, k - 1);
      BurnsSnoc(over, start, ws[..k]);
      SumSnoc(Taken(over, es, ws)[..k - 1], TakenAt(over, es, ws, k - 1));
      SumSnoc(Burns(over, start, ws[..k - 1]), BurnAt(over, start, ws[..k], k - 1));
    }
  }

  /** If the price list is backed, what is left of the total covers every next burn. */
  lemma TotalCoversBurn(over: Overflow, pool: PoolVal, ws: seq<Withdrawal>, k: nat)
    requires ListBacked(pool) && k < |ws|
    ensures Sum(Taken(over, pool.points, ws)[..k]) + BurnAt(over, LastPoints(pool.points), ws, k) <= pool.total
  {
    var start := LastPoints(pool.points);
    TakenWithinBurns(over, pool.points, ws, k);
    PrefixOfBatch(over, pool.points, ws, k);
    BurnsSnoc(over, start, ws[..k + 1]);
    SumSnoc(Burns(over, start, ws[..k]), BurnAt(over, start, ws[..k + 1], k));
    BurnsBounded(over, pool, ws[..k + 1]);
  }

  /** The second pass, removal by removal, for every pool with a backed price list. */
  lemma {:induction false} EntriesBeforeRemoval(over: Overflow, pool: PoolVal, ws: seq<Withdrawal>, k: nat)
    requires ListBacked(pool) && 0 < pool.amount && 0 < pool.total && k <= |ws|
    ensures BeforeRemoval(over, pool, ws, k).points == EntriesLeft(over, pool.points, ws[..k])
    ensures BeforeRemoval(over, pool, ws, k).total == pool.total - Sum(Taken(over, pool.points, ws)[..k])
    decreases k
  {
    if k == 0 {
      EntriesNothingYet(over, pool.points);
    } else {
      EntriesBeforeRemoval(over, pool, ws, k - 1);
      NextRemoval(over, pool, ws, k - 1);
    }
  }

  lemma NextRemoval(over: Overflow, pool: PoolVal, ws: seq<Withdrawal>, k: nat)
    requires ListBacked(pool) && 0 < pool.amount && 0 < pool.total && k < |ws|
    requires BeforeRemoval(over, pool, ws, k).points == EntriesLeft(over, pool.points, ws[..k])
    requires BeforeRemoval(over, pool, ws, k).total == pool.total - Sum(Taken(over, pool.points, ws)[..k])
    ensures BeforeRemoval(over, pool, ws, k + 1).points == EntriesLeft(over, pool.points, ws[..k + 1])
    ensures BeforeRemoval(over, pool, ws, k + 1).total == pool.total - Sum(Taken(over, pool.points, ws)[..k + 1])
  {
    var es, rs := pool.points, Results(over, pool, ws);
    assert rs[k].pointsBurned == BurnAt(over, LastPoints(es), ws, k);
    TotalCoversBurn(over, pool, ws, k);
    PrefixOfBatch(over, es, ws, k);
    RemoveBurnedStep(pool.(amount := PaidOut(pool.amount, rs)), ws, rs, k);
    if rs[k].pointsBurned == 0 {
      NoBurnStep(over, es, ws[..k + 1]);
    } else {
      BurnStep(over, es, ws[..k + 1], BeforeRemoval(over, pool, ws, k), ws[k].address, rs[k].pointsBurned);
    }
    SumSnoc(Taken(over, es, ws)[..k], TakenAt(over, es, ws, k));
  }

  /** The pool after a batch: every first entry is left what its burns leave it, every
      other entry is untouched, and the total loses what was really taken. */
  lemma EntriesAfterBatch(over: Overflow, pool: PoolVal, ws: seq<Withdrawal>)
    requires ListBacked(pool) && 0 < pool.amount && 0 < pool.total
    ensures var after := PostWithdrawals(over, pool, ws);
            && after.points == EntriesLeft(over, pool.points, ws)
            && after.total == pool.total - Sum(Taken(over, pool.points, ws))
  {
    EntriesBeforeRemoval(over, pool, ws, |ws|);
    assert ws[..|ws|] == ws && Results(over, pool, ws)[..|ws|] == Results(over, pool, ws);
    assert Taken(over, pool.points, ws)[..|ws|] == Taken(over, pool.points, ws);
  }

  // ---------------------------------------------------- when removals succeed

  /** The k-th withdrawal of the batch burns nothing, or its burn can be removed. */
  ghost predicate Removes(over: Overflow, pool: PoolVal, ws: seq<Withdrawal>, k: nat)
    requires k < |ws|
  {
    var burn := Results(over, pool, ws)[k].pointsBurned;
    burn != 0 ==> CanRemove(BeforeRemoval(over, pool, ws, k), ws[k].address, burn)
  }

  ghost predicate BatchRemoved(over: Overflow, pool: PoolVal, ws: seq<Withdrawal>) {
    forall k: nat :: k < |ws| ==> Removes(over, pool, ws, k)
  }

  /** The first entry of an address holds what its last entry is priced at. */
  ghost predicate CoversLast(es: seq<LpEntry>, a: Bytes) {
    Lookup(LastPoints(es), a) <= FirstPoints(es, a)
  }

  ghost predicate FirstCoversLast(es: seq<LpEntry>) {
    forall a :: a in LastPoints(es) ==> CoversLast(es, a)
  }

  /** A burn is removed exactly when the first entry still holds it. */
  lemma RemovesIff(over: Overflow, pool: PoolVal, ws: seq<Withdrawal>, k: nat)
    requires ListBacked(pool) && 0 < pool.amount && 0 < pool.total && k < |ws|
    ensures Removes(over, pool, ws, k)
       <==> TakenAt(over, pool.points, ws, k) == Results(over, pool, ws)[k].pointsBurned
  {
    EntriesBeforeRemoval(over, pool, ws, k);
    TotalCoversBurn(over, pool, ws, k);
    PrefixOfBatch(over, pool.points, ws, k);
    var burn := Results(over, pool, ws)[k].pointsBurned;
    if burn != 0 {
      BurnStep(over, pool.points, ws[..k + 1], BeforeRemoval(over, pool, ws, k), ws[k].address, burn);
    }
  }

  /** A first entry that covers the last one pays for every burn of its address. */
  lemma {:induction false} CoveredKeepsUp(over: Overflow, es: seq<LpEntry>, ws: seq<Withdrawal>, a: Bytes)
    requires CoversLast(es, a)
    ensures FirstLeft(over, es, ws, a)
         == FirstPoints(es, a) - (Lookup(LastPoints(es), a) - PointsLeft(over, LastPoints(es), ws, a))
    ensures PointsLeft(over, LastPoints(es), ws, a) <= Lookup(LastPoints(es), a)
  {
    if ws != [] { CoveredKeepsUp(over, es, ws[..|ws| - 1], a); }
  }

  lemma CoveredIsTaken(over: Overflow, es: seq<LpEntry>, ws: seq<Withdrawal>, k: nat)
    requires k < |ws| && CoversLast(es, ws[k].address)
    ensures TakenAt(over, es, ws, k) == BurnAt(over, LastPoints(es), ws, k)
  {
    CoveredKeepsUp(over, es, ws[..k], ws[k].address);
  }

  /** A batch of one withdrawal. */
  lemma OneWithdrawal(over: Overflow, es: seq<LpEntry>, w: Withdrawal)
    ensures var burn := Burn(over, Lookup(LastPoints(es), w.address), w.percent);
            && BurnAt(over, LastPoints(es), [w], 0) == burn
            && Taken(over, es, [w]) == [if burn <= FirstPoints(es, w.address) then burn else 0]
  {
    assert [w][..0] == [];
  }

  lemma WithdrawAll(over: Overflow, es: seq<LpEntry>, a: Bytes)
    ensures BurnAt(over, LastPoints(es), [Withdrawal(a, 100)], 0) == Lookup(LastPoints(es), a)
    ensures Taken(over, es, [Withdrawal(a, 100)]) == [if CoversLast(es, a) then Lookup(LastPoints(es), a) else 0]
  {
    OneWithdrawal(over, es, Withdrawal(a, 100));
  }

  lemma CoveredRemoves(over: Overflow, pool: PoolVal, ws: seq<Withdrawal>)
    requires ListBacked(pool) && (pool.amount == 0 || pool.total == 0 || FirstCoversLast(pool.points))
    ensures BatchRemoved(over, pool, ws)
  {
    if !Dry(pool) {
      forall k: nat | k < |ws| ensures Removes(over, pool, ws, k) {
        RemovesIff(over, pool, ws, k);
        CoversUnlisted(pool.points, ws[k].address);
        CoveredIsTaken(over, pool.points, ws, k);
      }
    }
  }

  /** Whatever the total, the whole withdrawal of an address that is not covered stays. */
  lemma UncoveredStays(over: Overflow, pool: PoolVal, a: Bytes)
    requires 0 < pool.amount && 0 < pool.total && !CoversLast(pool.points, a)
    ensures !BatchRemoved(over, pool, [Withdrawal(a, 100)])
  {
    var ws := [Withdrawal(a, 100)];
    WithdrawAll(over, pool.points, a);
    assert BeforeRemoval(over, pool, ws, 0).points == pool.points;
    assert !Removes(over, pool, ws, 0);
  }

  lemma CoversUnlisted(es: seq<LpEntry>, a: Bytes)
    requires FirstCoversLast(es)
    ensures CoversLast(es, a)
  {}

  /** Where first entries cover last ones, an address's burns all come out of its first
      entry, and the total loses everything burned. */
  lemma CoveredEntriesAfterBatch(over: Overflow, pool: PoolVal, ws: seq<Withdrawal>)
    requires ListBacked(pool) && 0 < pool.amount && 0 < pool.total && FirstCoversLast(pool.points)
    ensures var after, es, start := PostWithdrawals(over, pool, ws), pool.points, LastPoints(pool.points);
            && |after.points| == |es|
            && after.total == pool.total - Sum(Burned(Results(over, pool, ws)))
            && forall i :: 0 <= i < |es| ==>
                 && after.points[i].address == es[i].address
                 && after.points[i].points == es[i].points
                    - if i == FirstEntry(es, es[i].address) then Sum(BurnsOf(over, start, ws, es[i].address)) else 0
  {
    var es := pool.points;
    EntriesAfterBatch(over, pool, ws);
    forall k | 0 <= k < |ws| ensures Taken(over, es, ws)[k] == Burned(Results(over, pool, ws))[k] {
      CoversUnlisted(es, ws[k].address);
      CoveredIsTaken(over, es, ws, k);
    }
    assert Taken(over, es, ws) == Burned(Results(over, pool, ws));
    forall i | 0 <= i < |es| && i == FirstEntry(es, es[i].address)
      ensures EntriesLeft(over, es, ws)[i].points
           == es[i].points - Sum(BurnsOf(over, LastPoints(es), ws, es[i].address))
    {
      CoversUnlisted(es, es[i].address);
      CoveredKeepsUp(over, es, ws, es[i].address);
      BurnsTelescope(over, LastPoints(es), ws, es[i].address);
    }
  }

  // -------------------------------------------------------- price per point

  /** A batch does not lower what a remaining point is worth. */
  ghost predicate KeepsPrice(over: Overflow, pool: PoolVal, ws: seq<Withdrawal>) {
    var after := PostWithdrawals(over, pool, ws);
    after.amount * pool.total >= pool.amount * after.total
  }

  /** The points an address is priced at can all be removed, or are worth nothing. */
  ghost predicate CoveredOrWorthless(pool: PoolVal, a: Bytes)
    requires 0 < pool.amount && 0 < pool.total
  {
    CoversLast(pool.points, a) || pool.amount * Lookup(LastPoints(pool.points), a) / pool.total == 0
  }

  /** No batch lowers the price of a point exactly when every address is covered, or too
      small to be paid, given that the price list is backed: otherwise the whole
      withdrawal of one address is paid for points that stay in the pool. */
  lemma PriceKeptIff(over: Overflow, pool: PoolVal)
    requires ListBacked(pool)
    ensures (forall ws :: KeepsPrice(over, pool, ws))
       <==> (pool.amount == 0 || pool.total == 0
             || forall a :: a in LastPoints(pool.points) ==> CoveredOrWorthless(pool, a))
  {
    if Dry(pool) {
    } else if forall a :: a in LastPoints(pool.points) ==> CoveredOrWorthless(pool, a) {
      forall ws ensures KeepsPrice(over, pool, ws) {
        PriceKept(over, pool, ws);
      }
    } else {
      var a :| a in LastPoints(pool.points) && !CoveredOrWorthless(pool, a);
      PriceFalls(over, pool, a);
    }
  }

  lemma PriceKept(over: Overflow, pool: PoolVal, ws: seq<Withdrawal>)
    requires ListBacked(pool) && 0 < pool.amount && 0 < pool.total
    requires forall a :: a in LastPoints(pool.points) ==> CoveredOrWorthless(pool, a)
    ensures KeepsPrice(over, pool, ws)
  {
    var after, paid := PostWithdrawals(over, pool, ws), Sum(Paid(Results(over, pool, ws)));
    PaidAtMostTaken(over, pool, ws);
    Solvency(over, pool, ws);
    EntriesAfterBatch(over, pool, ws);
    PaidForTaken(pool.amount, pool.total, paid, Sum(Taken(over, pool.points, ws)), after.amount, after.total);
  }

  lemma PaidAtMostTaken(over: Overflow, pool: PoolVal, ws: seq<Withdrawal>)
    requires ListBacked(pool) && 0 < pool.amount && 0 < pool.total
    requires forall a :: a in LastPoints(pool.points) ==> CoveredOrWorthless(pool, a)
    ensures Sum(Paid(Results(over, pool, ws))) * pool.total <= pool.amount * Sum(Taken(over, pool.points, ws))
  {
    PaidForWhatIsTaken(over, pool, ws);
    FloorsOfParts(pool.amount, Taken(over, pool.points, ws), pool.total);
  }

  lemma PaidForWhatIsTaken(over: Overflow, pool: PoolVal, ws: seq<Withdrawal>)
    requires ListBacked(pool) && 0 < pool.amount && 0 < pool.total
    requires forall a :: a in LastPoints(pool.points) ==> CoveredOrWorthless(pool, a)
    ensures Paid(Results(over, pool, ws)) == Quotients(pool.amount, Taken(over, pool.points, ws), pool.total)
  {
    PayoutsExact(over, pool, ws);
    forall k | 0 <= k < |ws|
      ensures Paid(Results(over, pool, ws))[k]
           == Quotients(pool.amount, Taken(over, pool.points, ws), pool.total)[k]
    {
      PaidIsTaken(over, pool, ws, k);
    }
  }

  lemma PaidForTaken(A: nat, T: nat, paid: int, taken: int, left: int, rest: int)
    requires paid * T <= A * taken && left == A - paid && rest == T - taken
    ensures left * T >= A * rest
  {
    Distribute(A, paid, T);
    Distribute(T, taken, A);
  }

  /** What a withdrawal is paid is the price of what it really takes. */
  lemma PaidIsTaken(over: Overflow, pool: PoolVal, ws: seq<Withdrawal>, k: nat)
    requires ListBacked(pool) && 0 < pool.amount && 0 < pool.total && k < |ws|
    requires forall a :: a in LastPoints(pool.points) ==> CoveredOrWorthless(pool, a)
    ensures pool.amount * BurnAt(over, LastPoints(pool.points), ws, k) / pool.total
         == pool.amount * TakenAt(over, pool.points, ws, k) / pool.total
  {
    var es, a := pool.points, ws[k].address;
    var start := LastPoints(es);
    NothingWithoutPoints(over, start, ws[..k], a);
    if a in start && !CoversLast(es, a) {
      assert CoveredOrWorthless(pool, a);
      LeftIsPart(over, start, ws[..k], a);
      SmallerQuotient(pool.amount, BurnAt(over, start, ws, k), start[a], pool.total);
      ZeroShare(pool.amount, pool.total);
    } else if a in start {
      CoveredIsTaken(over, es, ws, k);
    }
  }

  lemma SmallerQuotient(a: nat, b: nat, c: nat, t: nat)
    requires b <= c && 0 < t
    ensures 0 <= a * b / t <= a * c / t
  {
    MulMonotone(a, b, c);
    MulDivBounds(a, b, t);
    FloorIsLargest(a * c, t, a * b / t);
  }

  /** The answer to a batch of one withdrawal. */
  lemma OneIsPaid(over: Overflow, pool: PoolVal, w: Withdrawal)
    requires ListBacked(pool) && 0 < pool.amount && 0 < pool.total
    ensures var burn := Burn(over, Lookup(LastPoints(pool.points), w.address), w.percent);
            && Burned(Results(over, pool, [w])) == [burn]
            && Paid(Results(over, pool, [w])) == [pool.amount * burn / pool.total]
  {
    OneWithdrawal(over, pool.points, w);
    PayoutsExact(over, pool, [w]);
  }

  /** What a pool has left after a batch of one withdrawal. */
  lemma OnePaysOut(over: Overflow, pool: PoolVal, w: Withdrawal, paid: int)
    requires ListBacked(pool) && Paid(Results(over, pool, [w])) == [paid]
    ensures PostWithdrawals(over, pool, [w]).amount == pool.amount - paid
  {
    assert [paid] == [] + [paid];
    SumSnoc([], paid);
    Solvency(over, pool, [w]);
  }

  /** The withdrawal of everything by an address that is not covered: it is paid in
      full, and no points leave the pool. */
  lemma PaidForNothing(over: Overflow, pool: PoolVal, a: Bytes)
    requires ListBacked(pool) && 0 < pool.amount && 0 < pool.total && !CoversLast(pool.points, a)
    ensures var ws, listed := [Withdrawal(a, 100)], Lookup(LastPoints(pool.points), a);
            && Paid(Results(over, pool, ws)) == [pool.amount * listed / pool.total]
            && Burned(Results(over, pool, ws)) == [listed]
            && PostWithdrawals(over, pool, ws).amount == pool.amount - pool.amount * listed / pool.total
    ensures PostWithdrawals(over, pool, [Withdrawal(a, 100)]).points == pool.points
    ensures PostWithdrawals(over, pool, [Withdrawal(a, 100)]).total == pool.total
  {
    var w, listed := Withdrawal(a, 100), Lookup(LastPoints(pool.points), a);
    OneIsPaid(over, pool, w);
    OnePaysOut(over, pool, w, pool.amount * listed / pool.total);
    NothingTaken(over, pool, a);
  }

  lemma NothingTaken(over: Overflow, pool: PoolVal, a: Bytes)
    requires ListBacked(pool) && 0 < pool.amount && 0 < pool.total && !CoversLast(pool.points, a)
    ensures PostWithdrawals(over, pool, [Withdrawal(a, 100)]).points == pool.points
    ensures PostWithdrawals(over, pool, [Withdrawal(a, 100)]).total == pool.total
  {
    var ws, es := [Withdrawal(a, 100)], pool.points;
    EntriesAfterBatch(over, pool, ws);
    WithdrawAll(over, es, a);
    assert [0] == [] + [0];
    SumSnoc([], 0);
    assert ws[..0] == [];
    EntriesNothingYet(over, es);
    EntriesLeftStep(over, es, ws, es);
    FirstLeftStep(over, es, ws, a);
  }

  /** An address that is neither covered nor worthless lowers the price by itself. */
  lemma PriceFalls(over: Overflow, pool: PoolVal, a: Bytes)
    requires ListBacked(pool) && 0 < pool.amount && 0 < pool.total && !CoveredOrWorthless(pool, a)
    ensures !KeepsPrice(over, pool, [Withdrawal(a, 100)])
  {
    PaidForNothing(over, pool, a);
    var q := pool.amount * Lookup(LastPoints(pool.points), a) / pool.total;
    MulDivBounds(pool.amount, Lookup(LastPoints(pool.points), a), pool.total);
    LessAmount(pool.amount, q, pool.total, PostWithdrawals(over, pool, [Withdrawal(a, 100)]).amount);
  }

  lemma LessAmount(A: nat, q: nat, T: nat, left: int)
    requires 0 < q && 0 < T && left == A - q
    ensures left * T < A * T
  {
    Distribute(A, q, T);
    PositiveProduct(q, T);
  }

  lemma PositiveProduct(x: nat, y: nat)
    requires 0 < x && 0 < y
    ensures 0 < x * y
  {}

  /** What crediting xs adds to a word: their sum, less 2^64 for each overflow. */
  function Credited(held: U64, xs: seq<int>): int
    requires forall i :: 0 <= i < |xs| ==> 0 <= xs[i]
  {
    SumNonNegative(xs);
    Sum(xs) - MOD * Overflows(held + Sum(xs))
  }

  /** A deposit batch keeps the price exactly when the points it is granted are worth
      no more, at the old price, than it pays, overflows counted on both sides. */
  lemma DepositsKeepPriceIff(pool: PoolVal, ds: seq<Deposit>)
    ensures var after := PostDeposits(pool, ds);
            (after.amount * pool.total >= pool.amount * after.total)
            <==> (Credited(pool.amount, Amounts(ds)) * pool.total
                  >= pool.amount * Credited(pool.total, Shares(ds)))
  {
    var paid, granted := Credited(pool.amount, Amounts(ds)), Credited(pool.total, Shares(ds));
    SumNonNegative(Amounts(ds));
    SumNonNegative(Shares(ds));
    WrapCount(pool.amount + Sum(Amounts(ds)));
    WrapCount(pool.total + Sum(Shares(ds)));
    Distribute(pool.amount, paid, pool.total);
    Distribute(pool.total, granted, pool.amount);
  }

  // --------------------------------------------------------- three examples

  /** A second entry for an address hides the first: a full withdrawal then burns
      the later entry's points only, and takes them from the earlier entry. */
  lemma SecondDepositHidesFirst(over: Overflow, a: Bytes)
    ensures var pool := PoolVal(1000, [LpEntry(a, 70), LpEntry(a, 30)], 100);
            var ws := [Withdrawal(a, 100)];
            && Results(over, pool, ws) == [WithdrawResult(300, 30)]
            && PostWithdrawals(over, pool, ws) == PoolVal(700, [LpEntry(a, 40), LpEntry(a, 30)], 70)
  {
    var es := [LpEntry(a, 70), LpEntry(a, 30)];
    var pool := PoolVal(1000, es, 100);
    var ws := [Withdrawal(a, 100)];
    assert es[..1] == [LpEntry(a, 70)];
    assert [LpEntry(a, 70)][..0] == [];
    assert LastPoints([LpEntry(a, 70)]) == map[a := 70];
    assert LastPoints(es) == map[a := 30];
    assert ws[..0] == [];
    var rs := Results(over, pool, ws);
    assert rs[0] == WithdrawResult(300, 30);
    assert rs == [rs[0]];
    assert Paid(rs) == [300];
    SumSnoc([], 300);
    assert [] + [300] == [300];
    var paid := pool.(amount := PaidOut(pool.amount, rs));
    assert paid == PoolVal(700, es, 100);
    assert RemoveBurned(paid, ws[..0], rs[..0]) == paid;
    assert RemovePoints(paid, a, 30) == PoolVal(700, es[0 := LpEntry(a, 40)], 70);
  }

  /** Without backing the pool can promise more than it holds: the saturating
      subtraction then empties the pool and the difference is paid from nowhere. */
  lemma UnbackedPoolOverpays(over: Overflow, a: Bytes)
    ensures var pool := PoolVal(1000, [LpEntry(a, 200)], 100);
            var ws := [Withdrawal(a, 100)];
            && !Backed(pool)
            && Sum(Paid(Results(over, pool, ws))) == 2000
            && PostWithdrawals(over, pool, ws).amount == 0
  {
    var es := [LpEntry(a, 200)];
    var pool := PoolVal(1000, es, 100);
    var ws := [Withdrawal(a, 100)];
    assert es[..0] == [] && ws[..0] == [];
    assert LastPoints(es) == map[a := 200];
    assert Points(es) == [] + [200];
    SumSnoc([], 200);
    var rs := Results(over, pool, ws);
    assert rs[0] == WithdrawResult(2000, 200);
    assert Paid(rs) == [] + [2000];
    SumSnoc([], 2000);
    RemoveBurnedKeepsAmount(pool.(amount := PaidOut(pool.amount, rs)), ws, rs);
  }

  /** The genesis holder deposits 2000 and withdraws everything: it is paid for 200
      points that its first entry does not hold, so none is removed, and a point is
      worth less afterwards. */
  lemma PaidButNotRemoved(over: Overflow, a: Bytes)
    ensures var pool := PostDeposits(PoolVal(3_000_000, [LpEntry(a, 100)], 100), [Deposit(a, 2000)]);
            var ws := [Withdrawal(a, 100)];
            && pool == PoolVal(3_002_000, [LpEntry(a, 100), LpEntry(a, 200)], 300)
            && Backed(pool) && !Dry(pool) && !FirstCoversLast(pool.points)
            && Paid(Results(over, pool, ws)) == [2_001_333]
            && !BatchRemoved(over, pool, ws)
            && PostWithdrawals(over, pool, ws) == PoolVal(1_000_667, pool.points, 300)
            && !KeepsPrice(over, pool, ws)
  {
    var es, ws := [LpEntry(a, 100), LpEntry(a, 200)], [Withdrawal(a, 100)];
    var pool := PoolVal(3_002_000, es, 300);
    SecondDeposit(a);
    BackedList(pool);
    PaidForNothing(over, pool, a);
    UncoveredStays(over, pool, a);
  }

  lemma SecondDeposit(a: Bytes)
    ensures var es := [LpEntry(a, 100), LpEntry(a, 200)];
            && PostDeposits(PoolVal(3_000_000, [LpEntry(a, 100)], 100), [Deposit(a, 2000)])
               == PoolVal(3_002_000, es, 300)
            && Sum(Points(es)) == 300 && Lookup(LastPoints(es), a) == 200 && FirstPoints(es, a) == 100
  {
    var d, es := Deposit(a, 2000), [LpEntry(a, 100), LpEntry(a, 200)];
    assert Amounts([d]) == [] + [2000] && Shares([d]) == [] + [200] && Granted([d]) == [LpEntry(a, 200)];
    SumSnoc([], 2000);
    SumSnoc([], 200);
    assert [LpEntry(a, 100)] + [LpEntry(a, 200)] == es;
    assert Points(es) == [] + [100] + [200];
    SumSnoc([], 100);
    SumSnoc([] + [100], 200);
    assert LastPoints(es)[a] == 200;
  }

}
